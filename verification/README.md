# number-1-bits in Dafny

This project models the Hamming weight (population count) of a 32-bit unsigned
integer. The repository implements it four ways in C++ and four ways in Python:

- a brute-force scan of all 32 bits;
- Brian Kernighan's loop, which clears the lowest set bit until none is left;
- a lookup in a 256-entry byte table, once per byte;
- a call to the language's intrinsic (`popcount` or `int.bit_count()`).

The C++ solutions take a `uint32_t`, so they are modelled on `bv32` words. The
Python solutions take an `int`, so they are modelled on non-negative integers
of unbounded width. Each solution is proved to return the number of 1-bits of
its input. Each bit fact the algorithms rely on is a lemma of its own.

Python integers are unbounded, so the Python model does not restrict `n` to
32 bits. The brute-force and table solutions look at exactly 32 bits, and they
are proved to count the 1-bits among the lowest 32 bits of `n`. Kernighan's
loop and `int.bit_count()` count every 1-bit of `n`. The four therefore agree
exactly when `n < 2^32`, which is the range the Python tests use:
`HammingPy.Agree` proves they agree below `2^32`, and `HammingPy.Disagree`
proves that from `2^32` up the first two return less than the last two.

| file | module | contents |
|---|---|---|
| `word32.dfy` | `Word32` | `PopCount` on `bv32`, its bounds and the complement, the lowest set bit, Kernighan's step, splitting a word into bytes |
| `nat_bits.dfy` | `NatBits` | `BitCount`, Python's `&` and `>>` and the lowest `k` bits of a non-negative integer, the same facts over integers |
| `byte_table.dfy` | `ByteTable` | the shared 256-entry table, proved entry by entry against both counts |
| `hamming_cpp.dfy` | `HammingCpp` | the four C++ solutions |
| `hamming_py.dfy` | `HammingPy` | the four Python solutions |
| `test_cases.dfy` | `TestCases` | the test inputs 11, 128 and 4294967293 of both test suites, and the all-ones word |

Some behaviour is taken as a parameter rather than modelled:

- The intrinsics are foreign code. `popcount` is modelled as the specification
  function `PopCount`, and `int.bit_count()` as `BitCount`.
- The C++ table solution reads an accumulator that was never initialised. Its
  initial value is the parameter `initial` of `HammingCpp.TableAsWritten`.

## Model

| member | source | states |
|---|---|---|
| `Word32.PopCount` | cpp/main.cpp:142-144 | the count of 1-bits of a word, low bit first; it is 0 exactly for the zero word |
| `Word32.PopCountBounds` | cpp/main.cpp:46-56 | every 32-bit word has between 0 and 32 set bits: 0 exactly for the zero word and 32 exactly for 0xFFFFFFFF |
| `Word32.PopCountComplementWithin` | cpp/main.cpp:46-56 | within the lowest `k` bits, each bit is set in exactly one of `n` and `~n`, so the two counts add up to `k` |
| `Word32.PopCountComplement` | cpp/main.cpp:46-56 | the counts of `n` and `~n` add up to 32 |
| `Word32.LowestSetBit` | cpp/main.cpp:66-69 | the lowest set bit of a non-zero word is a single bit: set in the word, with no lower bit of the word set |
| `Word32.ClearLowestSetBit` | cpp/main.cpp:76-78 | `n & (n - 1)` differs from a non-zero `n` in exactly the lowest set bit, which it clears |
| `Word32.PopCountClearLowest` | cpp/main.cpp:76-78 | each step `n = n & (n - 1)` on a non-zero word removes exactly one 1-bit |
| `Word32.PopCountSplit` | cpp/main.cpp:123-126 | the 1-bits of a word are those of its low `k` bits plus those of `n >> k`, for every `k` up to 32 |
| `Word32.PopCountBytes` | cpp/main.cpp:123-126 | the 1-bits of a word are the 1-bits of its four bytes added together |
| `ByteTable.TableIsPopCount` | cpp/main.cpp:102-119 | the table entry of every byte is the count of that byte as a 32-bit word |
| `ByteTable.TableIsBitCount` | solution.py:83-100 | every entry `b` of the 256-entry table is the number of 1-bits of `b`; entry 0 is 0 and entry 255 is 8 among them |
| `ByteTable.ByteBitCount` | cpp/main.cpp:102-119 | a byte has the same count as a word and as an integer, which is what lets one table serve both solutions |
| `HammingCpp.BruteForce` | cpp/main.cpp:46-57 | 32 rounds of testing `n & 1` and shifting right return the number of 1-bits of `n`: a value in 0..32 that is 0 only for 0 |
| `HammingCpp.Kernighan` | cpp/main.cpp:73-81 | the loop terminates, and the number of `n & (n - 1)` rounds is the number of 1-bits of `n`, 0 exactly when `n` is 0 |
| `HammingCpp.TableAsWritten` | cpp/main.cpp:120-129 | the accumulator as declared: the result is its initial value plus the count, so it is correct exactly when that value happens to be 0 |
| `HammingCpp.StaleAccumulator` | cpp/main.cpp:121-124 | a concrete case of the defect: with a stale accumulator of 1, the table solution returns 4 for the input 11, whose count is 3 |
| `HammingCpp.Table` | cpp/main.cpp:120-129 | with the accumulator starting at 0, four rounds of adding the table entry of `n & 0xff` and shifting by 8 return the count of `n` |
| `HammingCpp.Intrinsic` | cpp/main.cpp:142-144 | `popcount(n)` lies in 0..32 and is 0 exactly for the zero word |
| `HammingCpp.Agree` | cpp/main.cpp:140-145 | on every word the brute-force, Kernighan and table solutions return the same count as the intrinsic `popcount(n)` |
| `NatBits.BitCount` | solution.py:117-118 | the count of 1-bits of a non-negative integer, 0 exactly for 0 |
| `NatBits.And` | solution.py:62 | Python's `&` on non-negative integers is at most either operand |
| `NatBits.AndOne` | solution.py:42 | `n & 1` is the low bit of `n` |
| `NatBits.AndLowMask` | solution.py:103-106 | `x & (2^k - 1)`, such as `x & 0xff`, keeps exactly the lowest `k` bits of `x` |
| `NatBits.ShrLow` | solution.py:103-106 | `x` is `x >> k` times `2^k` plus its lowest `k` bits, and those bits lie below `2^k`: `>>` and the mask split `x` without loss |
| `NatBits.ShrLowByte` | solution.py:103-106 | `x >> 8` and `x & 0xff` are the quotient and remainder of `x` by 256 |
| `NatBits.ShrShr` | solution.py:103-106 | shifting right by `a` and then by `b` is shifting right by `a + b`, so `n >> 16` is `(n >> 8) >> 8` |
| `NatBits.LowSmall` | solution.py:41-45 | a number below `2^k` is unchanged by keeping its lowest `k` bits, so 32 rounds see all of an `n < 2^32` |
| `NatBits.LowLow` | solution.py:103-106 | keeping the lowest `a` bits of the lowest `a + b` bits is keeping the lowest `a` bits |
| `NatBits.ShrOfLow` | solution.py:103-106 | the lowest `a + b` bits of `x` shifted right by `a` are the lowest `b` bits of `x >> a` |
| `NatBits.LowBitCountStep` | solution.py:41-44 | one round of the brute-force loop: the count of the lowest `w` bits is bit 0 (`n & 1`) plus the count of the lowest `w - 1` bits of `n >> 1` |
| `NatBits.BitCountLowSplit` | solution.py:103-106 | the 1-bits among the lowest `a + b` bits are those among the lowest `a` plus those among the lowest `b` bits of `x >> a` |
| `NatBits.BitCountSplit` | solution.py:83-100 | the 1-bits of `x` are those among its lowest `k` bits plus those of `x >> k` |
| `NatBits.NibbleSplit` | solution.py:83-100 | the count of a number is the count of its low nibble plus the count of the rest, which is how each table row follows from the first |
| `NatBits.BelowPow2` | solution.py:38-45 | below `2^k` a number is its own lowest `k` bits and has at most `k` 1-bits |
| `NatBits.LowCountBelow` | solution.py:41-45 | from `2^k` up a number has strictly more 1-bits than its lowest `k` bits, so a fixed `k`-bit scan undercounts it |
| `NatBits.BitCountAtMost` | solution.py:38-45 | a number below `2^k` has at most `k` 1-bits, so inputs below `2^32` give counts in 0..32 |
| `NatBits.TrailingZeros` | solution.py:53-56 | the position `t` of the lowest 1-bit of a positive `x`: the lowest `t + 1` bits of `x` are exactly `2^t` |
| `NatBits.ClearLowestValue` | solution.py:53-56 | `n & (n - 1)` is `n` minus its lowest 1-bit |
| `NatBits.ClearLowestCount` | solution.py:62 | each step `n = n & (n - 1)` on a positive `n` removes exactly one 1-bit |
| `HammingPy.BruteForce` | solution.py:39-45 | 32 rounds of `n & 1` and `n >>= 1` count the 1-bits among the lowest 32 bits of `n`, which is all of them when `n < 2^32`; the result lies in 0..32 |
| `HammingPy.Kernighan` | solution.py:59-64 | for every `n >= 0` the loop terminates after as many rounds as `n` has 1-bits; it returns 0 exactly for 0 |
| `HammingPy.ByteAt` | solution.py:103-106 | the lookup index `(n >> k) & 0xff` is the byte of `n` at bit `k`, and its table entry is that byte's count |
| `HammingPy.BitCountBytes` | solution.py:103-106 | the count of the low 32 bits of `n` is the sum of the counts of the bytes at bits 0, 8, 16 and 24 |
| `HammingPy.Table` | solution.py:101-106 | the unrolled sum of four byte lookups is the count of the low 32 bits of `n`, the count of `n` when `n < 2^32` |
| `HammingPy.Intrinsic` | solution.py:117-118 | `n.bit_count()` is 0 exactly for 0 and at most 32 for `n < 2^32` |
| `HammingPy.Agree` | solution.py:116-118 | on every `n` below `2^32` the brute-force, Kernighan and table solutions return the same count as `n.bit_count()` |
| `HammingPy.Disagree` | solution.py:39-64 | from `2^32` up, brute force and the table return the same count, strictly less than what Kernighan's loop and `n.bit_count()` return |
| `TestCases.WordVectors` | cpp/main.cpp:153-331 | the words 11, 128 and 4294967293 of the tests have 3, 1 and 31 set bits |
| `TestCases.AllOnes` | cpp/main.cpp:46-56 | the all-ones word 4294967295, the largest value of a `uint32_t`, has 32 set bits |
| `TestCases.CppTestCases` | cpp/main.cpp:153-331 | each of the four C++ solutions returns 3, 1 and 31 on the three test inputs |
| `TestCases.NatVectors` | solution.py:120-145 | the integers 11, 128 and 4294967293 have 3, 1 and 31 set bits, and all three lie below `2^32` |
| `TestCases.NatAllButBitOne` | solution.py:120-145 | 4294967293 lies below `2^32`, and its count is that of its low byte 0xfd plus three times that of 0xff |
| `TestCases.PyTestCases` | solution.py:147-161 | each of the four Python solutions returns 3, 1 and 31 on the three test inputs |

## Left out

- The test harness is not modelled: doctest, `testName`, timing with `steady_clock` and `time.time`, and the `cerr` and `print` output. The expected values it checks are `TestCases`.
- `utils.hpp` is not part of this model.
- The implementations of `popcount` and `int.bit_count()` are foreign code. They are modelled as the specification functions `PopCount` and `BitCount`.
- The C++ tests store `4294967293u` in an `int` before passing it as a `uint32_t`. That conversion is implementation-defined, so the inputs are given directly as `bv32` words.
- HammingPy.Kernighan: negative integers are excluded by the `nat` parameter; on a negative `n` the Python loop never ends.
- HammingPy.BruteForce: negative integers are excluded by the `nat` parameter; on a negative `n` the Python code counts the low 32 bits of its two's-complement form.
- HammingPy.Intrinsic: negative integers are excluded by the `nat` parameter; on a negative `n`, `n.bit_count()` counts the 1-bits of `abs(n)` (2 for -3), unlike the other solutions, and the solutions promise nothing for negative input.
- HammingPy.Table: negative integers are excluded by the `nat` parameter; on a negative `n` the Python code counts the low 32 bits of its two's-complement form.
- The loop counters `sizeof(n) * 8` and `sizeof(n)` have type `size_t` in the C++ source. They are modelled as `bv32` counters, which hold the same values 0..32.
- `PopCount` on a word and `BitCount` on the same value as an integer are proved equal only for bytes (`ByteTable.ByteBitCount`), not for every 32-bit word. Each language's solutions are proved against their own specification.
- Complexity and timing claims in the comments are not modelled.

## Findings

| source | as written | input that shows it | evidently intended | confidence | as-written member | corrected member |
|---|---|---|---|---|---|---|
| cpp/main.cpp:121-124 | `int result;` is declared without an initial value, and the loop then adds `toBitCount_[n & 0xff]` to it. Reading the indeterminate value is undefined behaviour. | any `n`, for example 11, whenever `result` does not happen to start at 0: the result is then that value plus 3 (`HammingCpp.StaleAccumulator` shows 4) | `result` starts at 0, as in the Python table solution (solution.py:103-106) and in the other C++ solutions | not executed; read from the code | `HammingCpp.TableAsWritten` | `HammingCpp.Table` |
