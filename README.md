# print_ip in Dafny

A model of `print_ip`, the overloaded formatter in `main.cpp`. It writes a
value to standard output as one line of dot-separated fields. The overload is
chosen by the argument's static type:

- **integral types**: the `sizeof(T)` bytes of the value's storage, read from
  index `sizeof(T) - 1` down to 0 and printed as decimals 0..255;
- **`std::string`**: the text unchanged;
- **`std::vector` / `std::list`**: the elements in iteration order;
- **homogeneous `std::tuple`**: the elements in position order.

Every overload puts a `.` between fields, none after the last, and ends the
line with `std::endl`.

Modules:

- `Decimal` (decimal.dfy): how `operator<<` renders an integer (`IntToString`),
  and a reader `ParseInt` that inverts it.
- `Dotted` (dotted.dfy): the dotted format. `Join` puts a separator between
  fields. `Emit` is what a loop has written after `n` fields when it writes each
  field followed by a dot unless that field is the last. All three loops in the
  source work this way: an `i > 0` test, a `std::next(it) != end()` test, and a
  `++n == sizeof...(args)` test. The module also has `Split` and `CountDots`.
- `Bytes` (bytes.dfy): the object representation of a fixed-width integer on a
  little-endian host. `Pattern` is the two's-complement bit pattern
  (`value % 256^w`). `Storage` holds its bytes, least significant first.
  `ValueMsbFirst` reads bytes back as base-256 digits, and `ToSigned` reads a
  pattern as a signed number.
- `PrintIp` (print_ip.dfy): the argument kinds as the datatype `Value`, and the
  output stream as the class `Stream`, whose `text` is everything written so
  far. `Line(v)` is the line written for `v`. There is one method per overload,
  each with the loop of the source, plus the dispatch `Print`. The lemmas here
  give the shape of each kind of line.
- `Readback` (readback.dfy): readers that invert each kind of line. The
  round-trip lemmas show that no information is lost: every line gives back
  the value it was printed from, and an integer line gives back the value's bit
  pattern.
- `Samples` (samples.dfy): the calls in `main` and the line each one prints.

Three consequences of the overload conditions in the code:

- `Width` is any `sizeof` of at least 1, because the integer overload accepts
  every integral type (main.cpp:17-19), not only those of 1, 2, 4 or 8 bytes.
- `Container` stands for `std::vector` and `std::list`, the only containers
  the default branch accepts (main.cpp:55-57). The `CONCEPTS` branch
  (main.cpp:45-53) accepts any iterable container other than `std::string`.
  Both branches print the same text.
- A tuple may have any arity, zero included. For an empty tuple both
  `are_all_same_v` (main.cpp:78) and `AllSame` (main.cpp:72) hold, the fold on
  main.cpp:86 writes nothing, and only the newline is printed.

## Model

| member | source | states |
|---|---|---|
| `PrintIp.PrintIntegral` | main.cpp:21-30 | Appends to the stream the decimals of the storage bytes, from index `sizeof(T)-1` down to 0, with a dot after every byte except byte 0, then a newline. The loop invariant says the text is the dotted prefix of the fields printed so far. |
| `PrintIp.PrintText` | main.cpp:38-41 | Appends the string unchanged, then a newline. |
| `PrintIp.PrintContainer` | main.cpp:59-67 | Appends the elements in iteration order, with a dot after each element whose `std::next` is not `end()`, then a newline. An empty container writes only the newline. |
| `PrintIp.PrintTuple` | main.cpp:82-89 | Appends the elements in position order. After each element the counter `n` is incremented, and a dot follows unless `n` equals the arity. Then a newline. An empty tuple writes only the newline. |
| `PrintIp.Print` | main.cpp:16-89 | Each argument kind goes to its own overload. The stream gains exactly `Line(v)` and nothing else, so the output depends on the argument alone, and two calls with one value write the same line. |
| `PrintIp.Stream.Write` | main.cpp:25-27 | `std::cout <<` appends its text to what the stream already holds. |
| `PrintIp.Line` | main.cpp:21-89 | The line each overload writes for its argument; every line, whatever the overload, ends in the newline of `std::endl`. |
| `PrintIp.EmptyTupleLine` | main.cpp:82-89 | An empty tuple prints the same line as an empty container: the newline alone. |
| `PrintIp.IntegralLineShape` | main.cpp:24-28 | An integer line has exactly `w` fields and `w-1` dots. It has one newline, at the end, and no leading or trailing dot. Field k reads back as storage byte `w-1-k`, which lies in 0..255 even for negative values. |
| `PrintIp.ElementsLineShape` | main.cpp:61-66 | A container or tuple line has one field per element, in order, and one dot fewer than there are elements. An empty container or tuple gives exactly `"\n"`. |
| `PrintIp.DottedLineTerminated` | main.cpp:61-66 | Any dotted line of integers has N-1 dots for N fields, no dots for none, and one newline, at the end. |
| `PrintIp.DottedLineFields` | main.cpp:61-64 | A dotted line of at least one integer does not start or end with a dot. Splitting it at its dots gives the integers back, one per field. |
| `PrintIp.TextLineShape` | main.cpp:40 | A string's line is the string followed by one newline. No dots are inserted: the line has as many dots as the string. |
| `PrintIp.DecimalsClean` | main.cpp:62 | No field printed for an integer contains a dot or a newline, so fields cannot run together. |
| `PrintIp.HighestFirst` | main.cpp:24-25 | Field `w-1-i` of the most-significant-first fields is the decimal of storage byte `i`. |
| `Decimal.IntToString` | main.cpp:25 | What `operator<<` writes for an integer: the `std::to_integer<int>` of a byte here, and the `int` or `short` elements on main.cpp lines 62 and 86: never empty. Its shape is stated by `Decimal.IntToStringShape` and `Decimal.NatToStringDigits`, its inverse by `Decimal.ParseIntToString`. |
| `Decimal.NatToStringDigits` | main.cpp:25 | A non-negative integer prints as digits only, and has no leading zero unless the value is zero. |
| `Decimal.IntToStringShape` | main.cpp:62 | An integer prints with a leading `-` exactly when it is negative, followed by digits, and never contains a dot or a newline. |
| `Decimal.ParseIntToString` | main.cpp:62 | Printing an integer and reading the text back gives the integer. |
| `Decimal.IntToStringInjective` | main.cpp:62 | Distinct integers print distinct texts. |
| `Dotted.EmitPrefix` | main.cpp:61-65 | After n of N fields, a dot-after-all-but-the-last loop has written the first n fields joined, plus a dot if n < N. |
| `Dotted.EmitAll` | main.cpp:85-86 | After all fields, such a loop has written exactly the fields joined by single dots, with no trailing dot. |
| `Dotted.EmitNext` | main.cpp:26-27 | One loop step writes field n, and then a dot unless n is the last field; this extends the text by the next piece. |
| `Dotted.SplitJoin` | main.cpp:63-64 | Splitting the join of one or more dot-free fields at its dots gives exactly those fields. |
| `Dotted.CountDotsJoin` | main.cpp:63-64 | N dot-free fields joined contain exactly N-1 dots, or none when N is 0. |
| `Dotted.JoinEnds` | main.cpp:26-27 | A join starts with its first field and ends with its last field. |
| `Dotted.JoinAppend` | main.cpp:63-64 | Joining two non-empty runs of fields gives their joins with one dot between them. |
| `Bytes.Pattern` | main.cpp:23 | The two's-complement bit pattern of a `w`-byte integer, read as unsigned, lies below `256^w`. |
| `Bytes.PatternInRange` | main.cpp:23 | A non-negative value below `256^w` is its own pattern; a negative value of at least `-256^w` is stored as `value + 256^w` (so `int8_t{-1}` is 255). |
| `Bytes.Storage` | main.cpp:23 | The storage of a `w`-byte integer is exactly `w` bytes, each in 0..255. |
| `Bytes.StorageByte` | main.cpp:23 | Byte `i` of the storage is bits 8i..8i+7 of the two's-complement pattern, as on a little-endian host. |
| `Bytes.ReadBackStorage` | main.cpp:23-25 | Reading the storage bytes from index `w-1` down to 0 as base-256 digits gives `value mod 256^w`. |
| `Bytes.PatternRecovers` | main.cpp:19-23 | A value in the range of its integral type is recovered from its bit pattern, given the type's signedness. |
| `Readback.IntegralReadsPattern` | main.cpp:23-25 | An integer line, read as unsigned base-256 digits, gives `value mod 2^(8w)`, for negative values too. |
| `Readback.IntegralRoundTrip` | main.cpp:21-30 | Reading back the line of an in-range value of a `w`-byte type, signed or unsigned, gives the value. |
| `Readback.IntegralLineInjective` | main.cpp:21-30 | Two in-range values of one integral type print the same line only if they are equal. |
| `Readback.IntegralLinesEqualIff` | main.cpp:23-25 | Two integers of width `w` print the same line exactly when they agree modulo `2^(8w)`, whatever their signedness. So `int8_t{-1}` and `uint8_t{255}` print alike. |
| `Readback.ElementsRoundTrip` | main.cpp:59-67 | Reading back a container or tuple line gives the elements in order. An empty container's line reads as no elements. |
| `Readback.DottedLineRoundTrip` | main.cpp:82-89 | Reading back any dotted line of integers gives the integers. |
| `Readback.TextRoundTrip` | main.cpp:38-41 | The text before the final newline of a string's line is the string. |
| `Samples.RunSamples` | main.cpp:91-100 | `main` writes the lines of its eight calls, in order. |
| `Samples.SampleInt8` | main.cpp:93 | `int8_t{-1}` prints `255`. |
| `Samples.SampleInt16` | main.cpp:94 | `int16_t{0}` prints `0.0`. |
| `Samples.SampleInt32` | main.cpp:95 | `int32_t{2130706433}` prints `127.0.0.1`. |
| `Samples.SampleInt64` | main.cpp:96 | `int64_t{8875824491850138409}` prints `123.45.67.89.101.112.131.41`. |
| `Samples.SampleText` | main.cpp:97 | `std::string{"Hello, World!"}` prints `Hello, World!`. |
| `Samples.SampleVector` | main.cpp:98 | `std::vector<int>{100, 200, 300, 400}` prints `100.200.300.400`. |
| `Samples.SampleList` | main.cpp:99 | `std::list<short>{400, 300, 200, 100}` prints `400.300.200.100`. |
| `Samples.SampleTuple` | main.cpp:100 | `std::make_tuple(123, 456, 789, 0)` prints `123.456.789.0`. |
| `Samples.SampleTuple6` | main.cpp:104 | The commented-out `std::make_tuple(123, 456, 789, 0, 11, 22)` would print `123.456.789.0.11.22`, as its comment says. |

## Left out

- Standard output itself: `std::cout` is the `Stream` object, and only its text is modelled. The flush done by `std::endl` and stream error states are not modelled.
- Compile-time overload selection (`enable_if`, the `CONCEPTS` branch, `IpContainer`, `AllSame` / `are_all_same_v`). It is modelled as the choice of a `Value` variant. An argument with no matching overload, such as a mixed-type tuple, a `std::deque` in the default branch, or a floating-point value, cannot be built as a `Value`, just as the source does not compile it.
- Host endianness and the `std::bit_cast` pointer reinterpretation. The model assumes a little-endian host and defines the storage bytes arithmetically.
- Elements that are not integers. Containers and tuples hold unbounded integers printed in signed decimal. Character element types, which `operator<<` prints as characters, and `const char*` tuples are not modelled. Nor is the range of the element type (`short`, `int`).
- The commented-out calls at the end of `main` (main.cpp:103-109) are not part of `RunSamples`. The six-element `int` tuple is covered by `Samples.SampleTuple6`. The `std::deque<short>` has no overload in the default branch (main.cpp:55-57); in the `CONCEPTS` branch it would print like a `Container`. The tuple of `const char*` has non-integer elements (see the line above). The calls marked ERROR are mixed-type tuples, which have no overload and no `Value`.
