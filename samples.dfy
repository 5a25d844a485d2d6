/**
 * The entry point `main`: eight calls of the formatter, and the line each
 * prints, derived stage by stage (storage bytes, decimal fields, joined line).
 */
module Samples {
  import opened Decimal
  import opened Dotted
  import opened Bytes
  import opened PrintIp

  /**
   * `main`: the eight sample calls in order; the output is their lines one
   * after the other. The `Sample*` lemmas below give each line's text.
   */
  method RunSamples(out: Stream)
    modifies out
    ensures out.text == old(out.text)
      + Line(Integral(1, true, -1)) + Line(Integral(2, true, 0))
      + Line(Integral(4, true, 2130706433)) + Line(Integral(8, true, 8875824491850138409))
      + Line(Text("Hello, World!"))
      + Line(Container([100, 200, 300, 400])) + Line(Container([400, 300, 200, 100]))
      + Line(Tuple([123, 456, 789, 0]))
  {
    var int8, int16, int32, int64 :=
      Integral(1, true, -1), Integral(2, true, 0),
      Integral(4, true, 2130706433), Integral(8, true, 8875824491850138409);
    var text := Text("Hello, World!");
    var vector, list := Container([100, 200, 300, 400]), Container([400, 300, 200, 100]);
    var tuple := Tuple([123, 456, 789, 0]);
    Print(out, int8);
    Print(out, int16);
    Print(out, int32);
    Print(out, int64);
    Print(out, text);
    Print(out, vector);
    Print(out, list);
    Print(out, tuple);
  }

  /** `int8_t{-1}` is stored as the single byte 0xff. */
  lemma Int8Bytes()
    ensures Reverse(Storage(1, -1)) == [255]
  {
    assert Pow256(1) == 256;
    assert Storage(1, -1) == [255];
  }

  lemma Int16Bytes()
    ensures Reverse(Storage(2, 0)) == [0, 0]
  {
    assert Storage(2, 0) == [0, 0];
  }

  /** `int32_t{2130706433}` is 0x7f000001, stored as 01 00 00 7f. */
  lemma Int32Bytes()
    ensures Reverse(Storage(4, 2130706433)) == [127, 0, 0, 1]
  {
    assert Pow256(4) == 4294967296;
    assert Storage(4, 2130706433) == [1, 0, 0, 127];
  }

  /** `int64_t{8875824491850138409}` is 0x7b2d435965708329, stored low byte first. */
  lemma Int64Bytes()
    ensures Reverse(Storage(8, 8875824491850138409)) == [123, 45, 67, 89, 101, 112, 131, 41]
  {
    Int64Pattern();
    Int64AllBytes();
    assert Storage(8, 8875824491850138409) == [41, 131, 112, 101, 89, 67, 45, 123];
  }

  /** The value is below 2^63, so its pattern is the value itself. */
  lemma Int64Pattern()
    ensures Pattern(8, 8875824491850138409) == 8875824491850138409
  {
    assert Pow256(8) == 18446744073709551616;
  }

  /** Bytes 4..7 of the storage, from the top: 0x59, 0x43, 0x2d, 0x7b. */
  lemma Int64HighBytes()
    ensures LittleEndian(2066563929, 4) == [89, 67, 45, 123]
  {
    assert LittleEndian(123, 1) == [123];
    assert LittleEndian(31533, 2) == [45, 123];
    assert LittleEndian(8072515, 3) == [67, 45, 123];
  }

  /** All eight bytes: 0x29, 0x83, 0x70, 0x65 below the four above. */
  lemma Int64AllBytes()
    ensures LittleEndian(8875824491850138409, 8) == [41, 131, 112, 101, 89, 67, 45, 123]
  {
    Int64HighBytes();
    assert LittleEndian(529040365925, 5) == [101, 89, 67, 45, 123];
    assert LittleEndian(135434333676912, 6) == [112, 101, 89, 67, 45, 123];
    assert LittleEndian(34671189421289603, 7) == [131, 112, 101, 89, 67, 45, 123];
  }

  lemma Int8Fields()
    ensures Decimals([255]) == ["255"]
  {
    assert IntToString(255) == "255";
  }

  lemma Int8Joined()
    ensures Join(["255"]) == "255"
  {
  }

  /** `int8_t{ -1 }` prints `255`. */
  lemma SampleInt8()
    ensures Line(Integral(1, true, -1)) == "255\n"
  {
    Int8Bytes();
    Int8Fields();
    Int8Joined();
  }

  lemma Int16Fields()
    ensures Decimals([0, 0]) == ["0", "0"]
  {
    assert IntToString(0) == "0";
  }

  lemma Int16Joined()
    ensures Join(["0", "0"]) == "0.0"
  {
  }

  /** `int16_t{ 0 }` prints `0.0`. */
  lemma SampleInt16()
    ensures Line(Integral(2, true, 0)) == "0.0\n"
  {
    Int16Bytes();
    Int16Fields();
    Int16Joined();
  }

  lemma Int32Fields()
    ensures Decimals([127, 0, 0, 1]) == ["127", "0", "0", "1"]
  {
    assert IntToString(127) == "127";
    assert IntToString(0) == "0";
    assert IntToString(1) == "1";
  }

  lemma Int32Joined()
    ensures Join(["127", "0", "0", "1"]) == "127.0.0.1"
  {
  }

  /** `int32_t{ 2130706433 }` prints `127.0.0.1`. */
  lemma SampleInt32()
    ensures Line(Integral(4, true, 2130706433)) == "127.0.0.1\n"
  {
    Int32Bytes();
    Int32Fields();
    Int32Joined();
  }

  lemma Int64Fields()
    ensures Decimals([123, 45, 67, 89, 101, 112, 131, 41]) == ["123", "45", "67", "89", "101", "112", "131", "41"]
  {
    assert IntToString(123) == "123";
    assert IntToString(45) == "45";
    assert IntToString(67) == "67";
    assert IntToString(89) == "89";
    assert IntToString(101) == "101";
    assert IntToString(112) == "112";
    assert IntToString(131) == "131";
    assert IntToString(41) == "41";
  }

  lemma Int64HighJoined()
    ensures Join(["123", "45", "67", "89"]) == "123.45.67.89"
  {
  }

  lemma Int64LowJoined()
    ensures Join(["101", "112", "131", "41"]) == "101.112.131.41"
  {
  }

  lemma Int64Joined()
    ensures Join(["123", "45", "67", "89", "101", "112", "131", "41"]) == "123.45.67.89.101.112.131.41"
  {
    JoinAppend(["123", "45", "67", "89"], ["101", "112", "131", "41"]);
    assert ["123", "45", "67", "89"] + ["101", "112", "131", "41"] == ["123", "45", "67", "89", "101", "112", "131", "41"];
    Int64HighJoined();
    Int64LowJoined();
  }

  /** `int64_t{ 8875824491850138409 }` prints `123.45.67.89.101.112.131.41`. */
  lemma SampleInt64()
    ensures Line(Integral(8, true, 8875824491850138409)) == "123.45.67.89.101.112.131.41\n"
  {
    Int64Bytes();
    Int64Fields();
    Int64Joined();
  }

  /** `std::string{ "Hello, World!" }` prints the text itself. */
  lemma SampleText()
    ensures Line(Text("Hello, World!")) == "Hello, World!\n"
  {
  }

  lemma VectorFields()
    ensures Decimals([100, 200, 300, 400]) == ["100", "200", "300", "400"]
  {
    assert IntToString(100) == "100";
    assert IntToString(200) == "200";
    assert IntToString(300) == "300";
    assert IntToString(400) == "400";
  }

  lemma VectorJoined()
    ensures Join(["100", "200", "300", "400"]) == "100.200.300.400"
  {
  }

  /** `std::vector<int>{100, 200, 300, 400}` prints `100.200.300.400`. */
  lemma SampleVector()
    ensures Line(Container([100, 200, 300, 400])) == "100.200.300.400\n"
  {
    VectorFields();
    VectorJoined();
  }

  lemma ListFields()
    ensures Decimals([400, 300, 200, 100]) == ["400", "300", "200", "100"]
  {
    assert IntToString(400) == "400";
    assert IntToString(300) == "300";
    assert IntToString(200) == "200";
    assert IntToString(100) == "100";
  }

  lemma ListJoined()
    ensures Join(["400", "300", "200", "100"]) == "400.300.200.100"
  {
  }

  /** `std::list<short>{400, 300, 200, 100}` prints `400.300.200.100`. */
  lemma SampleList()
    ensures Line(Container([400, 300, 200, 100])) == "400.300.200.100\n"
  {
    ListFields();
    ListJoined();
  }

  lemma TupleFields()
    ensures Decimals([123, 456, 789, 0]) == ["123", "456", "789", "0"]
  {
    assert IntToString(123) == "123";
    assert IntToString(456) == "456";
    assert IntToString(789) == "789";
    assert IntToString(0) == "0";
  }

  lemma TupleJoined()
    ensures Join(["123", "456", "789", "0"]) == "123.456.789.0"
  {
  }

  /** `std::make_tuple(123, 456, 789, 0)` prints `123.456.789.0`. */
  lemma SampleTuple()
    ensures Line(Tuple([123, 456, 789, 0])) == "123.456.789.0\n"
  {
    TupleFields();
    TupleJoined();
  }

  lemma Tuple6Fields()
    ensures Decimals([123, 456, 789, 0, 11, 22]) == ["123", "456", "789", "0", "11", "22"]
  {
    assert IntToString(123) == "123";
    assert IntToString(456) == "456";
    assert IntToString(789) == "789";
    assert IntToString(0) == "0";
    assert IntToString(11) == "11";
    assert IntToString(22) == "22";
  }

  lemma Tuple6HighJoined()
    ensures Join(["123", "456", "789"]) == "123.456.789"
  {
  }

  lemma Tuple6LowJoined()
    ensures Join(["0", "11", "22"]) == "0.11.22"
  {
  }

  lemma Tuple6Joined()
    ensures Join(["123", "456", "789", "0", "11", "22"]) == "123.456.789.0.11.22"
  {
    JoinAppend(["123", "456", "789"], ["0", "11", "22"]);
    assert ["123", "456", "789"] + ["0", "11", "22"] == ["123", "456", "789", "0", "11", "22"];
    Tuple6HighJoined();
    Tuple6LowJoined();
  }

  /** The six-element `int` tuple among the commented-out calls of `main` would print `123.456.789.0.11.22`. */
  lemma SampleTuple6()
    ensures Line(Tuple([123, 456, 789, 0, 11, 22])) == "123.456.789.0.11.22\n"
  {
    Tuple6Fields();
    Tuple6Joined();
  }
}
