/** The 16-bit feedback registers behind both checksums, and the bit reversal that exchanges them. */
module Register {

  /** Addition of register contents. */
  function Sum(a: bv16, b: bv16): bv16 {
    a ^ b
  }

  /** One shift of the MSB-first register with polynomial 0x1021. */
  function Shift(crc: bv16): bv16 {
    if crc & 0x8000 != 0 then (crc << 1) ^ 0x1021 else crc << 1
  }

  function Shift8(crc: bv16): bv16 {
    Shift(Shift(Shift(Shift(Shift(Shift(Shift(Shift(crc))))))))
  }

  /** One shift of the reflected register with polynomial 0x8408. */
  function ShiftR(crc: bv16): bv16 {
    if crc & 1 != 0 then (crc >> 1) ^ 0x8408 else crc >> 1
  }

  function ShiftR8(crc: bv16): bv16 {
    ShiftR(ShiftR(ShiftR(ShiftR(ShiftR(ShiftR(ShiftR(ShiftR(crc))))))))
  }

  // Both shifts written as exclusive-or of shifted copies, so that linearity is visible.

  function Linear(crc: bv16): bv16 {
    (crc << 1) ^ (crc >> 15) ^ ((crc >> 15) << 5) ^ ((crc >> 15) << 12)
  }

  function LinearR(crc: bv16): bv16 {
    (crc >> 1) ^ ((crc & 1) << 3) ^ ((crc & 1) << 10) ^ ((crc & 1) << 15)
  }

  lemma ShiftIsLinear(a: bv16)
    ensures Shift(a) == Linear(a)
  {
    if a & 0x8000 == 0 { assert a >> 15 == 0; } else { assert a >> 15 == 1; }
  }

  lemma ShiftRIsLinear(a: bv16)
    ensures ShiftR(a) == LinearR(a)
  {
    if a & 1 == 0 { assert a & 1 != 1; } else { assert a & 1 == 1; }
  }

  lemma LinearSplits(a: bv16, b: bv16)
    ensures Linear(a ^ b) == Linear(a) ^ Linear(b)
  {
  }

  lemma LinearOfXor(a: bv16, b: bv16)
    ensures Linear(Sum(a, b)) == Sum(Linear(a), Linear(b))
  {
    hide Linear;
    LinearSplits(a, b);
  }

  lemma LinearROfXor(a: bv16, b: bv16)
    ensures LinearR(Sum(a, b)) == Sum(LinearR(a), LinearR(b))
  {
  }

  lemma ShiftOfXor(a: bv16, b: bv16)
    ensures Shift(Sum(a, b)) == Sum(Shift(a), Shift(b))
  {
    hide Shift, Linear, Sum;
    ShiftIsLinear(Sum(a, b));
    LinearOfXor(a, b);
    ShiftIsLinear(a);
    ShiftIsLinear(b);
  }

  lemma ShiftROfXor(a: bv16, b: bv16)
    ensures ShiftR(Sum(a, b)) == Sum(ShiftR(a), ShiftR(b))
  {
    hide ShiftR, LinearR, Sum;
    ShiftRIsLinear(Sum(a, b));
    LinearROfXor(a, b);
    ShiftRIsLinear(a);
    ShiftRIsLinear(b);
  }

  lemma Shift8OfXor(a: bv16, b: bv16)
    ensures Shift8(Sum(a, b)) == Sum(Shift8(a), Shift8(b))
  {
    hide Shift, Sum;
    var a1, b1 := Shift(a), Shift(b);
    ShiftOfXor(a, b);
    var a2, b2 := Shift(a1), Shift(b1);
    ShiftOfXor(a1, b1);
    var a3, b3 := Shift(a2), Shift(b2);
    ShiftOfXor(a2, b2);
    var a4, b4 := Shift(a3), Shift(b3);
    ShiftOfXor(a3, b3);
    var a5, b5 := Shift(a4), Shift(b4);
    ShiftOfXor(a4, b4);
    var a6, b6 := Shift(a5), Shift(b5);
    ShiftOfXor(a5, b5);
    var a7, b7 := Shift(a6), Shift(b6);
    ShiftOfXor(a6, b6);
    var a8, b8 := Shift(a7), Shift(b7);
    ShiftOfXor(a7, b7);
  }

  lemma ShiftR8OfXor(a: bv16, b: bv16)
    ensures ShiftR8(Sum(a, b)) == Sum(ShiftR8(a), ShiftR8(b))
  {
    hide ShiftR, Sum;
    var a1, b1 := ShiftR(a), ShiftR(b);
    ShiftROfXor(a, b);
    var a2, b2 := ShiftR(a1), ShiftR(b1);
    ShiftROfXor(a1, b1);
    var a3, b3 := ShiftR(a2), ShiftR(b2);
    ShiftROfXor(a2, b2);
    var a4, b4 := ShiftR(a3), ShiftR(b3);
    ShiftROfXor(a3, b3);
    var a5, b5 := ShiftR(a4), ShiftR(b4);
    ShiftROfXor(a4, b4);
    var a6, b6 := ShiftR(a5), ShiftR(b5);
    ShiftROfXor(a5, b5);
    var a7, b7 := ShiftR(a6), ShiftR(b6);
    ShiftROfXor(a6, b6);
    var a8, b8 := ShiftR(a7), ShiftR(b7);
    ShiftROfXor(a7, b7);
  }

  // ---------------------------------------------------------------- bit reversal

  function Reverse16(x: bv16): bv16 {
    var a := ((x & 0x5555) << 1) | ((x >> 1) & 0x5555);
    var b := ((a & 0x3333) << 2) | ((a >> 2) & 0x3333);
    var c := ((b & 0x0F0F) << 4) | ((b >> 4) & 0x0F0F);
    (c << 8) | (c >> 8)
  }

  lemma ReverseOfXor(a: bv16, b: bv16)
    ensures Reverse16(Sum(a, b)) == Sum(Reverse16(a), Reverse16(b))
  {
  }

  lemma ReverseOfNot(a: bv16)
    ensures Reverse16(!a) == Reverse16(a) ^ 0xFFFF && Reverse16(0xFFFF) == 0xFFFF
  {
  }

  lemma ReverseOfShift(a: bv16)
    ensures Reverse16(a >> 1) == Reverse16(a) << 1
  {
  }

  lemma ReverseOfEnds(a: bv16)
    ensures a & 1 == 0 <==> Reverse16(a) & 0x8000 == 0
    ensures Reverse16(0x8408) == 0x1021
  {
  }

  lemma ShiftRBranches(a: bv16)
    ensures ShiftR(a) == if a & 1 == 0 then a >> 1 else Sum(a >> 1, 0x8408)
  {
  }

  lemma ShiftBranches(a: bv16)
    ensures Shift(a) == if a & 0x8000 == 0 then a << 1 else Sum(a << 1, 0x1021)
  {
  }

  lemma MirrorShift(a: bv16)
    ensures Reverse16(ShiftR(a)) == Shift(Reverse16(a))
  {
    hide Reverse16, Sum, Shift, ShiftR;
    ShiftRBranches(a);
    ShiftBranches(Reverse16(a));
    ReverseOfShift(a);
    ReverseOfEnds(a);
    ReverseOfXor(a >> 1, 0x8408);
  }

  lemma MirrorShift8(a: bv16)
    ensures Reverse16(ShiftR8(a)) == Shift8(Reverse16(a))
  {
    hide Shift, ShiftR, Reverse16;
    forall x: bv16 ensures Reverse16(ShiftR(x)) == Shift(Reverse16(x)) { MirrorShift(x); }
  }

  /** While only zeros leave the register, eight shifts are one shift by eight. */
  lemma ShiftR8Drops(a: bv16)
    requires a & 0xFF == 0
    ensures ShiftR8(a) == a >> 8
  {
  }
}

/** The two CRC-16 implementations: MSB-first and bitwise in hub/crypto.py, reflected and driven by
    a table in device/camera/protocol.py. They are mirror images of one linear feedback register. */
module Crc {
  import opened Bytes
  import opened Register

  // ---------------------------------------------------------------- definitions

  function Mix(crc: bv16, b: byte): bv16 {
    Sum(crc, b as bv16 << 8)
  }

  /** Feeding one byte. */
  function Feed(crc: bv16, b: byte): bv16 {
    Shift8(Mix(crc, b))
  }

  /** The register after feeding a message, from the register before. */
  function Run(crc: bv16, data: seq<byte>): bv16
    decreases |data|
  {
    if data == [] then crc else Feed(Run(crc, data[..|data| - 1]), data[|data| - 1])
  }

  /** CRC-16 with initial value and final exclusive-or 0xFFFF. */
  function Crc16(data: seq<byte>): bv16 {
    Run(0xFFFF, data) ^ 0xFFFF
  }

  /** `CRC16_TABLE`, sixteen entries at a time. */
  function TableRow(k: nat): (row: seq<bv16>)
    requires k < 16
    ensures |row| == 16
  {
    match k
    case 0 =>
      [0x0000, 0x1189, 0x2312, 0x329B, 0x4624, 0x57AD, 0x6536, 0x74BF,
       0x8C48, 0x9DC1, 0xAF5A, 0xBED3, 0xCA6C, 0xDBE5, 0xE97E, 0xF8F7]
    case 1 =>
      [0x1081, 0x0108, 0x3393, 0x221A, 0x56A5, 0x472C, 0x75B7, 0x643E,
       0x9CC9, 0x8D40, 0xBFDB, 0xAE52, 0xDAED, 0xCB64, 0xF9FF, 0xE876]
    case 2 =>
      [0x2102, 0x308B, 0x0210, 0x1399, 0x6726, 0x76AF, 0x4434, 0x55BD,
       0xAD4A, 0xBCC3, 0x8E58, 0x9FD1, 0xEB6E, 0xFAE7, 0xC87C, 0xD9F5]
    case 3 =>
      [0x3183, 0x200A, 0x1291, 0x0318, 0x77A7, 0x662E, 0x54B5, 0x453C,
       0xBDCB, 0xAC42, 0x9ED9, 0x8F50, 0xFBEF, 0xEA66, 0xD8FD, 0xC974]
    case 4 =>
      [0x4204, 0x538D, 0x6116, 0x709F, 0x0420, 0x15A9, 0x2732, 0x36BB,
       0xCE4C, 0xDFC5, 0xED5E, 0xFCD7, 0x8868, 0x99E1, 0xAB7A, 0xBAF3]
    case 5 =>
      [0x5285, 0x430C, 0x7197, 0x601E, 0x14A1, 0x0528, 0x37B3, 0x263A,
       0xDECD, 0xCF44, 0xFDDF, 0xEC56, 0x98E9, 0x8960, 0xBBFB, 0xAA72]
    case 6 =>
      [0x6306, 0x728F, 0x4014, 0x519D, 0x2522, 0x34AB, 0x0630, 0x17B9,
       0xEF4E, 0xFEC7, 0xCC5C, 0xDDD5, 0xA96A, 0xB8E3, 0x8A78, 0x9BF1]
    case 7 =>
      [0x7387, 0x620E, 0x5095, 0x411C, 0x35A3, 0x242A, 0x16B1, 0x0738,
       0xFFCF, 0xEE46, 0xDCDD, 0xCD54, 0xB9EB, 0xA862, 0x9AF9, 0x8B70]
    case 8 =>
      [0x8408, 0x9581, 0xA71A, 0xB693, 0xC22C, 0xD3A5, 0xE13E, 0xF0B7,
       0x0840, 0x19C9, 0x2B52, 0x3ADB, 0x4E64, 0x5FED, 0x6D76, 0x7CFF]
    case 9 =>
      [0x9489, 0x8500, 0xB79B, 0xA612, 0xD2AD, 0xC324, 0xF1BF, 0xE036,
       0x18C1, 0x0948, 0x3BD3, 0x2A5A, 0x5EE5, 0x4F6C, 0x7DF7, 0x6C7E]
    case 10 =>
      [0xA50A, 0xB483, 0x8618, 0x9791, 0xE32E, 0xF2A7, 0xC03C, 0xD1B5,
       0x2942, 0x38CB, 0x0A50, 0x1BD9, 0x6F66, 0x7EEF, 0x4C74, 0x5DFD]
    case 11 =>
      [0xB58B, 0xA402, 0x9699, 0x8710, 0xF3AF, 0xE226, 0xD0BD, 0xC134,
       0x39C3, 0x284A, 0x1AD1, 0x0B58, 0x7FE7, 0x6E6E, 0x5CF5, 0x4D7C]
    case 12 =>
      [0xC60C, 0xD785, 0xE51E, 0xF497, 0x8028, 0x91A1, 0xA33A, 0xB2B3,
       0x4A44, 0x5BCD, 0x6956, 0x78DF, 0x0C60, 0x1DE9, 0x2F72, 0x3EFB]
    case 13 =>
      [0xD68D, 0xC704, 0xF59F, 0xE416, 0x90A9, 0x8120, 0xB3BB, 0xA232,
       0x5AC5, 0x4B4C, 0x79D7, 0x685E, 0x1CE1, 0x0D68, 0x3FF3, 0x2E7A]
    case 14 =>
      [0xE70E, 0xF687, 0xC41C, 0xD595, 0xA12A, 0xB0A3, 0x8238, 0x93B1,
       0x6B46, 0x7ACF, 0x4854, 0x59DD, 0x2D62, 0x3CEB, 0x0E70, 0x1FF9]
    case 15 =>
      [0xF78F, 0xE606, 0xD49D, 0xC514, 0xB1AB, 0xA022, 0x92B9, 0x8330,
       0x7BC7, 0x6A4E, 0x58D5, 0x495C, 0x3DE3, 0x2C6A, 0x1EF1, 0x0F78]
  }

  function TableRows(n: nat): (rows: seq<bv16>)
    requires n <= 16
    ensures |rows| == 16 * n
  {
    if n == 0 then [] else TableRows(n - 1) + TableRow(n - 1)
  }

  function Entry(i: byte): bv16 {
    TableRows(16)[i as nat]
  }

  function MixR(crc: bv16, b: byte): bv16 {
    Sum(crc, b as bv16)
  }

  function FeedTable(crc: bv16, b: byte): bv16 {
    Sum(Entry((crc & 0xFF) as byte ^ b), crc >> 8)
  }

  function RunTable(crc: bv16, data: seq<byte>): bv16
    decreases |data|
  {
    if data == [] then crc else FeedTable(RunTable(crc, data[..|data| - 1]), data[|data| - 1])
  }

  function Kermit(data: seq<byte>): bv16 {
    !RunTable(0xFFFF, data)
  }

  // ---------------------------------------------------------------- the table

  lemma {:induction false} RowsAt(n: nat, i: nat)
    requires n <= 16 && i < 16 * n
    ensures TableRows(n)[i] == TableRow(i / 16)[i % 16]
    decreases n
  {
    hide TableRow;
    if i < 16 * (n - 1) {
      RowsAt(n - 1, i);
    }
  }

  /** A row is its first entry combined with the entries of the first row. */
  predicate IsRow(row: seq<bv16>, base: bv16)
    requires |row| == 16
  {
    forall j: nat | j < 16 :: row[j] == Sum(base, TableRow(0)[j])
  }

  lemma Row0()
    ensures IsRow(TableRow(0), 0x0000) && ShiftR8(0x00) == 0x0000
  {
  }

  lemma Row1()
    ensures IsRow(TableRow(1), 0x1081) && ShiftR8(0x10) == 0x1081
  {
  }

  lemma Row2()
    ensures IsRow(TableRow(2), 0x2102) && ShiftR8(0x20) == 0x2102
  {
  }

  lemma Row3()
    ensures IsRow(TableRow(3), 0x3183) && ShiftR8(0x30) == 0x3183
  {
  }

  lemma Row4()
    ensures IsRow(TableRow(4), 0x4204) && ShiftR8(0x40) == 0x4204
  {
  }

  lemma Row5()
    ensures IsRow(TableRow(5), 0x5285) && ShiftR8(0x50) == 0x5285
  {
  }

  lemma Row6()
    ensures IsRow(TableRow(6), 0x6306) && ShiftR8(0x60) == 0x6306
  {
  }

  lemma Row7()
    ensures IsRow(TableRow(7), 0x7387) && ShiftR8(0x70) == 0x7387
  {
  }

  lemma Row8()
    ensures IsRow(TableRow(8), 0x8408) && ShiftR8(0x80) == 0x8408
  {
  }

  lemma Row9()
    ensures IsRow(TableRow(9), 0x9489) && ShiftR8(0x90) == 0x9489
  {
  }

  lemma RowA()
    ensures IsRow(TableRow(10), 0xA50A) && ShiftR8(0xA0) == 0xA50A
  {
  }

  lemma RowB()
    ensures IsRow(TableRow(11), 0xB58B) && ShiftR8(0xB0) == 0xB58B
  {
  }

  lemma RowC()
    ensures IsRow(TableRow(12), 0xC60C) && ShiftR8(0xC0) == 0xC60C
  {
  }

  lemma RowD()
    ensures IsRow(TableRow(13), 0xD68D) && ShiftR8(0xD0) == 0xD68D
  {
  }

  lemma RowE()
    ensures IsRow(TableRow(14), 0xE70E) && ShiftR8(0xE0) == 0xE70E
  {
  }

  lemma RowF()
    ensures IsRow(TableRow(15), 0xF78F) && ShiftR8(0xF0) == 0xF78F
  {
  }

  lemma RowIsShifts(i: byte)
    ensures IsRow(TableRow(i as nat / 16), ShiftR8((i & 0xF0) as bv16))
  {
    hide TableRow, IsRow, ShiftR8;
    match i & 0xF0
    case 0x00 => Row0();
    case 0x10 => Row1();
    case 0x20 => Row2();
    case 0x30 => Row3();
    case 0x40 => Row4();
    case 0x50 => Row5();
    case 0x60 => Row6();
    case 0x70 => Row7();
    case 0x80 => Row8();
    case 0x90 => Row9();
    case 0xA0 => RowA();
    case 0xB0 => RowB();
    case 0xC0 => RowC();
    case 0xD0 => RowD();
    case 0xE0 => RowE();
    case 0xF0 => RowF();
  }

  /** The first row is eight shifts of each nibble. */
  lemma FirstRow(i: byte)
    requires i < 16
    ensures TableRow(0)[i as nat] == ShiftR8(i as bv16)
  {
    if {
      case i == 0 =>
      case i == 1 =>
      case i == 2 =>
      case i == 3 =>
      case i == 4 =>
      case i == 5 =>
      case i == 6 =>
      case i == 7 =>
      case i == 8 =>
      case i == 9 =>
      case i == 10 =>
      case i == 11 =>
      case i == 12 =>
      case i == 13 =>
      case i == 14 =>
      case i == 15 =>
    }
  }

  lemma NibbleSplit(i: byte)
    ensures i as nat % 16 == (i & 0xF) as nat
    ensures Sum((i & 0xF0) as bv16, (i & 0xF) as bv16) == i as bv16
  {
  }

  lemma RowEntry(row: seq<bv16>, base: bv16, j: nat)
    requires |row| == 16 && IsRow(row, base) && j < 16
    ensures row[j] == Sum(base, TableRow(0)[j])
  {
  }

  /** Each entry of the table is eight shifts of its index. */
  lemma TableIsShifts(i: byte)
    ensures Entry(i) == ShiftR8(i as bv16)
  {
    hide TableRow, TableRows, ShiftR8, IsRow, Sum;
    var low, high := i & 0xF, i & 0xF0;
    NibbleSplit(i);
    RowsAt(16, i as nat);
    RowIsShifts(i);
    RowEntry(TableRow(i as nat / 16), ShiftR8(high as bv16), low as nat);
    FirstRow(low);
    ShiftR8OfXor(high as bv16, low as bv16);
  }

  // ---------------------------------------------------------------- mirror image

  function Reverse8(x: byte): byte {
    var a := ((x & 0x55) << 1) | ((x >> 1) & 0x55);
    var b := ((a & 0x33) << 2) | ((a >> 2) & 0x33);
    (b << 4) | (b >> 4)
  }

  function ReverseEach(data: seq<byte>): (r: seq<byte>)
    ensures |r| == |data|
  {
    seq(|data|, i requires 0 <= i < |data| => Reverse8(data[i]))
  }

  /** A table step is eight shifts of the whole register. */
  lemma TableStep(crc: bv16, b: byte)
    ensures FeedTable(crc, b) == ShiftR8(MixR(crc, b))
  {
    hide ShiftR8, Entry, MixR, Sum;
    var i, high := (crc & 0xFF) as byte ^ b, crc & 0xFF00;
    TableIsShifts(i);
    SplitRegister(crc, b);
    ShiftR8Drops(high);
    ShiftR8OfXor(i as bv16, high);
  }

  lemma SplitRegister(crc: bv16, b: byte)
    ensures Sum(((crc & 0xFF) as byte ^ b) as bv16, crc & 0xFF00) == MixR(crc, b)
    ensures (crc & 0xFF00) & 0xFF == 0 && (crc & 0xFF00) >> 8 == crc >> 8
  {
  }

  lemma ReverseOfMix(crc: bv16, b: byte)
    ensures Reverse16(MixR(crc, b)) == Mix(Reverse16(crc), Reverse8(b))
  {
  }

  lemma MirrorFeed(crc: bv16, b: byte)
    ensures Reverse16(FeedTable(crc, b)) == Feed(Reverse16(crc), Reverse8(b))
  {
    hide Reverse16, Reverse8, FeedTable, Shift8, ShiftR8, Mix, MixR;
    TableStep(crc, b);
    MirrorShift8(MixR(crc, b));
    ReverseOfMix(crc, b);
  }

  lemma {:induction false} MirrorRun(crc: bv16, data: seq<byte>)
    ensures Reverse16(RunTable(crc, data)) == Run(Reverse16(crc), ReverseEach(data))
    decreases |data|
  {
    hide Reverse16, Reverse8, FeedTable, Feed;
    if data != [] {
      var d, b := data[..|data| - 1], data[|data| - 1];
      MirrorRun(crc, d);
      assert ReverseEach(data)[..|data| - 1] == ReverseEach(d);
      MirrorFeed(RunTable(crc, d), b);
    }
  }

  /** The table-driven checksum of a message, bit-reversed, is the bitwise checksum of the message
      with each byte bit-reversed. */
  lemma ChecksumsMirror(data: seq<byte>)
    ensures Reverse16(Kermit(data)) == Crc16(ReverseEach(data))
  {
    hide Reverse16, Run, RunTable;
    MirrorRun(0xFFFF, data);
    ReverseOfNot(RunTable(0xFFFF, data));
  }

  // ---------------------------------------------------------------- the loops of the source

  function Shifts(crc: bv16, n: nat): bv16
    decreases n
  {
    if n == 0 then crc else Shifts(Shift(crc), n - 1)
  }

  lemma ShiftsEight(crc: bv16)
    ensures Shifts(crc, 8) == Shift8(crc)
  {
  }

  lemma RunStep(c: bv16, data: seq<byte>, i: nat)
    requires i < |data|
    ensures Run(c, data[..i + 1]) == Shift8(Mix(Run(c, data[..i]), data[i]))
    ensures RunTable(c, data[..i + 1]) == FeedTable(RunTable(c, data[..i]), data[i])
  {
    hide Shift8, Mix, FeedTable;
    assert data[..i + 1][..i] == data[..i];
  }

  lemma RunStart(data: seq<byte>)
    ensures Run(0xFFFF, data[..0]) == 0xFFFF == RunTable(0xFFFF, data[..0]) && data[..|data|] == data
  {
  }

  /** `crc16_ccitt`. */
  method Crc16Ccitt(data: seq<byte>) returns (r: bv16)
    ensures r == Crc16(data)
  {
    hide Run, Shift8, Mix, Shift, Sum, Feed, RunTable, FeedTable;
    var crc: bv16 := 0xFFFF;
    RunStart(data);
    var i := 0;
    while i < |data|
      invariant 0 <= i <= |data| && crc == Run(0xFFFF, data[..i])
    {
      RunStep(0xFFFF, data, i);
      crc := Mix(crc, data[i]);
      ShiftsEight(crc);
      ghost var mixed := crc;
      var bit := 0;
      while bit < 8
        invariant 0 <= bit <= 8 && Shifts(crc, 8 - bit) == Shift8(mixed)
      {
        crc := Shift(crc);
        bit := bit + 1;
      }
      i := i + 1;
    }
    r := crc ^ 0xFFFF;
  }

  /** `crc16_kermit`. */
  method Crc16Kermit(data: seq<byte>) returns (r: bv16)
    ensures r == Kermit(data)
  {
    hide RunTable, FeedTable;
    var crc: bv16 := 0xFFFF;
    RunStart(data);
    var i := 0;
    while i < |data|
      invariant 0 <= i <= |data| && crc == RunTable(0xFFFF, data[..i])
    {
      RunStep(0xFFFF, data, i);
      crc := FeedTable(crc, data[i]);
      i := i + 1;
    }
    r := !crc;
  }

  // ---------------------------------------------------------------- known checksums

  lemma {:induction false} RunAppend(crc: bv16, data: seq<byte>, b: byte)
    ensures Run(crc, data + [b]) == Feed(Run(crc, data), b)
    ensures RunTable(crc, data + [b]) == FeedTable(RunTable(crc, data), b)
  {
    assert (data + [b])[..|data|] == data;
  }

  lemma DigitsShifted()
    ensures Feed(0xFFFF, 0x31) == 0xC782 && Feed(0xC782, 0x32) == 0x3DBA && Feed(0x3DBA, 0x33) == 0x5BCE
    ensures Feed(0x5BCE, 0x34) == 0x5349 && Feed(0x5349, 0x35) == 0x4560 && Feed(0x4560, 0x36) == 0x2EF4
    ensures Feed(0x2EF4, 0x37) == 0x7718 && Feed(0x7718, 0x38) == 0xA12B && Feed(0xA12B, 0x39) == 0x29B1
    ensures Feed(0xFFFF, 0x00) == 0xE1F0
  {
  }

  lemma DigitsReflected()
    ensures ShiftR8(MixR(0xFFFF, 0x31)) == 0x2F8D && ShiftR8(MixR(0x2F8D, 0x32)) == 0x4D53
    ensures ShiftR8(MixR(0x4D53, 0x33)) == 0x634B && ShiftR8(MixR(0x634B, 0x34)) == 0x8B13
    ensures ShiftR8(MixR(0x8B13, 0x35)) == 0x44BF && ShiftR8(MixR(0x44BF, 0x36)) == 0x198D
    ensures ShiftR8(MixR(0x198D, 0x37)) == 0x1AC8 && ShiftR8(MixR(0x1AC8, 0x38)) == 0xF795
    ensures ShiftR8(MixR(0xF795, 0x39)) == 0x6F91 && ShiftR8(MixR(0xFFFF, 0x00)) == 0x0F87
  {
  }

  const DIGITS: seq<byte> := [0x31, 0x32, 0x33, 0x34, 0x35, 0x36, 0x37, 0x38, 0x39]

  lemma {:induction false} DigitsRun(n: nat, c: seq<bv16>, d: seq<bv16>)
    requires n <= 9 && |c| == |d| == 10 && c[0] == d[0] == 0xFFFF
    requires forall k: nat | k < n :: c[k + 1] == Feed(c[k], DIGITS[k]) && d[k + 1] == FeedTable(d[k], DIGITS[k])
    ensures Run(0xFFFF, DIGITS[..n]) == c[n] && RunTable(0xFFFF, DIGITS[..n]) == d[n]
  {
    hide Feed, FeedTable;
    if n > 0 {
      DigitsRun(n - 1, c, d);
      RunAppend(0xFFFF, DIGITS[..n - 1], DIGITS[n - 1]);
      assert DIGITS[..n] == DIGITS[..n - 1] + [DIGITS[n - 1]];
    }
  }

  /** The published check values: of nothing, of one zero byte, and of the digits 1 to 9. */
  lemma CheckValues()
    ensures Crc16([]) == 0 && Crc16([0x00]) == 0x1E0F && Crc16(DIGITS) == 0xD64E
    ensures Kermit([]) == 0 && Kermit([0x00]) == 0xF078 && Kermit(DIGITS) == 0x906E
  {
    hide Feed, FeedTable, ShiftR8, MixR;
    DigitsShifted();
    DigitsReflected();
    RunAppend(0xFFFF, [], 0x00);
    TableStep(0xFFFF, 0x00);
    var c: seq<bv16> := [0xFFFF, 0xC782, 0x3DBA, 0x5BCE, 0x5349, 0x4560, 0x2EF4, 0x7718, 0xA12B, 0x29B1];
    var d: seq<bv16> := [0xFFFF, 0x2F8D, 0x4D53, 0x634B, 0x8B13, 0x44BF, 0x198D, 0x1AC8, 0xF795, 0x6F91];
    forall k: nat | k < 9 ensures c[k + 1] == Feed(c[k], DIGITS[k]) && d[k + 1] == FeedTable(d[k], DIGITS[k]) {
      TableStep(d[k], DIGITS[k]);
    }
    DigitsRun(9, c, d);
    assert DIGITS[..9] == DIGITS;
  }

  // ---------------------------------------------------------------- what the checksum detects

  function XorBytes(a: seq<byte>, b: seq<byte>): (d: seq<byte>)
    requires |a| == |b|
    ensures |d| == |a|
  {
    seq(|a|, i requires 0 <= i < |a| => a[i] ^ b[i])
  }

  lemma SumLaws(a: bv16, b: bv16, c: bv16)
    ensures Sum(a, b) == Sum(b, a) && Sum(Sum(a, b), c) == Sum(a, Sum(b, c))
  {
  }

  lemma SumSwap(a: bv16, b: bv16, c: bv16, d: bv16)
    ensures Sum(Sum(a, b), Sum(c, d)) == Sum(Sum(a, c), Sum(b, d))
  {
    hide Sum;
    SumLaws(a, b, Sum(c, d));
    SumLaws(b, c, d);
    SumLaws(c, b, d);
    SumLaws(a, c, Sum(b, d));
  }

  lemma SumOfBytes(x: byte, y: byte)
    ensures (x ^ y) as bv16 << 8 == Sum(x as bv16 << 8, y as bv16 << 8)
  {
  }

  lemma FeedOfXor(c: bv16, d: bv16, x: byte, y: byte)
    ensures Feed(Sum(c, d), x ^ y) == Sum(Feed(c, x), Feed(d, y))
  {
    hide Shift8, Sum;
    SumOfBytes(x, y);
    SumSwap(c, d, x as bv16 << 8, y as bv16 << 8);
    Shift8OfXor(Mix(c, x), Mix(d, y));
  }

  lemma {:induction false} RunOfXor(c: bv16, d: bv16, a: seq<byte>, b: seq<byte>)
    requires |a| == |b|
    ensures Run(Sum(c, d), XorBytes(a, b)) == Sum(Run(c, a), Run(d, b))
    decreases |a|
  {
    hide Feed, Sum;
    if a != [] {
      var n := |a| - 1;
      RunOfXor(c, d, a[..n], b[..n]);
      assert XorBytes(a, b)[..n] == XorBytes(a[..n], b[..n]);
      FeedOfXor(Run(c, a[..n]), Run(d, b[..n]), a[n], b[n]);
    }
  }

  /** For messages of one length, the difference of the checksums is a function of the difference of
      the messages: the register started at zero. */
  lemma ChecksumDifference(a: seq<byte>, b: seq<byte>)
    requires |a| == |b|
    ensures Crc16(a) ^ Crc16(b) == Run(0, XorBytes(a, b))
  {
    RunOfXor(0xFFFF, 0xFFFF, a, b);
    assert Sum(0xFFFF, 0xFFFF) == 0;
  }

  function Linear8(crc: bv16): bv16 {
    Linear(Linear(Linear(Linear(Linear(Linear(Linear(Linear(crc))))))))
  }

  lemma Shift8IsLinear(a: bv16)
    ensures Shift8(a) == Linear8(a)
  {
    hide Shift, Linear;
    forall x: bv16 ensures Shift(x) == Linear(x) { ShiftIsLinear(x); }
  }

  /** A zero byte leaves a zero register zero, and no other. */
  lemma FeedZero(c: bv16)
    ensures Feed(c, 0) == 0 <==> c == 0
  {
  }

  lemma {:induction false} RunZeros(c: bv16, zeros: seq<byte>)
    requires forall i | 0 <= i < |zeros| :: zeros[i] == 0
    ensures Run(c, zeros) == 0 <==> c == 0
    decreases |zeros|
  {
    hide Feed;
    if zeros != [] {
      RunZeros(c, zeros[..|zeros| - 1]);
      FeedZero(Run(c, zeros[..|zeros| - 1]));
    }
  }

  lemma {:induction false} RunSplit(c: bv16, a: seq<byte>, b: seq<byte>)
    ensures Run(c, a + b) == Run(Run(c, a), b)
    decreases |b|
  {
    hide Feed;
    if b == [] {
      assert a + b == a;
    } else {
      var n := |b| - 1;
      assert (a + b)[..|a + b| - 1] == a + b[..n];
      RunSplit(c, a, b[..n]);
    }
  }

  /** Bit t of a byte, counted from the most significant. */
  function Top(b: byte, t: nat): bool
    requires t < 8
  {
    match t
    case 0 => b & 0x80 != 0
    case 1 => b & 0x40 != 0
    case 2 => b & 0x20 != 0
    case 3 => b & 0x10 != 0
    case 4 => b & 0x08 != 0
    case 5 => b & 0x04 != 0
    case 6 => b & 0x02 != 0
    case 7 => b & 0x01 != 0
  }

  function BitAt(data: seq<byte>, p: nat): bool
    requires p < 8 * |data|
  {
    Top(data[p / 8], p % 8)
  }

  /** The top s bits of a byte. */
  function HighMask(s: nat): byte
    requires s < 8
  {
    [0x00, 0x80, 0xC0, 0xE0, 0xF0, 0xF8, 0xFC, 0xFE][s]
  }

  lemma SameTop(x: byte, y: byte, s: nat)
    requires s < 8 && forall t: nat | t < s :: Top(x, t) == Top(y, t)
    ensures (x ^ y) & HighMask(s) == 0
  {
    assert s > 0 ==> Top(x, 0) == Top(y, 0);
    assert s > 1 ==> Top(x, 1) == Top(y, 1);
    assert s > 2 ==> Top(x, 2) == Top(y, 2);
    assert s > 3 ==> Top(x, 3) == Top(y, 3);
    assert s > 4 ==> Top(x, 4) == Top(y, 4);
    assert s > 5 ==> Top(x, 5) == Top(y, 5);
    assert s > 6 ==> Top(x, 6) == Top(y, 6);
  }

  lemma SameRest(x: byte, y: byte, s: nat)
    requires s < 8 && forall t: nat | s <= t < 8 :: Top(x, t) == Top(y, t)
    ensures (x ^ y) & !HighMask(s) == 0
  {
    assert s <= 0 ==> Top(x, 0) == Top(y, 0);
    assert s <= 1 ==> Top(x, 1) == Top(y, 1);
    assert s <= 2 ==> Top(x, 2) == Top(y, 2);
    assert s <= 3 ==> Top(x, 3) == Top(y, 3);
    assert s <= 4 ==> Top(x, 4) == Top(y, 4);
    assert s <= 5 ==> Top(x, 5) == Top(y, 5);
    assert s <= 6 ==> Top(x, 6) == Top(y, 6);
    assert Top(x, 7) == Top(y, 7);
  }

  /** Three bytes through a register that starts at zero. */
  function Linear24(x: byte, y: byte, z: byte): bv16 {
    Linear8(Mix(Linear8(Mix(Linear8(Mix(0, x)), y)), z))
  }

  lemma Feed3IsLinear(x: byte, y: byte, z: byte)
    ensures Feed(Feed(Feed(0, x), y), z) == Linear24(x, y, z)
  {
    hide Shift8, Linear8, Mix;
    Shift8IsLinear(Mix(0, x));
    Shift8IsLinear(Mix(Feed(0, x), y));
    Shift8IsLinear(Mix(Feed(Feed(0, x), y), z));
  }

  /** Sixteen adjacent bits never cancel out of the register. */
  lemma BurstSurvives(x: byte, y: byte, z: byte, s: nat)
    requires s < 8 && x & HighMask(s) == 0 && z & !HighMask(s) == 0
    requires Feed(Feed(Feed(0, x), y), z) == 0
    ensures x == 0 && y == 0 && z == 0
  {
    hide Feed;
    Feed3IsLinear(x, y, z);
    match s
    case 0 => Burst(x, y, z, 0x00);
    case 1 => Burst(x, y, z, 0x80);
    case 2 => Burst(x, y, z, 0xC0);
    case 3 => Burst(x, y, z, 0xE0);
    case 4 => Burst(x, y, z, 0xF0);
    case 5 => Burst(x, y, z, 0xF8);
    case 6 => Burst(x, y, z, 0xFC);
    case 7 => Burst(x, y, z, 0xFE);
  }

  lemma Burst(x: byte, y: byte, z: byte, mask: byte)
    requires mask == 0x00 || mask == 0x80 || mask == 0xC0 || mask == 0xE0 || mask == 0xF0
          || mask == 0xF8 || mask == 0xFC || mask == 0xFE
    requires x & mask == 0 && z & !mask == 0 && Linear24(x, y, z) == 0
    ensures x == 0 && y == 0 && z == 0
  {
  }

  /** The bytes from position i on that a burst starting in byte i can touch. */
  function ByteOr0(d: seq<byte>, i: nat): byte {
    if i < |d| then d[i] else 0
  }

  /** Zeros at the end of a message tell nothing about a register that ends at zero. */
  lemma CutZeros(w: seq<byte>)
    requires |w| >= 3 && Run(0, w) == 0 && forall k | 3 <= k < |w| :: w[k] == 0
    ensures Run(0, w[..3]) == 0
  {
    hide Feed, Run;
    var tail := w[3..];
    RunSplit(0, w[..3], tail);
    assert w[..3] + tail == w;
    assert forall j | 0 <= j < |tail| :: tail[j] == w[3 + j];
    RunZeros(Run(0, w[..3]), tail);
  }

  lemma WindowOfRun(d: seq<byte>, i: nat)
    requires i < |d| && Run(0, d) == 0
    requires forall k | 0 <= k < |d| && !(i <= k < i + 3) :: d[k] == 0
    ensures Feed(Feed(Feed(0, ByteOr0(d, i)), ByteOr0(d, i + 1)), ByteOr0(d, i + 2)) == 0
  {
    hide Feed, Run;
    RunSplit(0, d[..i], d[i..]);
    assert d[..i] + d[i..] == d;
    RunZeros(0, d[..i]);
    var w := d[i..];
    if |w| < 3 {
      var pad := [0, 0, 0][|w|..];
      RunSplit(0, w, pad);
      RunZeros(0, pad);
      RunThree(w + pad);
    } else {
      assert forall k | 3 <= k < |w| :: w[k] == d[i + k];
      CutZeros(w);
      RunThree(w[..3]);
    }
  }

  lemma RunThree(w: seq<byte>)
    requires |w| == 3
    ensures Run(0, w) == Feed(Feed(Feed(0, w[0]), w[1]), w[2])
  {
    hide Feed;
    assert w[..2][..1] == [w[0]] && w[..1][..0] == [];
    assert Run(0, w[..1]) == Feed(0, w[0]);
    assert Run(0, w[..2]) == Feed(Run(0, w[..1]), w[1]);
  }

  lemma SameByte(x: byte, y: byte)
    requires forall t: nat | t < 8 :: Top(x, t) == Top(y, t)
    ensures x ^ y == 0
  {
    SameRest(x, y, 0);
  }

  lemma BitOfByte(a: seq<byte>, k: nat, t: nat)
    requires k < |a| && t < 8
    ensures 8 * k + t < 8 * |a| && BitAt(a, 8 * k + t) == Top(a[k], t)
  {
    assert (8 * k + t) / 8 == k && (8 * k + t) % 8 == t;
  }

  ghost predicate DifferWithin16(a: seq<byte>, b: seq<byte>, p: nat)
    requires |a| == |b|
  {
    forall q: nat | q < 8 * |a| && BitAt(a, q) != BitAt(b, q) :: p <= q < p + 16
  }

  /** Two different messages of one length whose differing bits lie within sixteen adjacent bits
      never have the same checksum. */
  lemma BurstDetected(a: seq<byte>, b: seq<byte>, p: nat)
    requires |a| == |b| && a != b && DifferWithin16(a, b, p)
    ensures Crc16(a) != Crc16(b)
  {
    if Crc16(a) == Crc16(b) {
      UndetectedIsEqual(a, b, p);
    }
  }

  lemma UndetectedIsEqual(a: seq<byte>, b: seq<byte>, p: nat)
    requires |a| == |b| && DifferWithin16(a, b, p) && Crc16(a) == Crc16(b)
    ensures a == b
  {
    hide DifferWithin16, Feed, HighMask;
    var i := p / 8;
    var d := XorBytes(a, b);
    ChecksumDifference(a, b);
    forall k | 0 <= k < |a| && !(i <= k < i + 3) ensures d[k] == 0 {
      OutsideWindow(a, b, p, k);
    }
    if i < |a| {
      BurstEdges(a, b, p);
      WindowOfRun(d, i);
      BurstSurvives(ByteOr0(d, i), ByteOr0(d, i + 1), ByteOr0(d, i + 2), p % 8);
    }
    forall k | 0 <= k < |a| ensures a[k] == b[k] {
      assert d[k] == 0;
    }
  }

  lemma OutsideWindow(a: seq<byte>, b: seq<byte>, p: nat, k: nat)
    requires |a| == |b| && DifferWithin16(a, b, p) && k < |a| && !(p / 8 <= k < p / 8 + 3)
    ensures a[k] ^ b[k] == 0
  {
    hide Top, BitAt;
    var x, y := a[k], b[k];
    forall t: nat | t < 8 ensures Top(x, t) == Top(y, t) {
      BitOfByte(a, k, t);
      BitOfByte(b, k, t);
    }
    SameByte(x, y);
  }

  lemma BurstEdges(a: seq<byte>, b: seq<byte>, p: nat)
    requires |a| == |b| && p / 8 < |a| && DifferWithin16(a, b, p)
    ensures var d := XorBytes(a, b);
            && ByteOr0(d, p / 8) & HighMask(p % 8) == 0
            && ByteOr0(d, p / 8 + 2) & !HighMask(p % 8) == 0
  {
    hide Top, BitAt, HighMask;
    var i, s := p / 8, p % 8;
    var x, y := a[i], b[i];
    forall t: nat | t < s ensures Top(x, t) == Top(y, t) {
      BitOfByte(a, i, t);
      BitOfByte(b, i, t);
    }
    SameTop(x, y, s);
    if i + 2 < |a| {
      var x2, y2 := a[i + 2], b[i + 2];
      forall t: nat | s <= t < 8 ensures Top(x2, t) == Top(y2, t) {
        BitOfByte(a, i + 2, t);
        BitOfByte(b, i + 2, t);
      }
      SameRest(x2, y2, s);
    }
  }
}
