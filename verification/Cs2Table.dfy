/** The table of ptz/cs2.py, and the proof that it lists every byte value once. */
module Cs2Table {
  /** `TABLE`, sixteen entries at a time. */
  function TableRow(k: nat): (row: seq<nat>)
    requires k < 16
    ensures |row| == 16
  {
    match k
    case 0 =>
      [0x7C, 0x9C, 0xE8, 0x4A, 0x13, 0xDE, 0xDC, 0xB2,
       0x2F, 0x21, 0x23, 0xE4, 0x30, 0x7B, 0x3D, 0x8C]
    case 1 =>
      [0xBC, 0x0B, 0x27, 0x0C, 0x3C, 0xF7, 0x9A, 0xE7,
       0x08, 0x71, 0x96, 0x00, 0x97, 0x85, 0xEF, 0xC1]
    case 2 =>
      [0x1F, 0xC4, 0xDB, 0xA1, 0xC2, 0xEB, 0xD9, 0x01,
       0xFA, 0xBA, 0x3B, 0x05, 0xB8, 0x15, 0x87, 0x83]
    case 3 =>
      [0x28, 0x72, 0xD1, 0x8B, 0x5A, 0xD6, 0xDA, 0x93,
       0x58, 0xFE, 0xAA, 0xCC, 0x6E, 0x1B, 0xF0, 0xA3]
    case 4 =>
      [0x88, 0xAB, 0x43, 0xC0, 0x0D, 0xB5, 0x45, 0x38,
       0x4F, 0x50, 0x22, 0x66, 0x20, 0x7F, 0x07, 0x5B]
    case 5 =>
      [0x14, 0x98, 0x1D, 0x9B, 0xA7, 0x2A, 0xB9, 0xA8,
       0xCB, 0xF1, 0xFC, 0x49, 0x47, 0x06, 0x3E, 0xB1]
    case 6 =>
      [0x0E, 0x04, 0x3A, 0x94, 0x5E, 0xEE, 0x54, 0x11,
       0x34, 0xDD, 0x4D, 0xF9, 0xEC, 0xC7, 0xC9, 0xE3]
    case 7 =>
      [0x78, 0x1A, 0x6F, 0x70, 0x6B, 0xA4, 0xBD, 0xA9,
       0x5D, 0xD5, 0xF8, 0xE5, 0xBB, 0x26, 0xAF, 0x42]
    case 8 =>
      [0x37, 0xD8, 0xE1, 0x02, 0x0A, 0xAE, 0x5F, 0x1C,
       0xC5, 0x73, 0x09, 0x4E, 0x69, 0x24, 0x90, 0x6D]
    case 9 =>
      [0x12, 0xB3, 0x19, 0xAD, 0x74, 0x8A, 0x29, 0x40,
       0xF5, 0x2D, 0xBE, 0xA5, 0x59, 0xE0, 0xF4, 0x79]
    case 10 =>
      [0xD2, 0x4B, 0xCE, 0x89, 0x82, 0x48, 0x84, 0x25,
       0xC6, 0x91, 0x2B, 0xA2, 0xFB, 0x8F, 0xE9, 0xA6]
    case 11 =>
      [0xB0, 0x9E, 0x3F, 0x65, 0xF6, 0x03, 0x31, 0x2E,
       0xAC, 0x0F, 0x95, 0x2C, 0x5C, 0xED, 0x39, 0xB7]
    case 12 =>
      [0x33, 0x6C, 0x56, 0x7E, 0xB4, 0xA0, 0xFD, 0x7A,
       0x81, 0x53, 0x51, 0x86, 0x8D, 0x9F, 0x77, 0xFF]
    case 13 =>
      [0x6A, 0x80, 0xDF, 0xE2, 0xBF, 0x10, 0xD7, 0x75,
       0x64, 0x57, 0x76, 0xF3, 0x55, 0xCD, 0xD0, 0xC8]
    case 14 =>
      [0x18, 0xE6, 0x36, 0x41, 0x62, 0xCF, 0x99, 0xF2,
       0x32, 0x4C, 0x67, 0x60, 0x61, 0x92, 0xCA, 0xD3]
    case _ =>
      [0xEA, 0x63, 0x7D, 0x16, 0xB6, 0x8E, 0xD4, 0x68,
       0x35, 0xC3, 0x52, 0x9D, 0x46, 0x44, 0x1E, 0x17]
  }

  /** `TABLE[i]`. */
  function Entry(i: nat): (n: nat)
    requires i < 256
  {
    TableRow(i / 16)[i % 16]
  }

  /** Where the table lists each byte value, sixteen values at a time. */
  function PlaceRow(k: nat): (row: seq<nat>)
    requires k < 16
    ensures |row| == 16
  {
    match k
    case 0 =>
      [0x1B, 0x27, 0x83, 0xB5, 0x61, 0x2B, 0x5D, 0x4E,
       0x18, 0x8A, 0x84, 0x11, 0x13, 0x44, 0x60, 0xB9]
    case 1 =>
      [0xD5, 0x67, 0x90, 0x04, 0x50, 0x2D, 0xF3, 0xFF,
       0xE0, 0x92, 0x71, 0x3D, 0x87, 0x52, 0xFE, 0x20]
    case 2 =>
      [0x4C, 0x09, 0x4A, 0x0A, 0x8D, 0xA7, 0x7D, 0x12,
       0x30, 0x96, 0x55, 0xAA, 0xBB, 0x99, 0xB7, 0x08]
    case 3 =>
      [0x0C, 0xB6, 0xE8, 0xC0, 0x68, 0xF8, 0xE2, 0x80,
       0x47, 0xBE, 0x62, 0x2A, 0x14, 0x0E, 0x5E, 0xB2]
    case 4 =>
      [0x97, 0xE3, 0x7F, 0x42, 0xFD, 0x46, 0xFC, 0x5C,
       0xA5, 0x5B, 0x03, 0xA1, 0xE9, 0x6A, 0x8B, 0x48]
    case 5 =>
      [0x49, 0xCA, 0xFA, 0xC9, 0x66, 0xDC, 0xC2, 0xD9,
       0x38, 0x9C, 0x34, 0x4F, 0xBC, 0x78, 0x64, 0x86]
    case 6 =>
      [0xEB, 0xEC, 0xE4, 0xF1, 0xD8, 0xB3, 0x4B, 0xEA,
       0xF7, 0x8C, 0xD0, 0x74, 0xC1, 0x8F, 0x3C, 0x72]
    case 7 =>
      [0x73, 0x19, 0x31, 0x89, 0x94, 0xD7, 0xDA, 0xCE,
       0x70, 0x9F, 0xC7, 0x0D, 0x00, 0xF2, 0xC3, 0x4D]
    case 8 =>
      [0xD1, 0xC8, 0xA4, 0x2F, 0xA6, 0x1D, 0xCB, 0x2E,
       0x40, 0xA3, 0x95, 0x33, 0x0F, 0xCC, 0xF5, 0xAD]
    case 9 =>
      [0x8E, 0xA9, 0xED, 0x37, 0x63, 0xBA, 0x1A, 0x1C,
       0x51, 0xE6, 0x16, 0x53, 0x01, 0xFB, 0xB1, 0xCD]
    case 10 =>
      [0xC5, 0x23, 0xAB, 0x3F, 0x75, 0x9B, 0xAF, 0x54,
       0x57, 0x77, 0x3A, 0x41, 0xB8, 0x93, 0x85, 0x7E]
    case 11 =>
      [0xB0, 0x5F, 0x07, 0x91, 0xC4, 0x45, 0xF4, 0xBF,
       0x2C, 0x56, 0x29, 0x7C, 0x10, 0x76, 0x9A, 0xD4]
    case 12 =>
      [0x43, 0x1F, 0x24, 0xF9, 0x21, 0x88, 0xA8, 0x6D,
       0xDF, 0x6E, 0xEE, 0x58, 0x3B, 0xDD, 0xA2, 0xE5]
    case 13 =>
      [0xDE, 0x32, 0xA0, 0xEF, 0xF6, 0x79, 0x35, 0xD6,
       0x81, 0x26, 0x36, 0x22, 0x06, 0x69, 0x05, 0xD2]
    case 14 =>
      [0x9D, 0x82, 0xD3, 0x6F, 0x0B, 0x7B, 0xE1, 0x17,
       0x02, 0xAE, 0xF0, 0x25, 0x6C, 0xBD, 0x65, 0x1E]
    case _ =>
      [0x3E, 0x59, 0xE7, 0xDB, 0x9E, 0x98, 0xB4, 0x15,
       0x7A, 0x6B, 0x28, 0xAC, 0x5A, 0xC6, 0x39, 0xCF]
  }

  predicate At(n: nat, i: nat) {
    n < 256 && PlaceRow(n / 16)[n % 16] == i
  }

  predicate AllAt(row: seq<nat>, i: nat)
    requires |row| == 16
  {
    && At(row[0], i) && At(row[1], i + 1) && At(row[2], i + 2) && At(row[3], i + 3)
    && At(row[4], i + 4) && At(row[5], i + 5) && At(row[6], i + 6) && At(row[7], i + 7)
    && At(row[8], i + 8) && At(row[9], i + 9) && At(row[10], i + 10) && At(row[11], i + 11)
    && At(row[12], i + 12) && At(row[13], i + 13) && At(row[14], i + 14) && At(row[15], i + 15)
  }

  lemma Places0()
    ensures At(0x7C, 0) && At(0x9C, 1) && At(0xE8, 2) && At(0x4A, 3)
         && At(0x13, 4) && At(0xDE, 5) && At(0xDC, 6) && At(0xB2, 7)
    ensures At(0x2F, 8) && At(0x21, 9) && At(0x23, 10) && At(0xE4, 11)
         && At(0x30, 12) && At(0x7B, 13) && At(0x3D, 14) && At(0x8C, 15)
  {
  }

  lemma Row0()
    ensures AllAt(TableRow(0), 0)
  {
    hide At;
    Places0();
  }

  lemma Places1()
    ensures At(0xBC, 16) && At(0x0B, 17) && At(0x27, 18) && At(0x0C, 19)
         && At(0x3C, 20) && At(0xF7, 21) && At(0x9A, 22) && At(0xE7, 23)
    ensures At(0x08, 24) && At(0x71, 25) && At(0x96, 26) && At(0x00, 27)
         && At(0x97, 28) && At(0x85, 29) && At(0xEF, 30) && At(0xC1, 31)
  {
  }

  lemma Row1()
    ensures AllAt(TableRow(1), 16)
  {
    hide At;
    Places1();
  }

  lemma Places2()
    ensures At(0x1F, 32) && At(0xC4, 33) && At(0xDB, 34) && At(0xA1, 35)
         && At(0xC2, 36) && At(0xEB, 37) && At(0xD9, 38) && At(0x01, 39)
    ensures At(0xFA, 40) && At(0xBA, 41) && At(0x3B, 42) && At(0x05, 43)
         && At(0xB8, 44) && At(0x15, 45) && At(0x87, 46) && At(0x83, 47)
  {
  }

  lemma Row2()
    ensures AllAt(TableRow(2), 32)
  {
    hide At;
    Places2();
  }

  lemma Places3()
    ensures At(0x28, 48) && At(0x72, 49) && At(0xD1, 50) && At(0x8B, 51)
         && At(0x5A, 52) && At(0xD6, 53) && At(0xDA, 54) && At(0x93, 55)
    ensures At(0x58, 56) && At(0xFE, 57) && At(0xAA, 58) && At(0xCC, 59)
         && At(0x6E, 60) && At(0x1B, 61) && At(0xF0, 62) && At(0xA3, 63)
  {
  }

  lemma Row3()
    ensures AllAt(TableRow(3), 48)
  {
    hide At;
    Places3();
  }

  lemma Places4()
    ensures At(0x88, 64) && At(0xAB, 65) && At(0x43, 66) && At(0xC0, 67)
         && At(0x0D, 68) && At(0xB5, 69) && At(0x45, 70) && At(0x38, 71)
    ensures At(0x4F, 72) && At(0x50, 73) && At(0x22, 74) && At(0x66, 75)
         && At(0x20, 76) && At(0x7F, 77) && At(0x07, 78) && At(0x5B, 79)
  {
  }

  lemma Row4()
    ensures AllAt(TableRow(4), 64)
  {
    hide At;
    Places4();
  }

  lemma Places5()
    ensures At(0x14, 80) && At(0x98, 81) && At(0x1D, 82) && At(0x9B, 83)
         && At(0xA7, 84) && At(0x2A, 85) && At(0xB9, 86) && At(0xA8, 87)
    ensures At(0xCB, 88) && At(0xF1, 89) && At(0xFC, 90) && At(0x49, 91)
         && At(0x47, 92) && At(0x06, 93) && At(0x3E, 94) && At(0xB1, 95)
  {
  }

  lemma Row5()
    ensures AllAt(TableRow(5), 80)
  {
    hide At;
    Places5();
  }

  lemma Places6()
    ensures At(0x0E, 96) && At(0x04, 97) && At(0x3A, 98) && At(0x94, 99)
         && At(0x5E, 100) && At(0xEE, 101) && At(0x54, 102) && At(0x11, 103)
    ensures At(0x34, 104) && At(0xDD, 105) && At(0x4D, 106) && At(0xF9, 107)
         && At(0xEC, 108) && At(0xC7, 109) && At(0xC9, 110) && At(0xE3, 111)
  {
  }

  lemma Row6()
    ensures AllAt(TableRow(6), 96)
  {
    hide At;
    Places6();
  }

  lemma Places7()
    ensures At(0x78, 112) && At(0x1A, 113) && At(0x6F, 114) && At(0x70, 115)
         && At(0x6B, 116) && At(0xA4, 117) && At(0xBD, 118) && At(0xA9, 119)
    ensures At(0x5D, 120) && At(0xD5, 121) && At(0xF8, 122) && At(0xE5, 123)
         && At(0xBB, 124) && At(0x26, 125) && At(0xAF, 126) && At(0x42, 127)
  {
  }

  lemma Row7()
    ensures AllAt(TableRow(7), 112)
  {
    hide At;
    Places7();
  }

  lemma Places8()
    ensures At(0x37, 128) && At(0xD8, 129) && At(0xE1, 130) && At(0x02, 131)
         && At(0x0A, 132) && At(0xAE, 133) && At(0x5F, 134) && At(0x1C, 135)
    ensures At(0xC5, 136) && At(0x73, 137) && At(0x09, 138) && At(0x4E, 139)
         && At(0x69, 140) && At(0x24, 141) && At(0x90, 142) && At(0x6D, 143)
  {
  }

  lemma Row8()
    ensures AllAt(TableRow(8), 128)
  {
    hide At;
    Places8();
  }

  lemma Places9()
    ensures At(0x12, 144) && At(0xB3, 145) && At(0x19, 146) && At(0xAD, 147)
         && At(0x74, 148) && At(0x8A, 149) && At(0x29, 150) && At(0x40, 151)
    ensures At(0xF5, 152) && At(0x2D, 153) && At(0xBE, 154) && At(0xA5, 155)
         && At(0x59, 156) && At(0xE0, 157) && At(0xF4, 158) && At(0x79, 159)
  {
  }

  lemma Row9()
    ensures AllAt(TableRow(9), 144)
  {
    hide At;
    Places9();
  }

  lemma PlacesA()
    ensures At(0xD2, 160) && At(0x4B, 161) && At(0xCE, 162) && At(0x89, 163)
         && At(0x82, 164) && At(0x48, 165) && At(0x84, 166) && At(0x25, 167)
    ensures At(0xC6, 168) && At(0x91, 169) && At(0x2B, 170) && At(0xA2, 171)
         && At(0xFB, 172) && At(0x8F, 173) && At(0xE9, 174) && At(0xA6, 175)
  {
  }

  lemma RowA()
    ensures AllAt(TableRow(10), 160)
  {
    hide At;
    PlacesA();
  }

  lemma PlacesB()
    ensures At(0xB0, 176) && At(0x9E, 177) && At(0x3F, 178) && At(0x65, 179)
         && At(0xF6, 180) && At(0x03, 181) && At(0x31, 182) && At(0x2E, 183)
    ensures At(0xAC, 184) && At(0x0F, 185) && At(0x95, 186) && At(0x2C, 187)
         && At(0x5C, 188) && At(0xED, 189) && At(0x39, 190) && At(0xB7, 191)
  {
  }

  lemma RowB()
    ensures AllAt(TableRow(11), 176)
  {
    hide At;
    PlacesB();
  }

  lemma PlacesC()
    ensures At(0x33, 192) && At(0x6C, 193) && At(0x56, 194) && At(0x7E, 195)
         && At(0xB4, 196) && At(0xA0, 197) && At(0xFD, 198) && At(0x7A, 199)
    ensures At(0x81, 200) && At(0x53, 201) && At(0x51, 202) && At(0x86, 203)
         && At(0x8D, 204) && At(0x9F, 205) && At(0x77, 206) && At(0xFF, 207)
  {
  }

  lemma RowC()
    ensures AllAt(TableRow(12), 192)
  {
    hide At;
    PlacesC();
  }

  lemma PlacesD()
    ensures At(0x6A, 208) && At(0x80, 209) && At(0xDF, 210) && At(0xE2, 211)
         && At(0xBF, 212) && At(0x10, 213) && At(0xD7, 214) && At(0x75, 215)
    ensures At(0x64, 216) && At(0x57, 217) && At(0x76, 218) && At(0xF3, 219)
         && At(0x55, 220) && At(0xCD, 221) && At(0xD0, 222) && At(0xC8, 223)
  {
  }

  lemma RowD()
    ensures AllAt(TableRow(13), 208)
  {
    hide At;
    PlacesD();
  }

  lemma PlacesE()
    ensures At(0x18, 224) && At(0xE6, 225) && At(0x36, 226) && At(0x41, 227)
         && At(0x62, 228) && At(0xCF, 229) && At(0x99, 230) && At(0xF2, 231)
    ensures At(0x32, 232) && At(0x4C, 233) && At(0x67, 234) && At(0x60, 235)
         && At(0x61, 236) && At(0x92, 237) && At(0xCA, 238) && At(0xD3, 239)
  {
  }

  lemma RowE()
    ensures AllAt(TableRow(14), 224)
  {
    hide At;
    PlacesE();
  }

  lemma PlacesF()
    ensures At(0xEA, 240) && At(0x63, 241) && At(0x7D, 242) && At(0x16, 243)
         && At(0xB6, 244) && At(0x8E, 245) && At(0xD4, 246) && At(0x68, 247)
    ensures At(0x35, 248) && At(0xC3, 249) && At(0x52, 250) && At(0x9D, 251)
         && At(0x46, 252) && At(0x44, 253) && At(0x1E, 254) && At(0x17, 255)
  {
  }

  lemma RowF()
    ensures AllAt(TableRow(15), 240)
  {
    hide At;
    PlacesF();
  }

  lemma Placed(row: seq<nat>, i: nat, j: nat)
    requires |row| == 16 && AllAt(row, i) && j < 16
    ensures At(row[j], i + j)
  {
    hide At;
  }

  lemma EntryPlaced(i: nat)
    requires i < 256
    ensures At(Entry(i), i)
  {
    hide At, AllAt, TableRow;
    var k := i / 16;
    if {
      case k == 0 => Row0();
      case k == 1 => Row1();
      case k == 2 => Row2();
      case k == 3 => Row3();
      case k == 4 => Row4();
      case k == 5 => Row5();
      case k == 6 => Row6();
      case k == 7 => Row7();
      case k == 8 => Row8();
      case k == 9 => Row9();
      case k == 10 => RowA();
      case k == 11 => RowB();
      case k == 12 => RowC();
      case k == 13 => RowD();
      case k == 14 => RowE();
      case k == 15 => RowF();
    }
    Placed(TableRow(k), 16 * k, i % 16);
    assert Entry(i) == TableRow(k)[i % 16] && 16 * k + i % 16 == i;
  }

  /** The table is a permutation of the byte values. */
  lemma TablePermutes(i: nat, j: nat)
    requires i < 256 && j < 256
    ensures Entry(i) < 256
    ensures Entry(i) == Entry(j) ==> i == j
  {
    hide Entry, PlaceRow;
    EntryPlaced(i);
    EntryPlaced(j);
  }
}
