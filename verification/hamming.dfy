/**
 * The constant tables of the Hamming(8,4) codec used by the virtual-wire
 * radio driver: the encoding table from a 4-bit value to an 8-bit symbol,
 * the 256-entry decoding table whose low nibble is the decoded value and
 * whose high nibble is the syndrome, the 128-entry nibble-packed decoding
 * table, and the transmission preamble.  The tables are checked
 * exhaustively: the symbols form a code with minimum distance 4, the
 * syndrome is zero exactly on the symbols, and every single-bit error in a
 * symbol is corrected by the syndrome table.
 */
module Hamming {

  /** Encoding table: Symbols[n] is the code word sent for the 4-bit value n. */
  const Symbols: seq<bv8> := [0x0f, 0x18, 0x24, 0x33, 0x42, 0x55, 0x69, 0x7e, 0x81, 0x96, 0xaa, 0xbd, 0xcc, 0xdb, 0xe7, 0xf0]

  /** Decoding table with syndrome, one row of 16 entries per high nibble of the received byte. */
  const Codes256: seq<seq<bv8>> := [
    [0xf0, 0xe8, 0xd4, 0xc0, 0xb2, 0xa0, 0x90, 0x80, 0x71, 0x60, 0x50, 0x40, 0x30, 0x20, 0x10, 0x00],
    [0x81, 0x91, 0xa1, 0xb3, 0xc1, 0xd5, 0xe9, 0xf1, 0x01, 0x11, 0x21, 0x31, 0x41, 0x51, 0x61, 0x70],
    [0x42, 0x52, 0x62, 0x73, 0x02, 0x12, 0x22, 0x32, 0xc2, 0xd6, 0xea, 0xf2, 0x82, 0x92, 0xa2, 0xb0],
    [0x33, 0x23, 0x13, 0x03, 0x72, 0x63, 0x53, 0x43, 0xb1, 0xa3, 0x93, 0x83, 0xf3, 0xeb, 0xd7, 0xc3],
    [0x24, 0x34, 0x04, 0x14, 0x64, 0x75, 0x44, 0x54, 0xa4, 0xb6, 0x84, 0x94, 0xec, 0xf4, 0xc4, 0xd0],
    [0x55, 0x45, 0x74, 0x65, 0x15, 0x05, 0x35, 0x25, 0xd1, 0xc5, 0xf5, 0xed, 0x95, 0x85, 0xb7, 0xa5],
    [0x96, 0x86, 0xb4, 0xa6, 0xd2, 0xc6, 0xf6, 0xee, 0x16, 0x06, 0x36, 0x26, 0x56, 0x46, 0x77, 0x66],
    [0xef, 0xf7, 0xc7, 0xd3, 0xa7, 0xb5, 0x87, 0x97, 0x67, 0x76, 0x47, 0x57, 0x27, 0x37, 0x07, 0x17],
    [0x18, 0x08, 0x38, 0x28, 0x58, 0x48, 0x79, 0x68, 0x98, 0x88, 0xba, 0xa8, 0xdc, 0xc8, 0xf8, 0xe0],
    [0x69, 0x78, 0x49, 0x59, 0x29, 0x39, 0x09, 0x19, 0xe1, 0xf9, 0xc9, 0xdd, 0xa9, 0xbb, 0x89, 0x99],
    [0xaa, 0xb8, 0x8a, 0x9a, 0xe2, 0xfa, 0xca, 0xde, 0x2a, 0x3a, 0x0a, 0x1a, 0x6a, 0x7b, 0x4a, 0x5a],
    [0xdf, 0xcb, 0xfb, 0xe3, 0x9b, 0x8b, 0xb9, 0xab, 0x5b, 0x4b, 0x7a, 0x6b, 0x1b, 0x0b, 0x3b, 0x2b],
    [0xcc, 0xd8, 0xe4, 0xfc, 0x8c, 0x9c, 0xac, 0xbe, 0x4c, 0x5c, 0x6c, 0x7d, 0x0c, 0x1c, 0x2c, 0x3c],
    [0xbf, 0xad, 0x9d, 0x8d, 0xfd, 0xe5, 0xd9, 0xcd, 0x3d, 0x2d, 0x1d, 0x0d, 0x7c, 0x6d, 0x5d, 0x4d],
    [0x7f, 0x6e, 0x5e, 0x4e, 0x3e, 0x2e, 0x1e, 0x0e, 0xfe, 0xe6, 0xda, 0xce, 0xbc, 0xae, 0x9e, 0x8e],
    [0x0f, 0x1f, 0x2f, 0x3f, 0x4f, 0x5f, 0x6f, 0x7e, 0x8f, 0x9f, 0xaf, 0xbd, 0xcf, 0xdb, 0xe7, 0xff]]

  /** Decoding table without syndrome, indexed by the received byte shifted right once; rows of 8. */
  const Codes128: seq<seq<bv8>> := [
    [0x08, 0x40, 0x20, 0x00, 0x10, 0x00, 0x00, 0x00],
    [0x11, 0x13, 0x15, 0x91, 0x11, 0x11, 0x11, 0x10],
    [0x22, 0x23, 0x22, 0x22, 0x26, 0xa2, 0x22, 0x20],
    [0x33, 0x33, 0x23, 0x33, 0x13, 0x33, 0x3b, 0x73],
    [0x44, 0x44, 0x45, 0x44, 0x46, 0x44, 0xc4, 0x40],
    [0x55, 0x45, 0x55, 0x55, 0x15, 0x5d, 0x55, 0x75],
    [0x66, 0x46, 0x26, 0x6e, 0x66, 0x66, 0x66, 0x76],
    [0xf7, 0x73, 0x75, 0x77, 0x76, 0x77, 0x77, 0x77],
    [0x88, 0x88, 0x88, 0x98, 0x88, 0xa8, 0xc8, 0x80],
    [0x98, 0x99, 0x99, 0x99, 0x19, 0x9d, 0x9b, 0x99],
    [0xa8, 0xaa, 0x2a, 0xae, 0xaa, 0xaa, 0xab, 0xaa],
    [0xfb, 0xb3, 0xbb, 0x9b, 0xbb, 0xab, 0xbb, 0xbb],
    [0xc8, 0x4c, 0xcc, 0xce, 0xcc, 0xcd, 0xcc, 0xcc],
    [0xfd, 0xdd, 0xd5, 0x9d, 0xdd, 0xdd, 0xcd, 0xdd],
    [0xfe, 0xee, 0xee, 0xee, 0xe6, 0xae, 0xce, 0xee],
    [0xff, 0xff, 0xff, 0xfe, 0xff, 0xfd, 0xfb, 0x7f]]

  /** Synchronisation preamble sent before a frame. */
  const Preamble: seq<bv8> := [0x55, 0x55, 0x55, 0x55, 0x55, 0x55, 0x55, 0x5a]

  /** Bits[k] is the mask of bit k, so b ^ Bits[k] flips bit k of b. */
  const Bits: seq<bv8> := [0x01, 0x02, 0x04, 0x08, 0x10, 0x20, 0x40, 0x80]

  /** Entry codes[b] of the syndrome table. */
  function Lookup256(b: bv8): bv8 {
    Codes256[(b >> 4) as int][(b & 0xF) as int]
  }

  /** The 4-bit value the syndrome table decodes b to. */
  function Code(b: bv8): bv8 {
    Lookup256(b) & 0xF
  }

  /** The syndrome the table records for b; zero means "no error seen". */
  function Syndrome(b: bv8): bv8 {
    Lookup256(b) >> 4
  }

  /** Entry codes[b >> 1] of the nibble-packed table. */
  function Lookup128(b: bv8): bv8 {
    var i := b >> 1;
    Codes128[(i >> 3) as int][(i & 7) as int]
  }

  /** Number of set bits. */
  function Weight(x: bv8): nat {
    (if x & 0x01 != 0 then 1 else 0) + (if x & 0x02 != 0 then 1 else 0) +
    (if x & 0x04 != 0 then 1 else 0) + (if x & 0x08 != 0 then 1 else 0) +
    (if x & 0x10 != 0 then 1 else 0) + (if x & 0x20 != 0 then 1 else 0) +
    (if x & 0x40 != 0 then 1 else 0) + (if x & 0x80 != 0 then 1 else 0)
  }

  /** Hamming distance: the number of bit positions in which a and b differ. */
  function Distance(a: bv8, b: bv8): nat {
    Weight(a ^ b)
  }

  /** Membership in the symbol table, spelled out so that a literal byte decides it cheaply. */
  predicate IsSymbolLiteral(b: bv8) {

    b == 0x0f || b == 0x18 || b == 0x24 || b == 0x33 || b == 0x42 || b == 0x55 || b == 0x69 || b == 0x7e || b == 0x81 || b == 0x96 || b == 0xaa || b == 0xbd || b == 0xcc || b == 0xdb || b == 0xe7 || b == 0xf0
  }

  lemma SymbolPairsFar()
    ensures Distance(Symbols[0], Symbols[1]) >= 4 &&
      Distance(Symbols[0], Symbols[2]) >= 4 &&
      Distance(Symbols[0], Symbols[3]) >= 4 &&
      Distance(Symbols[0], Symbols[4]) >= 4 &&
      Distance(Symbols[0], Symbols[5]) >= 4 &&
      Distance(Symbols[0], Symbols[6]) >= 4 &&
      Distance(Symbols[0], Symbols[7]) >= 4 &&
      Distance(Symbols[0], Symbols[8]) >= 4 &&
      Distance(Symbols[0], Symbols[9]) >= 4 &&
      Distance(Symbols[0], Symbols[10]) >= 4 &&
      Distance(Symbols[0], Symbols[11]) >= 4 &&
      Distance(Symbols[0], Symbols[12]) >= 4 &&
      Distance(Symbols[0], Symbols[13]) >= 4 &&
      Distance(Symbols[0], Symbols[14]) >= 4 &&
      Distance(Symbols[0], Symbols[15]) >= 4 &&
      Distance(Symbols[1], Symbols[2]) >= 4 &&
      Distance(Symbols[1], Symbols[3]) >= 4 &&
      Distance(Symbols[1], Symbols[4]) >= 4 &&
      Distance(Symbols[1], Symbols[5]) >= 4 &&
      Distance(Symbols[1], Symbols[6]) >= 4 &&
      Distance(Symbols[1], Symbols[7]) >= 4 &&
      Distance(Symbols[1], Symbols[8]) >= 4 &&
      Distance(Symbols[1], Symbols[9]) >= 4 &&
      Distance(Symbols[1], Symbols[10]) >= 4 &&
      Distance(Symbols[1], Symbols[11]) >= 4 &&
      Distance(Symbols[1], Symbols[12]) >= 4 &&
      Distance(Symbols[1], Symbols[13]) >= 4 &&
      Distance(Symbols[1], Symbols[14]) >= 4 &&
      Distance(Symbols[1], Symbols[15]) >= 4 &&
      Distance(Symbols[2], Symbols[3]) >= 4 &&
      Distance(Symbols[2], Symbols[4]) >= 4 &&
      Distance(Symbols[2], Symbols[5]) >= 4 &&
      Distance(Symbols[2], Symbols[6]) >= 4 &&
      Distance(Symbols[2], Symbols[7]) >= 4 &&
      Distance(Symbols[2], Symbols[8]) >= 4 &&
      Distance(Symbols[2], Symbols[9]) >= 4 &&
      Distance(Symbols[2], Symbols[10]) >= 4 &&
      Distance(Symbols[2], Symbols[11]) >= 4 &&
      Distance(Symbols[2], Symbols[12]) >= 4 &&
      Distance(Symbols[2], Symbols[13]) >= 4 &&
      Distance(Symbols[2], Symbols[14]) >= 4 &&
      Distance(Symbols[2], Symbols[15]) >= 4 &&
      Distance(Symbols[3], Symbols[4]) >= 4 &&
      Distance(Symbols[3], Symbols[5]) >= 4 &&
      Distance(Symbols[3], Symbols[6]) >= 4 &&
      Distance(Symbols[3], Symbols[7]) >= 4 &&
      Distance(Symbols[3], Symbols[8]) >= 4 &&
      Distance(Symbols[3], Symbols[9]) >= 4 &&
      Distance(Symbols[3], Symbols[10]) >= 4 &&
      Distance(Symbols[3], Symbols[11]) >= 4 &&
      Distance(Symbols[3], Symbols[12]) >= 4 &&
      Distance(Symbols[3], Symbols[13]) >= 4 &&
      Distance(Symbols[3], Symbols[14]) >= 4 &&
      Distance(Symbols[3], Symbols[15]) >= 4 &&
      Distance(Symbols[4], Symbols[5]) >= 4 &&
      Distance(Symbols[4], Symbols[6]) >= 4 &&
      Distance(Symbols[4], Symbols[7]) >= 4 &&
      Distance(Symbols[4], Symbols[8]) >= 4 &&
      Distance(Symbols[4], Symbols[9]) >= 4 &&
      Distance(Symbols[4], Symbols[10]) >= 4 &&
      Distance(Symbols[4], Symbols[11]) >= 4 &&
      Distance(Symbols[4], Symbols[12]) >= 4 &&
      Distance(Symbols[4], Symbols[13]) >= 4 &&
      Distance(Symbols[4], Symbols[14]) >= 4 &&
      Distance(Symbols[4], Symbols[15]) >= 4 &&
      Distance(Symbols[5], Symbols[6]) >= 4 &&
      Distance(Symbols[5], Symbols[7]) >= 4 &&
      Distance(Symbols[5], Symbols[8]) >= 4 &&
      Distance(Symbols[5], Symbols[9]) >= 4 &&
      Distance(Symbols[5], Symbols[10]) >= 4 &&
      Distance(Symbols[5], Symbols[11]) >= 4 &&
      Distance(Symbols[5], Symbols[12]) >= 4 &&
      Distance(Symbols[5], Symbols[13]) >= 4 &&
      Distance(Symbols[5], Symbols[14]) >= 4 &&
      Distance(Symbols[5], Symbols[15]) >= 4 &&
      Distance(Symbols[6], Symbols[7]) >= 4 &&
      Distance(Symbols[6], Symbols[8]) >= 4 &&
      Distance(Symbols[6], Symbols[9]) >= 4 &&
      Distance(Symbols[6], Symbols[10]) >= 4 &&
      Distance(Symbols[6], Symbols[11]) >= 4 &&
      Distance(Symbols[6], Symbols[12]) >= 4 &&
      Distance(Symbols[6], Symbols[13]) >= 4 &&
      Distance(Symbols[6], Symbols[14]) >= 4 &&
      Distance(Symbols[6], Symbols[15]) >= 4 &&
      Distance(Symbols[7], Symbols[8]) >= 4 &&
      Distance(Symbols[7], Symbols[9]) >= 4 &&
      Distance(Symbols[7], Symbols[10]) >= 4 &&
      Distance(Symbols[7], Symbols[11]) >= 4 &&
      Distance(Symbols[7], Symbols[12]) >= 4 &&
      Distance(Symbols[7], Symbols[13]) >= 4 &&
      Distance(Symbols[7], Symbols[14]) >= 4 &&
      Distance(Symbols[7], Symbols[15]) >= 4 &&
      Distance(Symbols[8], Symbols[9]) >= 4 &&
      Distance(Symbols[8], Symbols[10]) >= 4 &&
      Distance(Symbols[8], Symbols[11]) >= 4 &&
      Distance(Symbols[8], Symbols[12]) >= 4 &&
      Distance(Symbols[8], Symbols[13]) >= 4 &&
      Distance(Symbols[8], Symbols[14]) >= 4 &&
      Distance(Symbols[8], Symbols[15]) >= 4 &&
      Distance(Symbols[9], Symbols[10]) >= 4 &&
      Distance(Symbols[9], Symbols[11]) >= 4 &&
      Distance(Symbols[9], Symbols[12]) >= 4 &&
      Distance(Symbols[9], Symbols[13]) >= 4 &&
      Distance(Symbols[9], Symbols[14]) >= 4 &&
      Distance(Symbols[9], Symbols[15]) >= 4 &&
      Distance(Symbols[10], Symbols[11]) >= 4 &&
      Distance(Symbols[10], Symbols[12]) >= 4 &&
      Distance(Symbols[10], Symbols[13]) >= 4 &&
      Distance(Symbols[10], Symbols[14]) >= 4 &&
      Distance(Symbols[10], Symbols[15]) >= 4 &&
      Distance(Symbols[11], Symbols[12]) >= 4 &&
      Distance(Symbols[11], Symbols[13]) >= 4 &&
      Distance(Symbols[11], Symbols[14]) >= 4 &&
      Distance(Symbols[11], Symbols[15]) >= 4 &&
      Distance(Symbols[12], Symbols[13]) >= 4 &&
      Distance(Symbols[12], Symbols[14]) >= 4 &&
      Distance(Symbols[12], Symbols[15]) >= 4 &&
      Distance(Symbols[13], Symbols[14]) >= 4 &&
      Distance(Symbols[13], Symbols[15]) >= 4 &&
      Distance(Symbols[14], Symbols[15]) >= 4
  {
  }

  /** Any two distinct symbols differ in at least four bit positions. */
  lemma MinimumDistance()
    ensures forall i, j | 0 <= i < 16 && 0 <= j < 16 && i != j :: Distance(Symbols[i], Symbols[j]) >= 4
  {
    SymbolPairsFar();
    forall i, j | 0 <= i < 16 && 0 <= j < 16 && i != j
      ensures Distance(Symbols[i], Symbols[j]) >= 4
    {
      if j < i {
        assert Symbols[j] ^ Symbols[i] == Symbols[i] ^ Symbols[j];
      }
    }
  }

  /** The sixteen symbols are pairwise distinct. */
  lemma SymbolsDistinct()
    ensures forall i, j | 0 <= i < 16 && 0 <= j < 16 && i != j :: Symbols[i] != Symbols[j]
  {
    MinimumDistance();
    forall i, j | 0 <= i < 16 && 0 <= j < 16 && i != j
      ensures Symbols[i] != Symbols[j]
    {
      assert Distance(Symbols[i], Symbols[j]) >= 4;
    }
  }

  lemma SyndromeRange0()
    ensures forall b: bv8 | 0x00 <= b <= 0x07 :: (Syndrome(b) == 0) == IsSymbolLiteral(b)
  {
    forall b: bv8 | 0x00 <= b <= 0x07 ensures (Syndrome(b) == 0) == IsSymbolLiteral(b) {
      if b == 0x00 { assert (Syndrome(0x00) == 0) == IsSymbolLiteral(0x00); }
      else if b == 0x01 { assert (Syndrome(0x01) == 0) == IsSymbolLiteral(0x01); }
      else if b == 0x02 { assert (Syndrome(0x02) == 0) == IsSymbolLiteral(0x02); }
      else if b == 0x03 { assert (Syndrome(0x03) == 0) == IsSymbolLiteral(0x03); }
      else if b == 0x04 { assert (Syndrome(0x04) == 0) == IsSymbolLiteral(0x04); }
      else if b == 0x05 { assert (Syndrome(0x05) == 0) == IsSymbolLiteral(0x05); }
      else if b == 0x06 { assert (Syndrome(0x06) == 0) == IsSymbolLiteral(0x06); }
      else { assert (Syndrome(0x07) == 0) == IsSymbolLiteral(0x07); }
    }
  }

  lemma SyndromeRange1()
    ensures forall b: bv8 | 0x08 <= b <= 0x0f :: (Syndrome(b) == 0) == IsSymbolLiteral(b)
  {
    forall b: bv8 | 0x08 <= b <= 0x0f ensures (Syndrome(b) == 0) == IsSymbolLiteral(b) {
      if b == 0x08 { assert (Syndrome(0x08) == 0) == IsSymbolLiteral(0x08); }
      else if b == 0x09 { assert (Syndrome(0x09) == 0) == IsSymbolLiteral(0x09); }
      else if b == 0x0a { assert (Syndrome(0x0a) == 0) == IsSymbolLiteral(0x0a); }
      else if b == 0x0b { assert (Syndrome(0x0b) == 0) == IsSymbolLiteral(0x0b); }
      else if b == 0x0c { assert (Syndrome(0x0c) == 0) == IsSymbolLiteral(0x0c); }
      else if b == 0x0d { assert (Syndrome(0x0d) == 0) == IsSymbolLiteral(0x0d); }
      else if b == 0x0e { assert (Syndrome(0x0e) == 0) == IsSymbolLiteral(0x0e); }
      else { assert (Syndrome(0x0f) == 0) == IsSymbolLiteral(0x0f); }
    }
  }

  lemma SyndromeRange2()
    ensures forall b: bv8 | 0x10 <= b <= 0x17 :: (Syndrome(b) == 0) == IsSymbolLiteral(b)
  {
    forall b: bv8 | 0x10 <= b <= 0x17 ensures (Syndrome(b) == 0) == IsSymbolLiteral(b) {
      if b == 0x10 { assert (Syndrome(0x10) == 0) == IsSymbolLiteral(0x10); }
      else if b == 0x11 { assert (Syndrome(0x11) == 0) == IsSymbolLiteral(0x11); }
      else if b == 0x12 { assert (Syndrome(0x12) == 0) == IsSymbolLiteral(0x12); }
      else if b == 0x13 { assert (Syndrome(0x13) == 0) == IsSymbolLiteral(0x13); }
      else if b == 0x14 { assert (Syndrome(0x14) == 0) == IsSymbolLiteral(0x14); }
      else if b == 0x15 { assert (Syndrome(0x15) == 0) == IsSymbolLiteral(0x15); }
      else if b == 0x16 { assert (Syndrome(0x16) == 0) == IsSymbolLiteral(0x16); }
      else { assert (Syndrome(0x17) == 0) == IsSymbolLiteral(0x17); }
    }
  }

  lemma SyndromeRange3()
    ensures forall b: bv8 | 0x18 <= b <= 0x1f :: (Syndrome(b) == 0) == IsSymbolLiteral(b)
  {
    forall b: bv8 | 0x18 <= b <= 0x1f ensures (Syndrome(b) == 0) == IsSymbolLiteral(b) {
      if b == 0x18 { assert (Syndrome(0x18) == 0) == IsSymbolLiteral(0x18); }
      else if b == 0x19 { assert (Syndrome(0x19) == 0) == IsSymbolLiteral(0x19); }
      else if b == 0x1a { assert (Syndrome(0x1a) == 0) == IsSymbolLiteral(0x1a); }
      else if b == 0x1b { assert (Syndrome(0x1b) == 0) == IsSymbolLiteral(0x1b); }
      else if b == 0x1c { assert (Syndrome(0x1c) == 0) == IsSymbolLiteral(0x1c); }
      else if b == 0x1d { assert (Syndrome(0x1d) == 0) == IsSymbolLiteral(0x1d); }
      else if b == 0x1e { assert (Syndrome(0x1e) == 0) == IsSymbolLiteral(0x1e); }
      else { assert (Syndrome(0x1f) == 0) == IsSymbolLiteral(0x1f); }
    }
  }

  lemma SyndromeRange4()
    ensures forall b: bv8 | 0x20 <= b <= 0x27 :: (Syndrome(b) == 0) == IsSymbolLiteral(b)
  {
    forall b: bv8 | 0x20 <= b <= 0x27 ensures (Syndrome(b) == 0) == IsSymbolLiteral(b) {
      if b == 0x20 { assert (Syndrome(0x20) == 0) == IsSymbolLiteral(0x20); }
      else if b == 0x21 { assert (Syndrome(0x21) == 0) == IsSymbolLiteral(0x21); }
      else if b == 0x22 { assert (Syndrome(0x22) == 0) == IsSymbolLiteral(0x22); }
      else if b == 0x23 { assert (Syndrome(0x23) == 0) == IsSymbolLiteral(0x23); }
      else if b == 0x24 { assert (Syndrome(0x24) == 0) == IsSymbolLiteral(0x24); }
      else if b == 0x25 { assert (Syndrome(0x25) == 0) == IsSymbolLiteral(0x25); }
      else if b == 0x26 { assert (Syndrome(0x26) == 0) == IsSymbolLiteral(0x26); }
      else { assert (Syndrome(0x27) == 0) == IsSymbolLiteral(0x27); }
    }
  }

  lemma SyndromeRange5()
    ensures forall b: bv8 | 0x28 <= b <= 0x2f :: (Syndrome(b) == 0) == IsSymbolLiteral(b)
  {
    forall b: bv8 | 0x28 <= b <= 0x2f ensures (Syndrome(b) == 0) == IsSymbolLiteral(b) {
      if b == 0x28 { assert (Syndrome(0x28) == 0) == IsSymbolLiteral(0x28); }
      else if b == 0x29 { assert (Syndrome(0x29) == 0) == IsSymbolLiteral(0x29); }
      else if b == 0x2a { assert (Syndrome(0x2a) == 0) == IsSymbolLiteral(0x2a); }
      else if b == 0x2b { assert (Syndrome(0x2b) == 0) == IsSymbolLiteral(0x2b); }
      else if b == 0x2c { assert (Syndrome(0x2c) == 0) == IsSymbolLiteral(0x2c); }
      else if b == 0x2d { assert (Syndrome(0x2d) == 0) == IsSymbolLiteral(0x2d); }
      else if b == 0x2e { assert (Syndrome(0x2e) == 0) == IsSymbolLiteral(0x2e); }
      else { assert (Syndrome(0x2f) == 0) == IsSymbolLiteral(0x2f); }
    }
  }

  lemma SyndromeRange6()
    ensures forall b: bv8 | 0x30 <= b <= 0x37 :: (Syndrome(b) == 0) == IsSymbolLiteral(b)
  {
    forall b: bv8 | 0x30 <= b <= 0x37 ensures (Syndrome(b) == 0) == IsSymbolLiteral(b) {
      if b == 0x30 { assert (Syndrome(0x30) == 0) == IsSymbolLiteral(0x30); }
      else if b == 0x31 { assert (Syndrome(0x31) == 0) == IsSymbolLiteral(0x31); }
      else if b == 0x32 { assert (Syndrome(0x32) == 0) == IsSymbolLiteral(0x32); }
      else if b == 0x33 { assert (Syndrome(0x33) == 0) == IsSymbolLiteral(0x33); }
      else if b == 0x34 { assert (Syndrome(0x34) == 0) == IsSymbolLiteral(0x34); }
      else if b == 0x35 { assert (Syndrome(0x35) == 0) == IsSymbolLiteral(0x35); }
      else if b == 0x36 { assert (Syndrome(0x36) == 0) == IsSymbolLiteral(0x36); }
      else { assert (Syndrome(0x37) == 0) == IsSymbolLiteral(0x37); }
    }
  }

  lemma SyndromeRange7()
    ensures forall b: bv8 | 0x38 <= b <= 0x3f :: (Syndrome(b) == 0) == IsSymbolLiteral(b)
  {
    forall b: bv8 | 0x38 <= b <= 0x3f ensures (Syndrome(b) == 0) == IsSymbolLiteral(b) {
      if b == 0x38 { assert (Syndrome(0x38) == 0) == IsSymbolLiteral(0x38); }
      else if b == 0x39 { assert (Syndrome(0x39) == 0) == IsSymbolLiteral(0x39); }
      else if b == 0x3a { assert (Syndrome(0x3a) == 0) == IsSymbolLiteral(0x3a); }
      else if b == 0x3b { assert (Syndrome(0x3b) == 0) == IsSymbolLiteral(0x3b); }
      else if b == 0x3c { assert (Syndrome(0x3c) == 0) == IsSymbolLiteral(0x3c); }
      else if b == 0x3d { assert (Syndrome(0x3d) == 0) == IsSymbolLiteral(0x3d); }
      else if b == 0x3e { assert (Syndrome(0x3e) == 0) == IsSymbolLiteral(0x3e); }
      else { assert (Syndrome(0x3f) == 0) == IsSymbolLiteral(0x3f); }
    }
  }

  lemma SyndromeRange8()
    ensures forall b: bv8 | 0x40 <= b <= 0x47 :: (Syndrome(b) == 0) == IsSymbolLiteral(b)
  {
    forall b: bv8 | 0x40 <= b <= 0x47 ensures (Syndrome(b) == 0) == IsSymbolLiteral(b) {
      if b == 0x40 { assert (Syndrome(0x40) == 0) == IsSymbolLiteral(0x40); }
      else if b == 0x41 { assert (Syndrome(0x41) == 0) == IsSymbolLiteral(0x41); }
      else if b == 0x42 { assert (Syndrome(0x42) == 0) == IsSymbolLiteral(0x42); }
      else if b == 0x43 { assert (Syndrome(0x43) == 0) == IsSymbolLiteral(0x43); }
      else if b == 0x44 { assert (Syndrome(0x44) == 0) == IsSymbolLiteral(0x44); }
      else if b == 0x45 { assert (Syndrome(0x45) == 0) == IsSymbolLiteral(0x45); }
      else if b == 0x46 { assert (Syndrome(0x46) == 0) == IsSymbolLiteral(0x46); }
      else { assert (Syndrome(0x47) == 0) == IsSymbolLiteral(0x47); }
    }
  }

  lemma SyndromeRange9()
    ensures forall b: bv8 | 0x48 <= b <= 0x4f :: (Syndrome(b) == 0) == IsSymbolLiteral(b)
  {
    forall b: bv8 | 0x48 <= b <= 0x4f ensures (Syndrome(b) == 0) == IsSymbolLiteral(b) {
      if b == 0x48 { assert (Syndrome(0x48) == 0) == IsSymbolLiteral(0x48); }
      else if b == 0x49 { assert (Syndrome(0x49) == 0) == IsSymbolLiteral(0x49); }
      else if b == 0x4a { assert (Syndrome(0x4a) == 0) == IsSymbolLiteral(0x4a); }
      else if b == 0x4b { assert (Syndrome(0x4b) == 0) == IsSymbolLiteral(0x4b); }
      else if b == 0x4c { assert (Syndrome(0x4c) == 0) == IsSymbolLiteral(0x4c); }
      else if b == 0x4d { assert (Syndrome(0x4d) == 0) == IsSymbolLiteral(0x4d); }
      else if b == 0x4e { assert (Syndrome(0x4e) == 0) == IsSymbolLiteral(0x4e); }
      else { assert (Syndrome(0x4f) == 0) == IsSymbolLiteral(0x4f); }
    }
  }

  lemma SyndromeRange10()
    ensures forall b: bv8 | 0x50 <= b <= 0x57 :: (Syndrome(b) == 0) == IsSymbolLiteral(b)
  {
    forall b: bv8 | 0x50 <= b <= 0x57 ensures (Syndrome(b) == 0) == IsSymbolLiteral(b) {
      if b == 0x50 { assert (Syndrome(0x50) == 0) == IsSymbolLiteral(0x50); }
      else if b == 0x51 { assert (Syndrome(0x51) == 0) == IsSymbolLiteral(0x51); }
      else if b == 0x52 { assert (Syndrome(0x52) == 0) == IsSymbolLiteral(0x52); }
      else if b == 0x53 { assert (Syndrome(0x53) == 0) == IsSymbolLiteral(0x53); }
      else if b == 0x54 { assert (Syndrome(0x54) == 0) == IsSymbolLiteral(0x54); }
      else if b == 0x55 { assert (Syndrome(0x55) == 0) == IsSymbolLiteral(0x55); }
      else if b == 0x56 { assert (Syndrome(0x56) == 0) == IsSymbolLiteral(0x56); }
      else { assert (Syndrome(0x57) == 0) == IsSymbolLiteral(0x57); }
    }
  }

  lemma SyndromeRange11()
    ensures forall b: bv8 | 0x58 <= b <= 0x5f :: (Syndrome(b) == 0) == IsSymbolLiteral(b)
  {
    forall b: bv8 | 0x58 <= b <= 0x5f ensures (Syndrome(b) == 0) == IsSymbolLiteral(b) {
      if b == 0x58 { assert (Syndrome(0x58) == 0) == IsSymbolLiteral(0x58); }
      else if b == 0x59 { assert (Syndrome(0x59) == 0) == IsSymbolLiteral(0x59); }
      else if b == 0x5a { assert (Syndrome(0x5a) == 0) == IsSymbolLiteral(0x5a); }
      else if b == 0x5b { assert (Syndrome(0x5b) == 0) == IsSymbolLiteral(0x5b); }
      else if b == 0x5c { assert (Syndrome(0x5c) == 0) == IsSymbolLiteral(0x5c); }
      else if b == 0x5d { assert (Syndrome(0x5d) == 0) == IsSymbolLiteral(0x5d); }
      else if b == 0x5e { assert (Syndrome(0x5e) == 0) == IsSymbolLiteral(0x5e); }
      else { assert (Syndrome(0x5f) == 0) == IsSymbolLiteral(0x5f); }
    }
  }

  lemma SyndromeRange12()
    ensures forall b: bv8 | 0x60 <= b <= 0x67 :: (Syndrome(b) == 0) == IsSymbolLiteral(b)
  {
    forall b: bv8 | 0x60 <= b <= 0x67 ensures (Syndrome(b) == 0) == IsSymbolLiteral(b) {
      if b == 0x60 { assert (Syndrome(0x60) == 0) == IsSymbolLiteral(0x60); }
      else if b == 0x61 { assert (Syndrome(0x61) == 0) == IsSymbolLiteral(0x61); }
      else if b == 0x62 { assert (Syndrome(0x62) == 0) == IsSymbolLiteral(0x62); }
      else if b == 0x63 { assert (Syndrome(0x63) == 0) == IsSymbolLiteral(0x63); }
      else if b == 0x64 { assert (Syndrome(0x64) == 0) == IsSymbolLiteral(0x64); }
      else if b == 0x65 { assert (Syndrome(0x65) == 0) == IsSymbolLiteral(0x65); }
      else if b == 0x66 { assert (Syndrome(0x66) == 0) == IsSymbolLiteral(0x66); }
      else { assert (Syndrome(0x67) == 0) == IsSymbolLiteral(0x67); }
    }
  }

  lemma SyndromeRange13()
    ensures forall b: bv8 | 0x68 <= b <= 0x6f :: (Syndrome(b) == 0) == IsSymbolLiteral(b)
  {
    forall b: bv8 | 0x68 <= b <= 0x6f ensures (Syndrome(b) == 0) == IsSymbolLiteral(b) {
      if b == 0x68 { assert (Syndrome(0x68) == 0) == IsSymbolLiteral(0x68); }
      else if b == 0x69 { assert (Syndrome(0x69) == 0) == IsSymbolLiteral(0x69); }
      else if b == 0x6a { assert (Syndrome(0x6a) == 0) == IsSymbolLiteral(0x6a); }
      else if b == 0x6b { assert (Syndrome(0x6b) == 0) == IsSymbolLiteral(0x6b); }
      else if b == 0x6c { assert (Syndrome(0x6c) == 0) == IsSymbolLiteral(0x6c); }
      else if b == 0x6d { assert (Syndrome(0x6d) == 0) == IsSymbolLiteral(0x6d); }
      else if b == 0x6e { assert (Syndrome(0x6e) == 0) == IsSymbolLiteral(0x6e); }
      else { assert (Syndrome(0x6f) == 0) == IsSymbolLiteral(0x6f); }
    }
  }

  lemma SyndromeRange14()
    ensures forall b: bv8 | 0x70 <= b <= 0x77 :: (Syndrome(b) == 0) == IsSymbolLiteral(b)
  {
    forall b: bv8 | 0x70 <= b <= 0x77 ensures (Syndrome(b) == 0) == IsSymbolLiteral(b) {
      if b == 0x70 { assert (Syndrome(0x70) == 0) == IsSymbolLiteral(0x70); }
      else if b == 0x71 { assert (Syndrome(0x71) == 0) == IsSymbolLiteral(0x71); }
      else if b == 0x72 { assert (Syndrome(0x72) == 0) == IsSymbolLiteral(0x72); }
      else if b == 0x73 { assert (Syndrome(0x73) == 0) == IsSymbolLiteral(0x73); }
      else if b == 0x74 { assert (Syndrome(0x74) == 0) == IsSymbolLiteral(0x74); }
      else if b == 0x75 { assert (Syndrome(0x75) == 0) == IsSymbolLiteral(0x75); }
      else if b == 0x76 { assert (Syndrome(0x76) == 0) == IsSymbolLiteral(0x76); }
      else { assert (Syndrome(0x77) == 0) == IsSymbolLiteral(0x77); }
    }
  }

  lemma SyndromeRange15()
    ensures forall b: bv8 | 0x78 <= b <= 0x7f :: (Syndrome(b) == 0) == IsSymbolLiteral(b)
  {
    forall b: bv8 | 0x78 <= b <= 0x7f ensures (Syndrome(b) == 0) == IsSymbolLiteral(b) {
      if b == 0x78 { assert (Syndrome(0x78) == 0) == IsSymbolLiteral(0x78); }
      else if b == 0x79 { assert (Syndrome(0x79) == 0) == IsSymbolLiteral(0x79); }
      else if b == 0x7a { assert (Syndrome(0x7a) == 0) == IsSymbolLiteral(0x7a); }
      else if b == 0x7b { assert (Syndrome(0x7b) == 0) == IsSymbolLiteral(0x7b); }
      else if b == 0x7c { assert (Syndrome(0x7c) == 0) == IsSymbolLiteral(0x7c); }
      else if b == 0x7d { assert (Syndrome(0x7d) == 0) == IsSymbolLiteral(0x7d); }
      else if b == 0x7e { assert (Syndrome(0x7e) == 0) == IsSymbolLiteral(0x7e); }
      else { assert (Syndrome(0x7f) == 0) == IsSymbolLiteral(0x7f); }
    }
  }

  lemma SyndromeRange16()
    ensures forall b: bv8 | 0x80 <= b <= 0x87 :: (Syndrome(b) == 0) == IsSymbolLiteral(b)
  {
    forall b: bv8 | 0x80 <= b <= 0x87 ensures (Syndrome(b) == 0) == IsSymbolLiteral(b) {
      if b == 0x80 { assert (Syndrome(0x80) == 0) == IsSymbolLiteral(0x80); }
      else if b == 0x81 { assert (Syndrome(0x81) == 0) == IsSymbolLiteral(0x81); }
      else if b == 0x82 { assert (Syndrome(0x82) == 0) == IsSymbolLiteral(0x82); }
      else if b == 0x83 { assert (Syndrome(0x83) == 0) == IsSymbolLiteral(0x83); }
      else if b == 0x84 { assert (Syndrome(0x84) == 0) == IsSymbolLiteral(0x84); }
      else if b == 0x85 { assert (Syndrome(0x85) == 0) == IsSymbolLiteral(0x85); }
      else if b == 0x86 { assert (Syndrome(0x86) == 0) == IsSymbolLiteral(0x86); }
      else { assert (Syndrome(0x87) == 0) == IsSymbolLiteral(0x87); }
    }
  }

  lemma SyndromeRange17()
    ensures forall b: bv8 | 0x88 <= b <= 0x8f :: (Syndrome(b) == 0) == IsSymbolLiteral(b)
  {
    forall b: bv8 | 0x88 <= b <= 0x8f ensures (Syndrome(b) == 0) == IsSymbolLiteral(b) {
      if b == 0x88 { assert (Syndrome(0x88) == 0) == IsSymbolLiteral(0x88); }
      else if b == 0x89 { assert (Syndrome(0x89) == 0) == IsSymbolLiteral(0x89); }
      else if b == 0x8a { assert (Syndrome(0x8a) == 0) == IsSymbolLiteral(0x8a); }
      else if b == 0x8b { assert (Syndrome(0x8b) == 0) == IsSymbolLiteral(0x8b); }
      else if b == 0x8c { assert (Syndrome(0x8c) == 0) == IsSymbolLiteral(0x8c); }
      else if b == 0x8d { assert (Syndrome(0x8d) == 0) == IsSymbolLiteral(0x8d); }
      else if b == 0x8e { assert (Syndrome(0x8e) == 0) == IsSymbolLiteral(0x8e); }
      else { assert (Syndrome(0x8f) == 0) == IsSymbolLiteral(0x8f); }
    }
  }

  lemma SyndromeRange18()
    ensures forall b: bv8 | 0x90 <= b <= 0x97 :: (Syndrome(b) == 0) == IsSymbolLiteral(b)
  {
    forall b: bv8 | 0x90 <= b <= 0x97 ensures (Syndrome(b) == 0) == IsSymbolLiteral(b) {
      if b == 0x90 { assert (Syndrome(0x90) == 0) == IsSymbolLiteral(0x90); }
      else if b == 0x91 { assert (Syndrome(0x91) == 0) == IsSymbolLiteral(0x91); }
      else if b == 0x92 { assert (Syndrome(0x92) == 0) == IsSymbolLiteral(0x92); }
      else if b == 0x93 { assert (Syndrome(0x93) == 0) == IsSymbolLiteral(0x93); }
      else if b == 0x94 { assert (Syndrome(0x94) == 0) == IsSymbolLiteral(0x94); }
      else if b == 0x95 { assert (Syndrome(0x95) == 0) == IsSymbolLiteral(0x95); }
      else if b == 0x96 { assert (Syndrome(0x96) == 0) == IsSymbolLiteral(0x96); }
      else { assert (Syndrome(0x97) == 0) == IsSymbolLiteral(0x97); }
    }
  }

  lemma SyndromeRange19()
    ensures forall b: bv8 | 0x98 <= b <= 0x9f :: (Syndrome(b) == 0) == IsSymbolLiteral(b)
  {
    forall b: bv8 | 0x98 <= b <= 0x9f ensures (Syndrome(b) == 0) == IsSymbolLiteral(b) {
      if b == 0x98 { assert (Syndrome(0x98) == 0) == IsSymbolLiteral(0x98); }
      else if b == 0x99 { assert (Syndrome(0x99) == 0) == IsSymbolLiteral(0x99); }
      else if b == 0x9a { assert (Syndrome(0x9a) == 0) == IsSymbolLiteral(0x9a); }
      else if b == 0x9b { assert (Syndrome(0x9b) == 0) == IsSymbolLiteral(0x9b); }
      else if b == 0x9c { assert (Syndrome(0x9c) == 0) == IsSymbolLiteral(0x9c); }
      else if b == 0x9d { assert (Syndrome(0x9d) == 0) == IsSymbolLiteral(0x9d); }
      else if b == 0x9e { assert (Syndrome(0x9e) == 0) == IsSymbolLiteral(0x9e); }
      else { assert (Syndrome(0x9f) == 0) == IsSymbolLiteral(0x9f); }
    }
  }

  lemma SyndromeRange20()
    ensures forall b: bv8 | 0xa0 <= b <= 0xa7 :: (Syndrome(b) == 0) == IsSymbolLiteral(b)
  {
    forall b: bv8 | 0xa0 <= b <= 0xa7 ensures (Syndrome(b) == 0) == IsSymbolLiteral(b) {
      if b == 0xa0 { assert (Syndrome(0xa0) == 0) == IsSymbolLiteral(0xa0); }
      else if b == 0xa1 { assert (Syndrome(0xa1) == 0) == IsSymbolLiteral(0xa1); }
      else if b == 0xa2 { assert (Syndrome(0xa2) == 0) == IsSymbolLiteral(0xa2); }
      else if b == 0xa3 { assert (Syndrome(0xa3) == 0) == IsSymbolLiteral(0xa3); }
      else if b == 0xa4 { assert (Syndrome(0xa4) == 0) == IsSymbolLiteral(0xa4); }
      else if b == 0xa5 { assert (Syndrome(0xa5) == 0) == IsSymbolLiteral(0xa5); }
      else if b == 0xa6 { assert (Syndrome(0xa6) == 0) == IsSymbolLiteral(0xa6); }
      else { assert (Syndrome(0xa7) == 0) == IsSymbolLiteral(0xa7); }
    }
  }

  lemma SyndromeRange21()
    ensures forall b: bv8 | 0xa8 <= b <= 0xaf :: (Syndrome(b) == 0) == IsSymbolLiteral(b)
  {
    forall b: bv8 | 0xa8 <= b <= 0xaf ensures (Syndrome(b) == 0) == IsSymbolLiteral(b) {
      if b == 0xa8 { assert (Syndrome(0xa8) == 0) == IsSymbolLiteral(0xa8); }
      else if b == 0xa9 { assert (Syndrome(0xa9) == 0) == IsSymbolLiteral(0xa9); }
      else if b == 0xaa { assert (Syndrome(0xaa) == 0) == IsSymbolLiteral(0xaa); }
      else if b == 0xab { assert (Syndrome(0xab) == 0) == IsSymbolLiteral(0xab); }
      else if b == 0xac { assert (Syndrome(0xac) == 0) == IsSymbolLiteral(0xac); }
      else if b == 0xad { assert (Syndrome(0xad) == 0) == IsSymbolLiteral(0xad); }
      else if b == 0xae { assert (Syndrome(0xae) == 0) == IsSymbolLiteral(0xae); }
      else { assert (Syndrome(0xaf) == 0) == IsSymbolLiteral(0xaf); }
    }
  }

  lemma SyndromeRange22()
    ensures forall b: bv8 | 0xb0 <= b <= 0xb7 :: (Syndrome(b) == 0) == IsSymbolLiteral(b)
  {
    forall b: bv8 | 0xb0 <= b <= 0xb7 ensures (Syndrome(b) == 0) == IsSymbolLiteral(b) {
      if b == 0xb0 { assert (Syndrome(0xb0) == 0) == IsSymbolLiteral(0xb0); }
      else if b == 0xb1 { assert (Syndrome(0xb1) == 0) == IsSymbolLiteral(0xb1); }
      else if b == 0xb2 { assert (Syndrome(0xb2) == 0) == IsSymbolLiteral(0xb2); }
      else if b == 0xb3 { assert (Syndrome(0xb3) == 0) == IsSymbolLiteral(0xb3); }
      else if b == 0xb4 { assert (Syndrome(0xb4) == 0) == IsSymbolLiteral(0xb4); }
      else if b == 0xb5 { assert (Syndrome(0xb5) == 0) == IsSymbolLiteral(0xb5); }
      else if b == 0xb6 { assert (Syndrome(0xb6) == 0) == IsSymbolLiteral(0xb6); }
      else { assert (Syndrome(0xb7) == 0) == IsSymbolLiteral(0xb7); }
    }
  }

  lemma SyndromeRange23()
    ensures forall b: bv8 | 0xb8 <= b <= 0xbf :: (Syndrome(b) == 0) == IsSymbolLiteral(b)
  {
    forall b: bv8 | 0xb8 <= b <= 0xbf ensures (Syndrome(b) == 0) == IsSymbolLiteral(b) {
      if b == 0xb8 { assert (Syndrome(0xb8) == 0) == IsSymbolLiteral(0xb8); }
      else if b == 0xb9 { assert (Syndrome(0xb9) == 0) == IsSymbolLiteral(0xb9); }
      else if b == 0xba { assert (Syndrome(0xba) == 0) == IsSymbolLiteral(0xba); }
      else if b == 0xbb { assert (Syndrome(0xbb) == 0) == IsSymbolLiteral(0xbb); }
      else if b == 0xbc { assert (Syndrome(0xbc) == 0) == IsSymbolLiteral(0xbc); }
      else if b == 0xbd { assert (Syndrome(0xbd) == 0) == IsSymbolLiteral(0xbd); }
      else if b == 0xbe { assert (Syndrome(0xbe) == 0) == IsSymbolLiteral(0xbe); }
      else { assert (Syndrome(0xbf) == 0) == IsSymbolLiteral(0xbf); }
    }
  }

  lemma SyndromeRange24()
    ensures forall b: bv8 | 0xc0 <= b <= 0xc7 :: (Syndrome(b) == 0) == IsSymbolLiteral(b)
  {
    forall b: bv8 | 0xc0 <= b <= 0xc7 ensures (Syndrome(b) == 0) == IsSymbolLiteral(b) {
      if b == 0xc0 { assert (Syndrome(0xc0) == 0) == IsSymbolLiteral(0xc0); }
      else if b == 0xc1 { assert (Syndrome(0xc1) == 0) == IsSymbolLiteral(0xc1); }
      else if b == 0xc2 { assert (Syndrome(0xc2) == 0) == IsSymbolLiteral(0xc2); }
      else if b == 0xc3 { assert (Syndrome(0xc3) == 0) == IsSymbolLiteral(0xc3); }
      else if b == 0xc4 { assert (Syndrome(0xc4) == 0) == IsSymbolLiteral(0xc4); }
      else if b == 0xc5 { assert (Syndrome(0xc5) == 0) == IsSymbolLiteral(0xc5); }
      else if b == 0xc6 { assert (Syndrome(0xc6) == 0) == IsSymbolLiteral(0xc6); }
      else { assert (Syndrome(0xc7) == 0) == IsSymbolLiteral(0xc7); }
    }
  }

  lemma SyndromeRange25()
    ensures forall b: bv8 | 0xc8 <= b <= 0xcf :: (Syndrome(b) == 0) == IsSymbolLiteral(b)
  {
    forall b: bv8 | 0xc8 <= b <= 0xcf ensures (Syndrome(b) == 0) == IsSymbolLiteral(b) {
      if b == 0xc8 { assert (Syndrome(0xc8) == 0) == IsSymbolLiteral(0xc8); }
      else if b == 0xc9 { assert (Syndrome(0xc9) == 0) == IsSymbolLiteral(0xc9); }
      else if b == 0xca { assert (Syndrome(0xca) == 0) == IsSymbolLiteral(0xca); }
      else if b == 0xcb { assert (Syndrome(0xcb) == 0) == IsSymbolLiteral(0xcb); }
      else if b == 0xcc { assert (Syndrome(0xcc) == 0) == IsSymbolLiteral(0xcc); }
      else if b == 0xcd { assert (Syndrome(0xcd) == 0) == IsSymbolLiteral(0xcd); }
      else if b == 0xce { assert (Syndrome(0xce) == 0) == IsSymbolLiteral(0xce); }
      else { assert (Syndrome(0xcf) == 0) == IsSymbolLiteral(0xcf); }
    }
  }

  lemma SyndromeRange26()
    ensures forall b: bv8 | 0xd0 <= b <= 0xd7 :: (Syndrome(b) == 0) == IsSymbolLiteral(b)
  {
    forall b: bv8 | 0xd0 <= b <= 0xd7 ensures (Syndrome(b) == 0) == IsSymbolLiteral(b) {
      if b == 0xd0 { assert (Syndrome(0xd0) == 0) == IsSymbolLiteral(0xd0); }
      else if b == 0xd1 { assert (Syndrome(0xd1) == 0) == IsSymbolLiteral(0xd1); }
      else if b == 0xd2 { assert (Syndrome(0xd2) == 0) == IsSymbolLiteral(0xd2); }
      else if b == 0xd3 { assert (Syndrome(0xd3) == 0) == IsSymbolLiteral(0xd3); }
      else if b == 0xd4 { assert (Syndrome(0xd4) == 0) == IsSymbolLiteral(0xd4); }
      else if b == 0xd5 { assert (Syndrome(0xd5) == 0) == IsSymbolLiteral(0xd5); }
      else if b == 0xd6 { assert (Syndrome(0xd6) == 0) == IsSymbolLiteral(0xd6); }
      else { assert (Syndrome(0xd7) == 0) == IsSymbolLiteral(0xd7); }
    }
  }

  lemma SyndromeRange27()
    ensures forall b: bv8 | 0xd8 <= b <= 0xdf :: (Syndrome(b) == 0) == IsSymbolLiteral(b)
  {
    forall b: bv8 | 0xd8 <= b <= 0xdf ensures (Syndrome(b) == 0) == IsSymbolLiteral(b) {
      if b == 0xd8 { assert (Syndrome(0xd8) == 0) == IsSymbolLiteral(0xd8); }
      else if b == 0xd9 { assert (Syndrome(0xd9) == 0) == IsSymbolLiteral(0xd9); }
      else if b == 0xda { assert (Syndrome(0xda) == 0) == IsSymbolLiteral(0xda); }
      else if b == 0xdb { assert (Syndrome(0xdb) == 0) == IsSymbolLiteral(0xdb); }
      else if b == 0xdc { assert (Syndrome(0xdc) == 0) == IsSymbolLiteral(0xdc); }
      else if b == 0xdd { assert (Syndrome(0xdd) == 0) == IsSymbolLiteral(0xdd); }
      else if b == 0xde { assert (Syndrome(0xde) == 0) == IsSymbolLiteral(0xde); }
      else { assert (Syndrome(0xdf) == 0) == IsSymbolLiteral(0xdf); }
    }
  }

  lemma SyndromeRange28()
    ensures forall b: bv8 | 0xe0 <= b <= 0xe7 :: (Syndrome(b) == 0) == IsSymbolLiteral(b)
  {
    forall b: bv8 | 0xe0 <= b <= 0xe7 ensures (Syndrome(b) == 0) == IsSymbolLiteral(b) {
      if b == 0xe0 { assert (Syndrome(0xe0) == 0) == IsSymbolLiteral(0xe0); }
      else if b == 0xe1 { assert (Syndrome(0xe1) == 0) == IsSymbolLiteral(0xe1); }
      else if b == 0xe2 { assert (Syndrome(0xe2) == 0) == IsSymbolLiteral(0xe2); }
      else if b == 0xe3 { assert (Syndrome(0xe3) == 0) == IsSymbolLiteral(0xe3); }
      else if b == 0xe4 { assert (Syndrome(0xe4) == 0) == IsSymbolLiteral(0xe4); }
      else if b == 0xe5 { assert (Syndrome(0xe5) == 0) == IsSymbolLiteral(0xe5); }
      else if b == 0xe6 { assert (Syndrome(0xe6) == 0) == IsSymbolLiteral(0xe6); }
      else { assert (Syndrome(0xe7) == 0) == IsSymbolLiteral(0xe7); }
    }
  }

  lemma SyndromeRange29()
    ensures forall b: bv8 | 0xe8 <= b <= 0xef :: (Syndrome(b) == 0) == IsSymbolLiteral(b)
  {
    forall b: bv8 | 0xe8 <= b <= 0xef ensures (Syndrome(b) == 0) == IsSymbolLiteral(b) {
      if b == 0xe8 { assert (Syndrome(0xe8) == 0) == IsSymbolLiteral(0xe8); }
      else if b == 0xe9 { assert (Syndrome(0xe9) == 0) == IsSymbolLiteral(0xe9); }
      else if b == 0xea { assert (Syndrome(0xea) == 0) == IsSymbolLiteral(0xea); }
      else if b == 0xeb { assert (Syndrome(0xeb) == 0) == IsSymbolLiteral(0xeb); }
      else if b == 0xec { assert (Syndrome(0xec) == 0) == IsSymbolLiteral(0xec); }
      else if b == 0xed { assert (Syndrome(0xed) == 0) == IsSymbolLiteral(0xed); }
      else if b == 0xee { assert (Syndrome(0xee) == 0) == IsSymbolLiteral(0xee); }
      else { assert (Syndrome(0xef) == 0) == IsSymbolLiteral(0xef); }
    }
  }

  lemma SyndromeRange30()
    ensures forall b: bv8 | 0xf0 <= b <= 0xf7 :: (Syndrome(b) == 0) == IsSymbolLiteral(b)
  {
    forall b: bv8 | 0xf0 <= b <= 0xf7 ensures (Syndrome(b) == 0) == IsSymbolLiteral(b) {
      if b == 0xf0 { assert (Syndrome(0xf0) == 0) == IsSymbolLiteral(0xf0); }
      else if b == 0xf1 { assert (Syndrome(0xf1) == 0) == IsSymbolLiteral(0xf1); }
      else if b == 0xf2 { assert (Syndrome(0xf2) == 0) == IsSymbolLiteral(0xf2); }
      else if b == 0xf3 { assert (Syndrome(0xf3) == 0) == IsSymbolLiteral(0xf3); }
      else if b == 0xf4 { assert (Syndrome(0xf4) == 0) == IsSymbolLiteral(0xf4); }
      else if b == 0xf5 { assert (Syndrome(0xf5) == 0) == IsSymbolLiteral(0xf5); }
      else if b == 0xf6 { assert (Syndrome(0xf6) == 0) == IsSymbolLiteral(0xf6); }
      else { assert (Syndrome(0xf7) == 0) == IsSymbolLiteral(0xf7); }
    }
  }

  lemma SyndromeRange31()
    ensures forall b: bv8 | 0xf8 <= b <= 0xff :: (Syndrome(b) == 0) == IsSymbolLiteral(b)
  {
    forall b: bv8 | 0xf8 <= b <= 0xff ensures (Syndrome(b) == 0) == IsSymbolLiteral(b) {
      if b == 0xf8 { assert (Syndrome(0xf8) == 0) == IsSymbolLiteral(0xf8); }
      else if b == 0xf9 { assert (Syndrome(0xf9) == 0) == IsSymbolLiteral(0xf9); }
      else if b == 0xfa { assert (Syndrome(0xfa) == 0) == IsSymbolLiteral(0xfa); }
      else if b == 0xfb { assert (Syndrome(0xfb) == 0) == IsSymbolLiteral(0xfb); }
      else if b == 0xfc { assert (Syndrome(0xfc) == 0) == IsSymbolLiteral(0xfc); }
      else if b == 0xfd { assert (Syndrome(0xfd) == 0) == IsSymbolLiteral(0xfd); }
      else if b == 0xfe { assert (Syndrome(0xfe) == 0) == IsSymbolLiteral(0xfe); }
      else { assert (Syndrome(0xff) == 0) == IsSymbolLiteral(0xff); }
    }
  }

  lemma SyndromeZeroIffLiteral()
    ensures forall b: bv8 :: Syndrome(b) == 0 <==> IsSymbolLiteral(b)
  {
    forall b: bv8 ensures Syndrome(b) == 0 <==> IsSymbolLiteral(b) {
      if b <= 0x07 { SyndromeRange0(); }
      else if b <= 0x0f { SyndromeRange1(); }
      else if b <= 0x17 { SyndromeRange2(); }
      else if b <= 0x1f { SyndromeRange3(); }
      else if b <= 0x27 { SyndromeRange4(); }
      else if b <= 0x2f { SyndromeRange5(); }
      else if b <= 0x37 { SyndromeRange6(); }
      else if b <= 0x3f { SyndromeRange7(); }
      else if b <= 0x47 { SyndromeRange8(); }
      else if b <= 0x4f { SyndromeRange9(); }
      else if b <= 0x57 { SyndromeRange10(); }
      else if b <= 0x5f { SyndromeRange11(); }
      else if b <= 0x67 { SyndromeRange12(); }
      else if b <= 0x6f { SyndromeRange13(); }
      else if b <= 0x77 { SyndromeRange14(); }
      else if b <= 0x7f { SyndromeRange15(); }
      else if b <= 0x87 { SyndromeRange16(); }
      else if b <= 0x8f { SyndromeRange17(); }
      else if b <= 0x97 { SyndromeRange18(); }
      else if b <= 0x9f { SyndromeRange19(); }
      else if b <= 0xa7 { SyndromeRange20(); }
      else if b <= 0xaf { SyndromeRange21(); }
      else if b <= 0xb7 { SyndromeRange22(); }
      else if b <= 0xbf { SyndromeRange23(); }
      else if b <= 0xc7 { SyndromeRange24(); }
      else if b <= 0xcf { SyndromeRange25(); }
      else if b <= 0xd7 { SyndromeRange26(); }
      else if b <= 0xdf { SyndromeRange27(); }
      else if b <= 0xe7 { SyndromeRange28(); }
      else if b <= 0xef { SyndromeRange29(); }
      else if b <= 0xf7 { SyndromeRange30(); }
      else { SyndromeRange31(); }
    }
  }

  lemma SymbolLiteralIsMember()
    ensures forall b: bv8 :: IsSymbolLiteral(b) <==> b in Symbols
  {
  }

  /** The syndrome nibble is zero for exactly the sixteen symbols, and nonzero for every other byte. */
  lemma SyndromeZeroIffSymbol()
    ensures forall b: bv8 :: Syndrome(b) == 0 <==> b in Symbols
  {
    SyndromeZeroIffLiteral();
    SymbolLiteralIsMember();
  }

  lemma Corrects0Low(n: nat)
    requires n == 0
    ensures Code(Symbols[n]) == 0
    ensures forall k | 0 <= k < 4 :: Code(Symbols[n] ^ Bits[k]) == Code(Symbols[n])
  {
    assert Symbols[n] == 0x0f;
    assert Code(0x0f) == 0;
    forall k | 0 <= k < 4 ensures Code(Symbols[n] ^ Bits[k]) == Code(Symbols[n]) {
      if k == 0 { assert Code(0x0e) == 0; }
      else if k == 1 { assert Code(0x0d) == 0; }
      else if k == 2 { assert Code(0x0b) == 0; }
      else { assert Code(0x07) == 0; }
    }
  }

  lemma Corrects0High(n: nat)
    requires n == 0
    ensures forall k | 4 <= k < 8 :: Code(Symbols[n] ^ Bits[k]) == Code(Symbols[n])
  {
    assert Symbols[n] == 0x0f;
    assert Code(0x0f) == 0;
    forall k | 4 <= k < 8 ensures Code(Symbols[n] ^ Bits[k]) == Code(Symbols[n]) {
      if k == 4 { assert Code(0x1f) == 0; }
      else if k == 5 { assert Code(0x2f) == 0; }
      else if k == 6 { assert Code(0x4f) == 0; }
      else { assert Code(0x8f) == 0; }
    }
  }

  lemma Corrects1Low(n: nat)
    requires n == 1
    ensures Code(Symbols[n]) == 1
    ensures forall k | 0 <= k < 4 :: Code(Symbols[n] ^ Bits[k]) == Code(Symbols[n])
  {
    assert Symbols[n] == 0x18;
    assert Code(0x18) == 1;
    forall k | 0 <= k < 4 ensures Code(Symbols[n] ^ Bits[k]) == Code(Symbols[n]) {
      if k == 0 { assert Code(0x19) == 1; }
      else if k == 1 { assert Code(0x1a) == 1; }
      else if k == 2 { assert Code(0x1c) == 1; }
      else { assert Code(0x10) == 1; }
    }
  }

  lemma Corrects1High(n: nat)
    requires n == 1
    ensures forall k | 4 <= k < 8 :: Code(Symbols[n] ^ Bits[k]) == Code(Symbols[n])
  {
    assert Symbols[n] == 0x18;
    assert Code(0x18) == 1;
    forall k | 4 <= k < 8 ensures Code(Symbols[n] ^ Bits[k]) == Code(Symbols[n]) {
      if k == 4 { assert Code(0x08) == 1; }
      else if k == 5 { assert Code(0x38) == 1; }
      else if k == 6 { assert Code(0x58) == 1; }
      else { assert Code(0x98) == 1; }
    }
  }

  lemma Corrects2Low(n: nat)
    requires n == 2
    ensures Code(Symbols[n]) == 2
    ensures forall k | 0 <= k < 4 :: Code(Symbols[n] ^ Bits[k]) == Code(Symbols[n])
  {
    assert Symbols[n] == 0x24;
    assert Code(0x24) == 2;
    forall k | 0 <= k < 4 ensures Code(Symbols[n] ^ Bits[k]) == Code(Symbols[n]) {
      if k == 0 { assert Code(0x25) == 2; }
      else if k == 1 { assert Code(0x26) == 2; }
      else if k == 2 { assert Code(0x20) == 2; }
      else { assert Code(0x2c) == 2; }
    }
  }

  lemma Corrects2High(n: nat)
    requires n == 2
    ensures forall k | 4 <= k < 8 :: Code(Symbols[n] ^ Bits[k]) == Code(Symbols[n])
  {
    assert Symbols[n] == 0x24;
    assert Code(0x24) == 2;
    forall k | 4 <= k < 8 ensures Code(Symbols[n] ^ Bits[k]) == Code(Symbols[n]) {
      if k == 4 { assert Code(0x34) == 2; }
      else if k == 5 { assert Code(0x04) == 2; }
      else if k == 6 { assert Code(0x64) == 2; }
      else { assert Code(0xa4) == 2; }
    }
  }

  lemma Corrects3Low(n: nat)
    requires n == 3
    ensures Code(Symbols[n]) == 3
    ensures forall k | 0 <= k < 4 :: Code(Symbols[n] ^ Bits[k]) == Code(Symbols[n])
  {
    assert Symbols[n] == 0x33;
    assert Code(0x33) == 3;
    forall k | 0 <= k < 4 ensures Code(Symbols[n] ^ Bits[k]) == Code(Symbols[n]) {
      if k == 0 { assert Code(0x32) == 3; }
      else if k == 1 { assert Code(0x31) == 3; }
      else if k == 2 { assert Code(0x37) == 3; }
      else { assert Code(0x3b) == 3; }
    }
  }

  lemma Corrects3High(n: nat)
    requires n == 3
    ensures forall k | 4 <= k < 8 :: Code(Symbols[n] ^ Bits[k]) == Code(Symbols[n])
  {
    assert Symbols[n] == 0x33;
    assert Code(0x33) == 3;
    forall k | 4 <= k < 8 ensures Code(Symbols[n] ^ Bits[k]) == Code(Symbols[n]) {
      if k == 4 { assert Code(0x23) == 3; }
      else if k == 5 { assert Code(0x13) == 3; }
      else if k == 6 { assert Code(0x73) == 3; }
      else { assert Code(0xb3) == 3; }
    }
  }

  lemma Corrects4Low(n: nat)
    requires n == 4
    ensures Code(Symbols[n]) == 4
    ensures forall k | 0 <= k < 4 :: Code(Symbols[n] ^ Bits[k]) == Code(Symbols[n])
  {
    assert Symbols[n] == 0x42;
    assert Code(0x42) == 4;
    forall k | 0 <= k < 4 ensures Code(Symbols[n] ^ Bits[k]) == Code(Symbols[n]) {
      if k == 0 { assert Code(0x43) == 4; }
      else if k == 1 { assert Code(0x40) == 4; }
      else if k == 2 { assert Code(0x46) == 4; }
      else { assert Code(0x4a) == 4; }
    }
  }

  lemma Corrects4High(n: nat)
    requires n == 4
    ensures forall k | 4 <= k < 8 :: Code(Symbols[n] ^ Bits[k]) == Code(Symbols[n])
  {
    assert Symbols[n] == 0x42;
    assert Code(0x42) == 4;
    forall k | 4 <= k < 8 ensures Code(Symbols[n] ^ Bits[k]) == Code(Symbols[n]) {
      if k == 4 { assert Code(0x52) == 4; }
      else if k == 5 { assert Code(0x62) == 4; }
      else if k == 6 { assert Code(0x02) == 4; }
      else { assert Code(0xc2) == 4; }
    }
  }

  lemma Corrects5Low(n: nat)
    requires n == 5
    ensures Code(Symbols[n]) == 5
    ensures forall k | 0 <= k < 4 :: Code(Symbols[n] ^ Bits[k]) == Code(Symbols[n])
  {
    assert Symbols[n] == 0x55;
    assert Code(0x55) == 5;
    forall k | 0 <= k < 4 ensures Code(Symbols[n] ^ Bits[k]) == Code(Symbols[n]) {
      if k == 0 { assert Code(0x54) == 5; }
      else if k == 1 { assert Code(0x57) == 5; }
      else if k == 2 { assert Code(0x51) == 5; }
      else { assert Code(0x5d) == 5; }
    }
  }

  lemma Corrects5High(n: nat)
    requires n == 5
    ensures forall k | 4 <= k < 8 :: Code(Symbols[n] ^ Bits[k]) == Code(Symbols[n])
  {
    assert Symbols[n] == 0x55;
    assert Code(0x55) == 5;
    forall k | 4 <= k < 8 ensures Code(Symbols[n] ^ Bits[k]) == Code(Symbols[n]) {
      if k == 4 { assert Code(0x45) == 5; }
      else if k == 5 { assert Code(0x75) == 5; }
      else if k == 6 { assert Code(0x15) == 5; }
      else { assert Code(0xd5) == 5; }
    }
  }

  lemma Corrects6Low(n: nat)
    requires n == 6
    ensures Code(Symbols[n]) == 6
    ensures forall k | 0 <= k < 4 :: Code(Symbols[n] ^ Bits[k]) == Code(Symbols[n])
  {
    assert Symbols[n] == 0x69;
    assert Code(0x69) == 6;
    forall k | 0 <= k < 4 ensures Code(Symbols[n] ^ Bits[k]) == Code(Symbols[n]) {
      if k == 0 { assert Code(0x68) == 6; }
      else if k == 1 { assert Code(0x6b) == 6; }
      else if k == 2 { assert Code(0x6d) == 6; }
      else { assert Code(0x61) == 6; }
    }
  }

  lemma Corrects6High(n: nat)
    requires n == 6
    ensures forall k | 4 <= k < 8 :: Code(Symbols[n] ^ Bits[k]) == Code(Symbols[n])
  {
    assert Symbols[n] == 0x69;
    assert Code(0x69) == 6;
    forall k | 4 <= k < 8 ensures Code(Symbols[n] ^ Bits[k]) == Code(Symbols[n]) {
      if k == 4 { assert Code(0x79) == 6; }
      else if k == 5 { assert Code(0x49) == 6; }
      else if k == 6 { assert Code(0x29) == 6; }
      else { assert Code(0xe9) == 6; }
    }
  }

  lemma Corrects7Low(n: nat)
    requires n == 7
    ensures Code(Symbols[n]) == 7
    ensures forall k | 0 <= k < 4 :: Code(Symbols[n] ^ Bits[k]) == Code(Symbols[n])
  {
    assert Symbols[n] == 0x7e;
    assert Code(0x7e) == 7;
    forall k | 0 <= k < 4 ensures Code(Symbols[n] ^ Bits[k]) == Code(Symbols[n]) {
      if k == 0 { assert Code(0x7f) == 7; }
      else if k == 1 { assert Code(0x7c) == 7; }
      else if k == 2 { assert Code(0x7a) == 7; }
      else { assert Code(0x76) == 7; }
    }
  }

  lemma Corrects7High(n: nat)
    requires n == 7
    ensures forall k | 4 <= k < 8 :: Code(Symbols[n] ^ Bits[k]) == Code(Symbols[n])
  {
    assert Symbols[n] == 0x7e;
    assert Code(0x7e) == 7;
    forall k | 4 <= k < 8 ensures Code(Symbols[n] ^ Bits[k]) == Code(Symbols[n]) {
      if k == 4 { assert Code(0x6e) == 7; }
      else if k == 5 { assert Code(0x5e) == 7; }
      else if k == 6 { assert Code(0x3e) == 7; }
      else { assert Code(0xfe) == 7; }
    }
  }

  lemma Corrects8Low(n: nat)
    requires n == 8
    ensures Code(Symbols[n]) == 8
    ensures forall k | 0 <= k < 4 :: Code(Symbols[n] ^ Bits[k]) == Code(Symbols[n])
  {
    assert Symbols[n] == 0x81;
    assert Code(0x81) == 8;
    forall k | 0 <= k < 4 ensures Code(Symbols[n] ^ Bits[k]) == Code(Symbols[n]) {
      if k == 0 { assert Code(0x80) == 8; }
      else if k == 1 { assert Code(0x83) == 8; }
      else if k == 2 { assert Code(0x85) == 8; }
      else { assert Code(0x89) == 8; }
    }
  }

  lemma Corrects8High(n: nat)
    requires n == 8
    ensures forall k | 4 <= k < 8 :: Code(Symbols[n] ^ Bits[k]) == Code(Symbols[n])
  {
    assert Symbols[n] == 0x81;
    assert Code(0x81) == 8;
    forall k | 4 <= k < 8 ensures Code(Symbols[n] ^ Bits[k]) == Code(Symbols[n]) {
      if k == 4 { assert Code(0x91) == 8; }
      else if k == 5 { assert Code(0xa1) == 8; }
      else if k == 6 { assert Code(0xc1) == 8; }
      else { assert Code(0x01) == 8; }
    }
  }

  lemma Corrects9Low(n: nat)
    requires n == 9
    ensures Code(Symbols[n]) == 9
    ensures forall k | 0 <= k < 4 :: Code(Symbols[n] ^ Bits[k]) == Code(Symbols[n])
  {
    assert Symbols[n] == 0x96;
    assert Code(0x96) == 9;
    forall k | 0 <= k < 4 ensures Code(Symbols[n] ^ Bits[k]) == Code(Symbols[n]) {
      if k == 0 { assert Code(0x97) == 9; }
      else if k == 1 { assert Code(0x94) == 9; }
      else if k == 2 { assert Code(0x92) == 9; }
      else { assert Code(0x9e) == 9; }
    }
  }

  lemma Corrects9High(n: nat)
    requires n == 9
    ensures forall k | 4 <= k < 8 :: Code(Symbols[n] ^ Bits[k]) == Code(Symbols[n])
  {
    assert Symbols[n] == 0x96;
    assert Code(0x96) == 9;
    forall k | 4 <= k < 8 ensures Code(Symbols[n] ^ Bits[k]) == Code(Symbols[n]) {
      if k == 4 { assert Code(0x86) == 9; }
      else if k == 5 { assert Code(0xb6) == 9; }
      else if k == 6 { assert Code(0xd6) == 9; }
      else { assert Code(0x16) == 9; }
    }
  }

  lemma Corrects10Low(n: nat)
    requires n == 10
    ensures Code(Symbols[n]) == 10
    ensures forall k | 0 <= k < 4 :: Code(Symbols[n] ^ Bits[k]) == Code(Symbols[n])
  {
    assert Symbols[n] == 0xaa;
    assert Code(0xaa) == 10;
    forall k | 0 <= k < 4 ensures Code(Symbols[n] ^ Bits[k]) == Code(Symbols[n]) {
      if k == 0 { assert Code(0xab) == 10; }
      else if k == 1 { assert Code(0xa8) == 10; }
      else if k == 2 { assert Code(0xae) == 10; }
      else { assert Code(0xa2) == 10; }
    }
  }

  lemma Corrects10High(n: nat)
    requires n == 10
    ensures forall k | 4 <= k < 8 :: Code(Symbols[n] ^ Bits[k]) == Code(Symbols[n])
  {
    assert Symbols[n] == 0xaa;
    assert Code(0xaa) == 10;
    forall k | 4 <= k < 8 ensures Code(Symbols[n] ^ Bits[k]) == Code(Symbols[n]) {
      if k == 4 { assert Code(0xba) == 10; }
      else if k == 5 { assert Code(0x8a) == 10; }
      else if k == 6 { assert Code(0xea) == 10; }
      else { assert Code(0x2a) == 10; }
    }
  }

  lemma Corrects11Low(n: nat)
    requires n == 11
    ensures Code(Symbols[n]) == 11
    ensures forall k | 0 <= k < 4 :: Code(Symbols[n] ^ Bits[k]) == Code(Symbols[n])
  {
    assert Symbols[n] == 0xbd;
    assert Code(0xbd) == 11;
    forall k | 0 <= k < 4 ensures Code(Symbols[n] ^ Bits[k]) == Code(Symbols[n]) {
      if k == 0 { assert Code(0xbc) == 11; }
      else if k == 1 { assert Code(0xbf) == 11; }
      else if k == 2 { assert Code(0xb9) == 11; }
      else { assert Code(0xb5) == 11; }
    }
  }

  lemma Corrects11High(n: nat)
    requires n == 11
    ensures forall k | 4 <= k < 8 :: Code(Symbols[n] ^ Bits[k]) == Code(Symbols[n])
  {
    assert Symbols[n] == 0xbd;
    assert Code(0xbd) == 11;
    forall k | 4 <= k < 8 ensures Code(Symbols[n] ^ Bits[k]) == Code(Symbols[n]) {
      if k == 4 { assert Code(0xad) == 11; }
      else if k == 5 { assert Code(0x9d) == 11; }
      else if k == 6 { assert Code(0xfd) == 11; }
      else { assert Code(0x3d) == 11; }
    }
  }

  lemma Corrects12Low(n: nat)
    requires n == 12
    ensures Code(Symbols[n]) == 12
    ensures forall k | 0 <= k < 4 :: Code(Symbols[n] ^ Bits[k]) == Code(Symbols[n])
  {
    assert Symbols[n] == 0xcc;
    assert Code(0xcc) == 12;
    forall k | 0 <= k < 4 ensures Code(Symbols[n] ^ Bits[k]) == Code(Symbols[n]) {
      if k == 0 { assert Code(0xcd) == 12; }
      else if k == 1 { assert Code(0xce) == 12; }
      else if k == 2 { assert Code(0xc8) == 12; }
      else { assert Code(0xc4) == 12; }
    }
  }

  lemma Corrects12High(n: nat)
    requires n == 12
    ensures forall k | 4 <= k < 8 :: Code(Symbols[n] ^ Bits[k]) == Code(Symbols[n])
  {
    assert Symbols[n] == 0xcc;
    assert Code(0xcc) == 12;
    forall k | 4 <= k < 8 ensures Code(Symbols[n] ^ Bits[k]) == Code(Symbols[n]) {
      if k == 4 { assert Code(0xdc) == 12; }
      else if k == 5 { assert Code(0xec) == 12; }
      else if k == 6 { assert Code(0x8c) == 12; }
      else { assert Code(0x4c) == 12; }
    }
  }

  lemma Corrects13Low(n: nat)
    requires n == 13
    ensures Code(Symbols[n]) == 13
    ensures forall k | 0 <= k < 4 :: Code(Symbols[n] ^ Bits[k]) == Code(Symbols[n])
  {
    assert Symbols[n] == 0xdb;
    assert Code(0xdb) == 13;
    forall k | 0 <= k < 4 ensures Code(Symbols[n] ^ Bits[k]) == Code(Symbols[n]) {
      if k == 0 { assert Code(0xda) == 13; }
      else if k == 1 { assert Code(0xd9) == 13; }
      else if k == 2 { assert Code(0xdf) == 13; }
      else { assert Code(0xd3) == 13; }
    }
  }

  lemma Corrects13High(n: nat)
    requires n == 13
    ensures forall k | 4 <= k < 8 :: Code(Symbols[n] ^ Bits[k]) == Code(Symbols[n])
  {
    assert Symbols[n] == 0xdb;
    assert Code(0xdb) == 13;
    forall k | 4 <= k < 8 ensures Code(Symbols[n] ^ Bits[k]) == Code(Symbols[n]) {
      if k == 4 { assert Code(0xcb) == 13; }
      else if k == 5 { assert Code(0xfb) == 13; }
      else if k == 6 { assert Code(0x9b) == 13; }
      else { assert Code(0x5b) == 13; }
    }
  }

  lemma Corrects14Low(n: nat)
    requires n == 14
    ensures Code(Symbols[n]) == 14
    ensures forall k | 0 <= k < 4 :: Code(Symbols[n] ^ Bits[k]) == Code(Symbols[n])
  {
    assert Symbols[n] == 0xe7;
    assert Code(0xe7) == 14;
    forall k | 0 <= k < 4 ensures Code(Symbols[n] ^ Bits[k]) == Code(Symbols[n]) {
      if k == 0 { assert Code(0xe6) == 14; }
      else if k == 1 { assert Code(0xe5) == 14; }
      else if k == 2 { assert Code(0xe3) == 14; }
      else { assert Code(0xef) == 14; }
    }
  }

  lemma Corrects14High(n: nat)
    requires n == 14
    ensures forall k | 4 <= k < 8 :: Code(Symbols[n] ^ Bits[k]) == Code(Symbols[n])
  {
    assert Symbols[n] == 0xe7;
    assert Code(0xe7) == 14;
    forall k | 4 <= k < 8 ensures Code(Symbols[n] ^ Bits[k]) == Code(Symbols[n]) {
      if k == 4 { assert Code(0xf7) == 14; }
      else if k == 5 { assert Code(0xc7) == 14; }
      else if k == 6 { assert Code(0xa7) == 14; }
      else { assert Code(0x67) == 14; }
    }
  }

  lemma Corrects15Low(n: nat)
    requires n == 15
    ensures Code(Symbols[n]) == 15
    ensures forall k | 0 <= k < 4 :: Code(Symbols[n] ^ Bits[k]) == Code(Symbols[n])
  {
    assert Symbols[n] == 0xf0;
    assert Code(0xf0) == 15;
    forall k | 0 <= k < 4 ensures Code(Symbols[n] ^ Bits[k]) == Code(Symbols[n]) {
      if k == 0 { assert Code(0xf1) == 15; }
      else if k == 1 { assert Code(0xf2) == 15; }
      else if k == 2 { assert Code(0xf4) == 15; }
      else { assert Code(0xf8) == 15; }
    }
  }

  lemma Corrects15High(n: nat)
    requires n == 15
    ensures forall k | 4 <= k < 8 :: Code(Symbols[n] ^ Bits[k]) == Code(Symbols[n])
  {
    assert Symbols[n] == 0xf0;
    assert Code(0xf0) == 15;
    forall k | 4 <= k < 8 ensures Code(Symbols[n] ^ Bits[k]) == Code(Symbols[n]) {
      if k == 4 { assert Code(0xe0) == 15; }
      else if k == 5 { assert Code(0xd0) == 15; }
      else if k == 6 { assert Code(0xb0) == 15; }
      else { assert Code(0x70) == 15; }
    }
  }

  /** Syndrome-table round trip: a symbol decodes to the value it encodes, with a zero syndrome. */
  lemma DecodeEncode()
    ensures forall n | 0 <= n < 16 :: Code(Symbols[n]) as int == n && Syndrome(Symbols[n]) == 0
  {
    SyndromeZeroIffSymbol();
    forall n | 0 <= n < 16 ensures Code(Symbols[n]) as int == n && Syndrome(Symbols[n]) == 0 {
      if n == 0 { Corrects0Low(n); }
      else if n == 1 { Corrects1Low(n); }
      else if n == 2 { Corrects2Low(n); }
      else if n == 3 { Corrects3Low(n); }
      else if n == 4 { Corrects4Low(n); }
      else if n == 5 { Corrects5Low(n); }
      else if n == 6 { Corrects6Low(n); }
      else if n == 7 { Corrects7Low(n); }
      else if n == 8 { Corrects8Low(n); }
      else if n == 9 { Corrects9Low(n); }
      else if n == 10 { Corrects10Low(n); }
      else if n == 11 { Corrects11Low(n); }
      else if n == 12 { Corrects12Low(n); }
      else if n == 13 { Corrects13Low(n); }
      else if n == 14 { Corrects14Low(n); }
      else { Corrects15Low(n); }
    }
  }

  lemma SingleBitKeepsCodeAt(n: nat)
    requires n < 16
    ensures forall k | 0 <= k < 8 :: Code(Symbols[n] ^ Bits[k]) == Code(Symbols[n])
  {
    if n == 0 { Corrects0Low(n); Corrects0High(n); }
    else if n == 1 { Corrects1Low(n); Corrects1High(n); }
    else if n == 2 { Corrects2Low(n); Corrects2High(n); }
    else if n == 3 { Corrects3Low(n); Corrects3High(n); }
    else if n == 4 { Corrects4Low(n); Corrects4High(n); }
    else if n == 5 { Corrects5Low(n); Corrects5High(n); }
    else if n == 6 { Corrects6Low(n); Corrects6High(n); }
    else if n == 7 { Corrects7Low(n); Corrects7High(n); }
    else if n == 8 { Corrects8Low(n); Corrects8High(n); }
    else if n == 9 { Corrects9Low(n); Corrects9High(n); }
    else if n == 10 { Corrects10Low(n); Corrects10High(n); }
    else if n == 11 { Corrects11Low(n); Corrects11High(n); }
    else if n == 12 { Corrects12Low(n); Corrects12High(n); }
    else if n == 13 { Corrects13Low(n); Corrects13High(n); }
    else if n == 14 { Corrects14Low(n); Corrects14High(n); }
    else { Corrects15Low(n); Corrects15High(n); }
  }


  lemma SingleBitKeepsCode()
    ensures forall n, k | 0 <= n < 16 && 0 <= k < 8 :: Code(Symbols[n] ^ Bits[k]) == Code(Symbols[n])
  {
    forall n | 0 <= n < 16 ensures forall k | 0 <= k < 8 :: Code(Symbols[n] ^ Bits[k]) == Code(Symbols[n]) {
      SingleBitKeepsCodeAt(n);
    }
  }


  /** Every single-bit error in a symbol is corrected: flipping any one of its eight bits still decodes to the same value. */
  lemma SingleBitCorrection()
    ensures forall n, k | 0 <= n < 16 && 0 <= k < 8 :: Code(Symbols[n] ^ Bits[k]) as int == n
  {
    DecodeEncode();
    SingleBitKeepsCode();
  }

  lemma BitsHaveWeightOne()
    ensures forall k | 0 <= k < 8 :: Weight(Bits[k]) == 1
  {
  }

  /** A symbol with one bit flipped is never a symbol, because symbols are at least four bits apart. */
  lemma FlippedSymbolIsNoSymbol()
    ensures forall n, k | 0 <= n < 16 && 0 <= k < 8 :: Symbols[n] ^ Bits[k] !in Symbols
  {
    MinimumDistance();
    BitsHaveWeightOne();
  }

  /** A single-bit error in a symbol is always detected: its syndrome is nonzero. */
  lemma SingleBitErrorDetected()
    ensures forall n, k | 0 <= n < 16 && 0 <= k < 8 :: Syndrome(Symbols[n] ^ Bits[k]) != 0
  {
    SyndromeZeroIffSymbol();
    FlippedSymbolIsNoSymbol();
  }

  lemma PackedSymbolsLow()
    ensures Lookup128(Symbols[0]) == 0x00 &&
      Lookup128(Symbols[1]) == 0x11 &&
      Lookup128(Symbols[2]) == 0x22 &&
      Lookup128(Symbols[3]) == 0x33 &&
      Lookup128(Symbols[4]) == 0x44 &&
      Lookup128(Symbols[5]) == 0x55 &&
      Lookup128(Symbols[6]) == 0x66 &&
      Lookup128(Symbols[7]) == 0x77
  {
  }

  lemma PackedSymbolsHigh()
    ensures Lookup128(Symbols[8]) == 0x88 &&
      Lookup128(Symbols[9]) == 0x99 &&
      Lookup128(Symbols[10]) == 0xaa &&
      Lookup128(Symbols[11]) == 0xbb &&
      Lookup128(Symbols[12]) == 0xcc &&
      Lookup128(Symbols[13]) == 0xdd &&
      Lookup128(Symbols[14]) == 0xee &&
      Lookup128(Symbols[15]) == 0xff
  {
  }

  lemma PackedMatchesCode()
    ensures forall n | 0 <= n < 16 :: Lookup128(Symbols[n]) >> 4 == Code(Symbols[n]) && Lookup128(Symbols[n]) & 0xF == Code(Symbols[n])
  {
    PackedSymbolsLow();
    PackedSymbolsHigh();
    forall n | 0 <= n < 16 ensures Lookup128(Symbols[n]) >> 4 == Code(Symbols[n]) && Lookup128(Symbols[n]) & 0xF == Code(Symbols[n]) {
      if n == 0 { Corrects0Low(n); }
      else if n == 1 { Corrects1Low(n); }
      else if n == 2 { Corrects2Low(n); }
      else if n == 3 { Corrects3Low(n); }
      else if n == 4 { Corrects4Low(n); }
      else if n == 5 { Corrects5Low(n); }
      else if n == 6 { Corrects6Low(n); }
      else if n == 7 { Corrects7Low(n); }
      else if n == 8 { Corrects8Low(n); }
      else if n == 9 { Corrects9Low(n); }
      else if n == 10 { Corrects10Low(n); }
      else if n == 11 { Corrects11Low(n); }
      else if n == 12 { Corrects12Low(n); }
      else if n == 13 { Corrects13Low(n); }
      else if n == 14 { Corrects14Low(n); }
      else { Corrects15Low(n); }
    }
  }

  /** Nibble-packed table: both nibbles of the entry for a symbol hold the value it encodes, so either nibble decodes it. */
  lemma PackedDecodeEncode()
    ensures forall n | 0 <= n < 16 :: (Lookup128(Symbols[n]) >> 4) as int == n && (Lookup128(Symbols[n]) & 0xF) as int == n
  {
    DecodeEncode();
    PackedMatchesCode();
  }

  /** The preamble is seven 0x55 bytes, which is the symbol for 5, then 0x5a, which is no symbol. */
  lemma PreambleShape()
    ensures |Preamble| == 8 && Preamble[7] == 0x5a
    ensures forall i | 0 <= i < 7 :: Preamble[i] == 0x55 == Symbols[5]
    ensures Syndrome(Preamble[7]) != 0 && Syndrome(Preamble[0]) == 0
  {
  }
}
