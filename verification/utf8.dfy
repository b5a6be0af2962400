/** The UTF-8 decoder of flb_utf8.h, against sections 3 and 4 of RFC 3629. */
module Utf8 {
  import opened Bits
  import opened Prelude

  const U32: nat := 0x1_0000_0000

  const ACCEPT: nat := 0
  const REJECT: nat := 1

  // ------------------------------------------------------------ the tables, row by row

  const CLASSES_80: seq<nat> := [1,1,1,1,1,1,1,1,1,1,1,1,1,1,1,1, 9,9,9,9,9,9,9,9,9,9,9,9,9,9,9,9]
  const CLASSES_C0: seq<nat> := [8,8,2,2,2,2,2,2,2,2,2,2,2,2,2,2, 2,2,2,2,2,2,2,2,2,2,2,2,2,2,2,2]
  const CLASSES_E0: seq<nat> := [0xa,0x3,0x3,0x3,0x3,0x3,0x3,0x3,0x3,0x3,0x3,0x3,0x3,0x4,0x3,0x3]
  const CLASSES_F0: seq<nat> := [0xb,0x6,0x6,0x6,0x5,0x8,0x8,0x8,0x8,0x8,0x8,0x8,0x8,0x8,0x8,0x8]

  const STATE_0: seq<nat> := [0x0,0x1,0x2,0x3,0x5,0x8,0x7,0x1,0x1,0x1,0x4,0x6,0x1,0x1,0x1,0x1]
  const STATE_1: seq<nat> := [1,1,1,1,1,1,1,1,1,1,1,1,1,1,1,1]
  const STATE_2: seq<nat> := [1,0,1,1,1,1,1,0,1,0,1,1,1,1,1,1]
  const STATE_3: seq<nat> := [1,2,1,1,1,1,1,2,1,2,1,1,1,1,1,1]
  const STATE_4: seq<nat> := [1,1,1,1,1,1,1,2,1,1,1,1,1,1,1,1]
  const STATE_5: seq<nat> := [1,2,1,1,1,1,1,1,1,2,1,1,1,1,1,1]
  const STATE_6: seq<nat> := [1,1,1,1,1,1,1,3,1,3,1,1,1,1,1,1]
  const STATE_7: seq<nat> := [1,3,1,1,1,1,1,3,1,3,1,1,1,1,1,1]
  const STATE_8: seq<nat> := [1,3,1,1,1,1,1,1,1,1,1,1,1,1,1,1]

  /** utf8d, the first 256 entries: the class of a byte. */
  function ClassOf(b: Byte): (c: nat)
    ensures c < 12
  {
    if b < 0x80 then 0
    else if b < 0xA0 then CLASSES_80[b - 0x80]
    else if b < 0xC0 then 7
    else if b < 0xE0 then CLASSES_C0[b - 0xC0]
    else if b < 0xF0 then CLASSES_E0[b - 0xE0]
    else CLASSES_F0[b - 0xF0]
  }

  /** utf8d, the rest: 256 + 16 * state + class. */
  function Transition(state: nat, c: nat): (s: nat)
    requires state < 9 && c < 12
    ensures s < 9
  {
    [STATE_0, STATE_1, STATE_2, STATE_3, STATE_4, STATE_5, STATE_6, STATE_7, STATE_8][state][c]
  }

  // ------------------------------------------------------------ the decoder

  /** flb_utf8_decode's two cells, and the code points completed so far. */
  datatype Decoder = Decoder(state: nat, codep: nat, out: seq<nat>)

  predicate Proper(d: Decoder) {
    d.state < 9
  }

  /** The `*codep = ...` assignment on uint32_t. */
  function NextCodep(d: Decoder, b: Byte): nat
    requires Proper(d)
  {
    if d.state != ACCEPT then Or(And(b, 0x3f), Shl(d.codep, 6) % U32)
    else And(Shr(0xff, ClassOf(b)), b)
  }

  /** flb_utf8_decode; a code point is complete when it returns ACCEPT. */
  function Feed(d: Decoder, b: Byte): (r: Decoder)
    requires Proper(d)
    ensures Proper(r)
  {
    var codep := NextCodep(d, b);
    var state := Transition(d.state, ClassOf(b));
    Decoder(state, codep, if state == ACCEPT then d.out + [codep] else d.out)
  }

  function Run(d: Decoder, s: seq<Byte>): (r: Decoder)
    requires Proper(d)
    ensures Proper(r)
    decreases |s|
  {
    if s == [] then d else Run(Feed(d, s[0]), s[1..])
  }

  /** Decoding a whole string; `codep` starts uninitialised. */
  function Decode(s: seq<Byte>, codep: nat): Decoder {
    Run(Decoder(ACCEPT, codep, []), s)
  }

  /** flb_utf8_check: is this the first byte of a character? */
  predicate Check(c: Byte) {
    And(c, 0xC0) != 0x80
  }

  const TRAILING_F0: seq<nat> := [3,3,3,3,3,3,3,3,4,4,4,4,5,5,5,5]

  /** flb_utf8_len, from the table trailingBytesForUTF8. */
  function Utf8Len(lead: Byte): nat {
    1 + if lead < 0xC0 then 0 else if lead < 0xE0 then 1 else if lead < 0xF0 then 2 else TRAILING_F0[lead - 0xF0]
  }

  lemma Fits(x: nat)
    requires x < U32
    ensures x % U32 == x
  {
  }

  /** The bit operations as arithmetic, inside a character: six more bits, as long as 32 bits
      are enough. */
  lemma TailCodep(d: Decoder, b: Byte)
    requires Proper(d) && d.state != ACCEPT && d.codep < 0x400_0000 && 0x80 <= b < 0xC0
    ensures NextCodep(d, b) == d.codep * 0x40 + (b - 0x80)
  {
    var high := Shl(d.codep, 6);
    assert NextCodep(d, b) == Or(And(b, 0x3f), high % U32);
    assert Pow2(6) == 64;
    hide NextCodep, Shl, And, Or, Pow2;
    TailBits(b);
    ShlBy6(d.codep);
    Fits(high);
    OrCommutes(b - 0x80, high);
    OrDisjoint(d.codep, b - 0x80, 6);
  }

  /** At the start of a character: the low bits of the byte, fewer the higher its class. */
  lemma LeadCodep(d: Decoder, b: Byte)
    requires d.state == ACCEPT
    ensures NextCodep(d, b) == Low(b, if ClassOf(b) <= 8 then 8 - ClassOf(b) else 0)
  {
    var c := ClassOf(b);
    hide ClassOf;
    LeadMask(c);
    AndCommutes(Shr(0xff, c), b);
    AndMask(b, if c <= 8 then 8 - c else 0);
    hide Shr, Low, And, Pow2;
  }

  lemma TailBits(b: nat)
    requires 0x80 <= b < 0xC0
    ensures And(b, 0x3f) == b - 0x80
  {
    assert Pow2(6) == 64;
    AndMask(b, 6);
    ShlBy6(2);
    SplitSum(2, b - 0x80, 6);
  }

  lemma LeadMask(c: nat)
    requires c < 12
    ensures Shr(0xff, c) == Pow2(if c <= 8 then 8 - c else 0) - 1
  {
    assert Pow2(1) == 2 && Pow2(2) == 4 && Pow2(3) == 8 && Pow2(4) == 16;
    assert Pow2(5) == 32 && Pow2(6) == 64 && Pow2(7) == 128 && Pow2(8) == 256;
    assert c == 0 || c == 1 || c == 2 || c == 3 || c == 4 || c == 5 || c == 6 || c == 7 || c == 8 || c == 9 || c == 10 || c == 11;
  }
}
