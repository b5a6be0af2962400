/** The UTF-8 encoding of RFC 3629, written from the standard, and the proof that the decoder's
    tables implement it: which strings are accepted, and what comes out. */
module Utf8Rfc3629 {
  import opened Utf8
  import opened Bits
  import opened Prelude

  // ------------------------------------------------------------ section 4: the grammar

  predicate Tail(b: Byte) {
    0x80 <= b <= 0xBF
  }

  /** UTF8-char: exactly one character. */
  predicate IsChar(s: seq<Byte>) {
    || (|s| == 1 && s[0] <= 0x7F)
    || (|s| == 2 && 0xC2 <= s[0] <= 0xDF && Tail(s[1]))
    || (|s| == 3 && s[0] == 0xE0 && 0xA0 <= s[1] <= 0xBF && Tail(s[2]))
    || (|s| == 3 && 0xE1 <= s[0] <= 0xEC && Tail(s[1]) && Tail(s[2]))
    || (|s| == 3 && s[0] == 0xED && 0x80 <= s[1] <= 0x9F && Tail(s[2]))
    || (|s| == 3 && 0xEE <= s[0] <= 0xEF && Tail(s[1]) && Tail(s[2]))
    || (|s| == 4 && s[0] == 0xF0 && 0x90 <= s[1] <= 0xBF && Tail(s[2]) && Tail(s[3]))
    || (|s| == 4 && 0xF1 <= s[0] <= 0xF3 && Tail(s[1]) && Tail(s[2]) && Tail(s[3]))
    || (|s| == 4 && s[0] == 0xF4 && 0x80 <= s[1] <= 0x8F && Tail(s[2]) && Tail(s[3]))
  }

  /** UTF8-octets: any number of characters. */
  ghost predicate WellFormed(s: seq<Byte>)
    decreases |s|
  {
    s == [] || exists n :: 1 <= n <= |s| && IsChar(s[..n]) && WellFormed(s[n..])
  }

  // ------------------------------------------------------------ section 3: the code points

  predicate IsScalar(c: nat) {
    c <= 0x10FFFF && !(0xD800 <= c <= 0xDFFF)
  }

  /** The bits of the character number, most significant first, spread over the octets. */
  function Encode(c: nat): (s: seq<Byte>)
    requires IsScalar(c)
  {
    var c1 := c / 0x40;
    var c2 := c1 / 0x40;
    var c3 := c2 / 0x40;
    if c <= 0x7F then [c]
    else if c <= 0x7FF then [0xC0 + c1, 0x80 + c % 0x40]
    else if c <= 0xFFFF then [0xE0 + c2, 0x80 + c1 % 0x40, 0x80 + c % 0x40]
    else [0xF0 + c3, 0x80 + c2 % 0x40, 0x80 + c1 % 0x40, 0x80 + c % 0x40]
  }

  function EncodeAll(cs: seq<nat>): seq<Byte>
    requires forall i :: 0 <= i < |cs| ==> IsScalar(cs[i])
  {
    if cs == [] then [] else Encode(cs[0]) + EncodeAll(cs[1..])
  }

  /** One more continuation octet 10xxxxxx: six more bits. */
  function More(codep: nat, b: nat): nat
    requires b >= 0x80
  {
    codep * 0x40 + (b - 0x80)
  }

  /** The number a character encodes: its octets without their markers 0, 110, 1110, 11110
      and 10, put together. */
  function Value(s: seq<Byte>): nat
    requires IsChar(s)
  {
    if |s| == 1 then s[0]
    else if |s| == 2 then More(s[0] - 0xC0, s[1])
    else if |s| == 3 then More(More(s[0] - 0xE0, s[1]), s[2])
    else More(More(More(s[0] - 0xF0, s[1]), s[2]), s[3])
  }

  lemma Split(high: nat, low: nat)
    requires low < 0x40
    ensures (high * 0x40 + low) / 0x40 == high && (high * 0x40 + low) % 0x40 == low
  {
  }

  lemma Encode1(a: nat)
    requires a < 0x80
    ensures IsScalar(a) && Encode(a) == [a]
  {
  }

  lemma Encode2(a: nat, b: nat)
    requires 2 <= a < 0x20 && b < 0x40
    ensures IsScalar(a * 0x40 + b) && Encode(a * 0x40 + b) == [0xC0 + a, 0x80 + b]
  {
    Split(a, b);
  }

  lemma Encode3(a: nat, b: nat, c: nat)
    requires a < 0x10 && b < 0x40 && c < 0x40
    requires (a == 0 ==> b >= 0x20) && (a == 0xD ==> b < 0x20)
    ensures var v := (a * 0x40 + b) * 0x40 + c;
            IsScalar(v) && Encode(v) == [0xE0 + a, 0x80 + b, 0x80 + c]
  {
    Split(a, b);
    Split(a * 0x40 + b, c);
  }

  lemma Encode4(a: nat, b: nat, c: nat, d: nat)
    requires a < 5 && b < 0x40 && c < 0x40 && d < 0x40
    requires (a == 0 ==> b >= 0x10) && (a == 4 ==> b < 0x10)
    ensures var v := ((a * 0x40 + b) * 0x40 + c) * 0x40 + d;
            IsScalar(v) && Encode(v) == [0xF0 + a, 0x80 + b, 0x80 + c, 0x80 + d]
  {
    Split(a, b);
    Split(a * 0x40 + b, c);
    Split((a * 0x40 + b) * 0x40 + c, d);
  }

  /** Sections 3 and 4 agree: one character is the encoding of its value, a scalar value. */
  lemma CharIsEncoding(s: seq<Byte>)
    requires IsChar(s)
    ensures IsScalar(Value(s)) && Encode(Value(s)) == s
  {
    hide Encode, IsScalar;
    if |s| == 1 {
      Encode1(s[0]);
    } else if |s| == 2 {
      Encode2(s[0] - 0xC0, s[1] - 0x80);
    } else if |s| == 3 {
      Encode3(s[0] - 0xE0, s[1] - 0x80, s[2] - 0x80);
    } else {
      Encode4(s[0] - 0xF0, s[1] - 0x80, s[2] - 0x80, s[3] - 0x80);
    }
  }

  /** The encoding of a scalar value is one character, and that value is its value. */
  lemma EncodingIsChar(c: nat)
    requires IsScalar(c)
    ensures IsChar(Encode(c)) && Value(Encode(c)) == c
  {
    var c1 := c / 0x40;
    var c2 := c1 / 0x40;
    var c3 := c2 / 0x40;
    assert c == c1 * 0x40 + c % 0x40 && c1 == c2 * 0x40 + c1 % 0x40 && c2 == c3 * 0x40 + c2 % 0x40;
  }

  // ------------------------------------------------------------ one character through the tables

  lemma Class80(b: Byte)
    requires 0x80 <= b < 0xC0
    ensures ClassOf(b) == if b < 0x90 then 1 else if b < 0xA0 then 9 else 7
  {
  }

  lemma ClassC0(b: Byte)
    requires 0xC0 <= b < 0xE0
    ensures ClassOf(b) == if b < 0xC2 then 8 else 2
  {
  }

  lemma ClassE0(b: Byte)
    requires 0xE0 <= b < 0xF0
    ensures ClassOf(b) == if b == 0xE0 then 10 else if b == 0xED then 4 else 3
  {
  }

  lemma ClassF0(b: Byte)
    requires 0xF0 <= b
    ensures ClassOf(b) == if b == 0xF0 then 11 else if b < 0xF4 then 6 else if b == 0xF4 then 5 else 8
  {
  }

  /** The powers and shifted markers the lead bytes need. */
  lemma Markers()
    ensures Pow2(0) == 1 && Pow2(2) == 4 && Pow2(3) == 8 && Pow2(4) == 16 && Pow2(5) == 32 && Pow2(6) == 64 && Pow2(8) == 256
    ensures Shl(0, 8) == 0 && Shl(3, 6) == 0xC0 && Shl(7, 5) == 0xE0 && Shl(14, 4) == 0xE0 && Shl(0xE0, 0) == 0xE0
    ensures Shl(0xF0, 0) == 0xF0 && Shl(0x3C, 2) == 0xF0 && Shl(0x1E, 3) == 0xF0
  {
  }

  lemma LowOf(b: nat, marker: nat, width: nat)
    requires Shl(marker, width) <= b < Shl(marker, width) + Pow2(width)
    ensures Low(b, width) == b - Shl(marker, width)
  {
    SplitSum(marker, b - Shl(marker, width), width);
  }

  /** The payload of a first octet, whatever its class: the marker is masked off. */
  lemma LeadValue(d: Decoder, b: Byte)
    requires d.state == ACCEPT
    ensures b < 0x80 ==> NextCodep(d, b) == b
    ensures 0xC2 <= b < 0xE0 ==> NextCodep(d, b) == b - 0xC0
    ensures 0xE0 <= b < 0xF0 ==> NextCodep(d, b) == b - 0xE0
    ensures 0xF0 <= b <= 0xF4 ==> NextCodep(d, b) == b - 0xF0
  {
    LeadCodep(d, b);
    Markers();
    hide NextCodep, Pow2, Shl, Low;
    if b < 0x80 {
      LowOf(b, 0, 8);
    } else if 0xC2 <= b < 0xE0 {
      ClassC0(b);
      LowOf(b, 3, 6);
    } else if 0xE0 <= b < 0xF0 {
      ClassE0(b);
      hide ClassOf;
      if b == 0xED {
        LowOf(b, 14, 4);
      } else if b == 0xE0 {
        LowOf(b, 0xE0, 0);
      } else {
        LowOf(b, 7, 5);
      }
    } else if 0xF0 <= b <= 0xF4 {
      ClassF0(b);
      hide ClassOf;
      if b == 0xF0 {
        LowOf(b, 0xF0, 0);
      } else if b < 0xF4 {
        LowOf(b, 0x3C, 2);
      } else {
        LowOf(b, 0x1E, 3);
      }
    }
  }

  function LeadNext(b: Byte): nat {
    if b < 0x80 then ACCEPT
    else if b < 0xC2 then REJECT
    else if b < 0xE0 then 2
    else if b < 0xF0 then (if b == 0xE0 then 4 else if b == 0xED then 5 else 3)
    else if b <= 0xF4 then (if b == 0xF0 then 6 else if b == 0xF4 then 8 else 7)
    else REJECT
  }

  lemma LeadTransition(b: Byte)
    ensures Transition(ACCEPT, ClassOf(b)) == LeadNext(b)
  {
    if b < 0x80 {
    } else if b < 0xC0 {
      Class80(b);
    } else if b < 0xE0 {
      ClassC0(b);
    } else if b < 0xF0 {
      ClassE0(b);
    } else {
      ClassF0(b);
    }
    hide ClassOf;
  }

  /** The step taken on the first octet of a character. */
  lemma LeadStep(d: Decoder, b: Byte)
    requires d.state == ACCEPT
    ensures Feed(d, b).state == LeadNext(b)
    ensures b < 0x80 ==> Feed(d, b) == Decoder(ACCEPT, b, d.out + [b])
    ensures 0xC2 <= b < 0xE0 ==> Feed(d, b) == Decoder(2, b - 0xC0, d.out)
    ensures 0xE0 <= b < 0xF0 ==> Feed(d, b) == Decoder(LeadNext(b), b - 0xE0, d.out)
    ensures 0xF0 <= b <= 0xF4 ==> Feed(d, b) == Decoder(LeadNext(b), b - 0xF0, d.out)
    ensures b >= 0x80 ==> Feed(d, b).out == d.out
  {
    LeadTransition(b);
    LeadValue(d, b);
    hide NextCodep, ClassOf, Transition;
  }

  /** Where the tables go inside a character: each state allows one range of octets. */
  function TailNext(state: nat, b: Byte): nat {
    if state == 2 && Tail(b) then ACCEPT
    else if state == 3 && Tail(b) then 2
    else if state == 4 && 0xA0 <= b <= 0xBF then 2
    else if state == 5 && 0x80 <= b <= 0x9F then 2
    else if state == 6 && 0x90 <= b <= 0xBF then 3
    else if state == 7 && Tail(b) then 3
    else if state == 8 && 0x80 <= b <= 0x8F then 3
    else REJECT
  }

  lemma TailTransition(state: nat, b: Byte)
    requires 1 <= state < 9
    ensures Transition(state, ClassOf(b)) == TailNext(state, b)
  {
    if b < 0x80 {
    } else if b < 0xC0 {
      Class80(b);
    } else if b < 0xE0 {
      ClassC0(b);
    } else if b < 0xF0 {
      ClassE0(b);
    } else {
      ClassF0(b);
    }
    hide ClassOf;
    var c := ClassOf(b);
    assert c in {1, 9, 7} <==> Tail(b);
  }

  lemma TailStep(d: Decoder, b: Byte)
    requires 1 <= d.state < 9
    ensures var f := Feed(d, b);
            && f.state == TailNext(d.state, b)
            && (d.codep < 0x400_0000 && Tail(b) ==> f.codep == d.codep * 0x40 + (b - 0x80))
            && f.out == if f.state == ACCEPT then d.out + [f.codep] else d.out
  {
    TailTransition(d.state, b);
    if d.codep < 0x400_0000 && Tail(b) {
      TailCodep(d, b);
    }
    hide NextCodep, ClassOf, Transition;
  }

  /** REJECT is absorbing. */
  lemma {:induction false} RejectAbsorbs(d: Decoder, s: seq<Byte>)
    requires d.state == REJECT
    ensures Run(d, s).state == REJECT && Run(d, s).out == d.out
    decreases |s|
  {
    if s != [] {
      TailStep(d, s[0]);
      RejectAbsorbs(Feed(d, s[0]), s[1..]);
    }
  }

  lemma {:induction false} RunAppend(d: Decoder, s: seq<Byte>, t: seq<Byte>)
    requires Proper(d)
    ensures Run(d, s + t) == Run(Run(d, s), t)
    decreases |s|
  {
    if s == [] {
      assert s + t == t;
    } else {
      assert (s + t)[1..] == s[1..] + t;
      RunAppend(Feed(d, s[0]), s[1..], t);
    }
  }

  // ------------------------------------------------------------ whole characters

  lemma RunFirst(d: Decoder, s: seq<Byte>)
    requires Proper(d) && s != []
    ensures Run(d, s) == Run(Feed(d, s[0]), s[1..])
  {
  }

  /** The last octet of a character. */
  lemma RunTail1(d: Decoder, s: seq<Byte>)
    requires d.state == 2 && d.codep < 0x400_0000 && |s| == 1 && Tail(s[0])
    ensures var v := More(d.codep, s[0]); Run(d, s) == Decoder(ACCEPT, v, d.out + [v])
  {
    RunFirst(d, s);
    TailStep(d, s[0]);
  }

  /** The last two octets. */
  lemma RunTail2(d: Decoder, s: seq<Byte>)
    requires 3 <= d.state <= 5 && d.codep < 0x10_0000 && |s| == 2
    requires TailNext(d.state, s[0]) == 2 && Tail(s[1])
    ensures var v := More(More(d.codep, s[0]), s[1]); Run(d, s) == Decoder(ACCEPT, v, d.out + [v])
  {
    RunFirst(d, s);
    TailStep(d, s[0]);
    hide Run, Feed, TailNext;
    RunTail1(Feed(d, s[0]), s[1..]);
  }

  /** The last three octets. */
  lemma RunTail3(d: Decoder, s: seq<Byte>)
    requires 6 <= d.state <= 8 && d.codep < 0x4000 && |s| == 3
    requires TailNext(d.state, s[0]) == 3 && Tail(s[1]) && Tail(s[2])
    ensures var v := More(More(More(d.codep, s[0]), s[1]), s[2]); Run(d, s) == Decoder(ACCEPT, v, d.out + [v])
  {
    RunFirst(d, s);
    TailStep(d, s[0]);
    hide Run, Feed, TailNext;
    RunTail2(Feed(d, s[0]), s[1..]);
  }

  /** A character takes the tables from ACCEPT to ACCEPT and yields its value. */
  lemma CharRuns(d: Decoder, s: seq<Byte>)
    requires d.state == ACCEPT && IsChar(s)
    ensures Run(d, s) == Decoder(ACCEPT, Value(s), d.out + [Value(s)])
  {
    RunFirst(d, s);
    LeadStep(d, s[0]);
    var d1 := Feed(d, s[0]);
    var t := s[1..];
    hide Feed, Run;
    if |s| == 1 {
      RunNone(d1);
      assert t == [];
    } else if |s| == 2 {
      RunTail1(d1, t);
    } else if |s| == 3 {
      assert TailNext(d1.state, t[0]) == 2 && Tail(t[1]);
      RunTail2(d1, t);
    } else {
      assert TailNext(d1.state, t[0]) == 3 && Tail(t[1]) && Tail(t[2]);
      RunTail3(d1, t);
    }
  }

  lemma RunNone(d: Decoder)
    requires Proper(d)
    ensures Run(d, []) == d
  {
  }

  lemma Needs1(d: Decoder, s: seq<Byte>)
    requires d.state == 2 && Run(d, s).state == ACCEPT
    ensures s != [] && Tail(s[0])
  {
    Survives(d, s);
    TailStep(d, s[0]);
    Survives(Feed(d, s[0]), s[1..]);
  }

  lemma Needs2(d: Decoder, s: seq<Byte>)
    requires 3 <= d.state <= 5 && Run(d, s).state == ACCEPT
    ensures |s| >= 2 && TailNext(d.state, s[0]) == 2 && Tail(s[1])
  {
    Survives(d, s);
    TailStep(d, s[0]);
    Survives(Feed(d, s[0]), s[1..]);
    Needs1(Feed(d, s[0]), s[1..]);
  }

  lemma Needs3(d: Decoder, s: seq<Byte>)
    requires 6 <= d.state <= 8 && Run(d, s).state == ACCEPT
    ensures |s| >= 3 && TailNext(d.state, s[0]) == 3 && Tail(s[1]) && Tail(s[2])
  {
    Survives(d, s);
    TailStep(d, s[0]);
    Survives(Feed(d, s[0]), s[1..]);
    Needs2(Feed(d, s[0]), s[1..]);
  }

  /** Whatever ends in ACCEPT begins with a character. */
  lemma FirstChar(d: Decoder, s: seq<Byte>) returns (n: nat)
    requires d.state == ACCEPT && s != [] && Run(d, s).state == ACCEPT
    ensures 1 <= n <= |s| && IsChar(s[..n])
  {
    LeadStep(d, s[0]);
    var d1 := Feed(d, s[0]);
    Survives(d1, s[1..]);
    hide Feed, Run;
    if d1.state == ACCEPT {
      n := 1;
    } else if d1.state == 2 {
      Needs1(d1, s[1..]);
      n := 2;
    } else if d1.state <= 5 {
      Needs2(d1, s[1..]);
      n := 3;
    } else {
      Needs3(d1, s[1..]);
      n := 4;
    }
  }

  lemma Survives(d: Decoder, s: seq<Byte>)
    requires Proper(d) && Run(d, s).state == ACCEPT
    ensures d.state != REJECT && (s == [] ==> d.state == ACCEPT)
  {
    if d.state == REJECT {
      RejectAbsorbs(d, s);
    }
  }

  // ------------------------------------------------------------ whole strings

  lemma {:induction false} AcceptedIsWellFormed(d: Decoder, s: seq<Byte>)
    requires d.state == ACCEPT && Run(d, s).state == ACCEPT
    ensures WellFormed(s)
    decreases |s|
  {
    hide IsChar, Run, Value;
    if s != [] {
      var n := FirstChar(d, s);
      CharRuns(d, s[..n]);
      assert s == s[..n] + s[n..];
      RunAppend(d, s[..n], s[n..]);
      AcceptedIsWellFormed(Run(d, s[..n]), s[n..]);
    }
  }

  ghost predicate Scalars(cs: seq<nat>) {
    forall i :: 0 <= i < |cs| ==> IsScalar(cs[i])
  }

  lemma {:induction false} WellFormedIsEncoding(s: seq<Byte>) returns (cs: seq<nat>)
    requires WellFormed(s)
    ensures Scalars(cs) && EncodeAll(cs) == s
    decreases |s|
  {
    hide IsChar, Encode, Value, IsScalar;
    if s == [] {
      return [];
    }
    var n :| 1 <= n <= |s| && IsChar(s[..n]) && WellFormed(s[n..]);
    CharIsEncoding(s[..n]);
    var rest := WellFormedIsEncoding(s[n..]);
    cs := [Value(s[..n])] + rest;
    assert cs[1..] == rest;
  }

  lemma {:induction false} EncodingIsWellFormed(cs: seq<nat>)
    requires Scalars(cs)
    ensures WellFormed(EncodeAll(cs))
  {
    if cs != [] {
      EncodingIsWellFormed(cs[1..]);
      EncodingIsChar(cs[0]);
      var s, c := EncodeAll(cs), Encode(cs[0]);
      assert s[..|c|] == c && s[|c|..] == EncodeAll(cs[1..]);
    }
  }

  lemma {:induction false} EncodingRuns(d: Decoder, cs: seq<nat>)
    requires d.state == ACCEPT && Scalars(cs)
    ensures Run(d, EncodeAll(cs)).state == ACCEPT && Run(d, EncodeAll(cs)).out == d.out + cs
    decreases |cs|
  {
    hide IsChar, Encode, Value, IsScalar, Feed;
    if cs != [] {
      var c := Encode(cs[0]);
      EncodingIsChar(cs[0]);
      CharRuns(d, c);
      RunAppend(d, c, EncodeAll(cs[1..]));
      EncodingRuns(Run(d, c), cs[1..]);
      assert d.out + cs == d.out + [cs[0]] + cs[1..];
    }
  }

  /** Exactness, one half: the decoder ends in ACCEPT exactly on the well-formed strings, from
      whatever value the code point cell starts with, and these are the encodings of sequences of
      scalar values.  As REJECT is absorbing, ending in ACCEPT means REJECT was never seen. */
  lemma AcceptsExactlyWellFormed(s: seq<Byte>, codep: nat)
    ensures Decode(s, codep).state == ACCEPT <==> WellFormed(s)
    ensures Decode(s, codep).state == ACCEPT <==> exists cs :: Scalars(cs) && EncodeAll(cs) == s
  {
    forall cs | Scalars(cs) && EncodeAll(cs) == s ensures WellFormed(s) {
      EncodingIsWellFormed(cs);
    }
    if Decode(s, codep).state == ACCEPT {
      AcceptedIsWellFormed(Decoder(ACCEPT, codep, []), s);
    }
    if WellFormed(s) {
      var cs := WellFormedIsEncoding(s);
      EncodingRuns(Decoder(ACCEPT, codep, []), cs);
    }
  }

  /** Exactness, the other half: decoding inverts encoding, for every sequence of scalar values. */
  lemma DecodeInvertsEncode(cs: seq<nat>, codep: nat)
    requires Scalars(cs)
    ensures Decode(EncodeAll(cs), codep).state == ACCEPT && Decode(EncodeAll(cs), codep).out == cs
  {
    EncodingRuns(Decoder(ACCEPT, codep, []), cs);
    assert [] + cs == cs;
  }

  /** And encoding inverts decoding: of a well-formed string come scalar values, and encoding
      them gives the string back. */
  lemma EncodeInvertsDecode(s: seq<Byte>, codep: nat)
    requires WellFormed(s)
    ensures Scalars(Decode(s, codep).out) && EncodeAll(Decode(s, codep).out) == s
  {
    var cs := WellFormedIsEncoding(s);
    DecodeInvertsEncode(cs, codep);
  }

  // ------------------------------------------------------------ what comes out of any string

  predicate BeginsWithChar(s: seq<Byte>) {
    exists n :: 1 <= n <= |s| && IsChar(s[..n])
  }

  lemma HasChar(s: seq<Byte>, n: nat)
    requires 1 <= n <= |s| && IsChar(s[..n])
    ensures BeginsWithChar(s)
  {
  }

  /** Nothing more comes out inside a character that is cut short or goes wrong: before its last
      octet... */
  lemma Cut1(d: Decoder, s: seq<Byte>)
    requires d.state == 2 && (s == [] || !Tail(s[0]))
    ensures Run(d, s).out == d.out
  {
    if s != [] {
      RunFirst(d, s);
      TailStep(d, s[0]);
      RejectAbsorbs(Feed(d, s[0]), s[1..]);
    }
  }

  /** ...its last two... */
  lemma Cut2(d: Decoder, s: seq<Byte>)
    requires 3 <= d.state <= 5 && (|s| < 2 || TailNext(d.state, s[0]) != 2 || !Tail(s[1]))
    ensures Run(d, s).out == d.out
  {
    if s != [] {
      RunFirst(d, s);
      TailStep(d, s[0]);
      if TailNext(d.state, s[0]) == 2 {
        Cut1(Feed(d, s[0]), s[1..]);
      } else {
        RejectAbsorbs(Feed(d, s[0]), s[1..]);
      }
    }
  }

  /** ...or its last three. */
  lemma Cut3(d: Decoder, s: seq<Byte>)
    requires 6 <= d.state <= 8 && (|s| < 3 || TailNext(d.state, s[0]) != 3 || !Tail(s[1]) || !Tail(s[2]))
    ensures Run(d, s).out == d.out
  {
    if s != [] {
      RunFirst(d, s);
      TailStep(d, s[0]);
      if TailNext(d.state, s[0]) == 3 {
        Cut2(Feed(d, s[0]), s[1..]);
      } else {
        RejectAbsorbs(Feed(d, s[0]), s[1..]);
      }
    }
  }

  /** The octets behind the first one that make a character of it. */
  predicate Completes(s: seq<Byte>)
    requires s != []
  {
    var state := LeadNext(s[0]);
    || state == ACCEPT
    || (state == 2 && |s| >= 2 && Tail(s[1]))
    || (3 <= state <= 5 && |s| >= 3 && TailNext(state, s[1]) == 2 && Tail(s[2]))
    || (6 <= state <= 8 && |s| >= 4 && TailNext(state, s[1]) == 3 && Tail(s[2]) && Tail(s[3]))
  }

  lemma CompletesChar(s: seq<Byte>)
    requires s != [] && Completes(s)
    ensures BeginsWithChar(s)
  {
    var state := LeadNext(s[0]);
    if state == ACCEPT {
      HasChar(s, 1);
    } else if state == 2 {
      HasChar(s, 2);
    } else if state <= 5 {
      HasChar(s, 3);
    } else {
      HasChar(s, 4);
    }
  }

  lemma Incomplete(s: seq<Byte>)
    requires s != [] && !BeginsWithChar(s)
    ensures !Completes(s)
  {
    hide BeginsWithChar, Completes;
    if Completes(s) {
      CompletesChar(s);
    }
  }

  /** A string that does not begin with a character gives nothing. */
  lemma NothingOut(d: Decoder, s: seq<Byte>)
    requires d.state == ACCEPT && !BeginsWithChar(s)
    ensures Run(d, s).out == d.out
  {
    if s != [] {
      RunFirst(d, s);
      LeadStep(d, s[0]);
      Incomplete(s);
      hide BeginsWithChar, Feed, Run, TailNext;
      var d1 := Feed(d, s[0]);
      if d1.state == REJECT {
        RejectAbsorbs(d1, s[1..]);
      } else if d1.state == 2 {
        Cut1(d1, s[1..]);
      } else if d1.state <= 5 {
        Cut2(d1, s[1..]);
      } else {
        Cut3(d1, s[1..]);
      }
    }
  }

  /** A string begins with one character at most. */
  lemma OneFirstChar(s: seq<Byte>, m: nat, n: nat)
    requires 1 <= m <= |s| && 1 <= n <= |s| && IsChar(s[..m]) && IsChar(s[..n])
    ensures m == n
  {
    LenAgrees(s[..m]);
    LenAgrees(s[..n]);
    assert s[..m][0] == s[..n][0] == s[0];
  }

  /** `cs` is the longest sequence of scalar values whose encoding `s` begins with: any other is the
      beginning of it. */
  ghost predicate Longest(s: seq<Byte>, cs: seq<nat>) {
    && Scalars(cs) && EncodeAll(cs) <= s
    && forall ds :: Scalars(ds) && EncodeAll(ds) <= s ==> ds <= cs
  }

  /** What is not empty and encodes to a beginning of `s` begins with the value of a character that
      `s` begins with. */
  lemma EncodedPrefix(s: seq<Byte>, ds: seq<nat>) returns (m: nat)
    requires Scalars(ds) && ds != [] && EncodeAll(ds) <= s
    ensures 1 <= m <= |s| && IsChar(s[..m]) && Value(s[..m]) == ds[0] && EncodeAll(ds[1..]) <= s[m..]
  {
    var c := Encode(ds[0]);
    EncodingIsChar(ds[0]);
    m := |c|;
    hide Encode, IsScalar;
    assert s[..m] == c;
    assert EncodeAll(ds)[m..] == EncodeAll(ds[1..]);
  }

  lemma LongestCons(s: seq<Byte>, n: nat, cs: seq<nat>)
    requires 1 <= n <= |s| && IsChar(s[..n]) && Longest(s[n..], cs)
    ensures Longest(s, [Value(s[..n])] + cs)
  {
    hide Value, Encode, IsScalar, IsChar;
    var v := Value(s[..n]);
    CharIsEncoding(s[..n]);
    assert ([v] + cs)[1..] == cs;
    assert s == s[..n] + s[n..];
    forall ds | Scalars(ds) && EncodeAll(ds) <= s ensures ds <= [v] + cs {
      if ds != [] {
        var m := EncodedPrefix(s, ds);
        OneFirstChar(s, m, n);
        assert Scalars(ds[1..]) && ds[1..] <= cs;
        assert ds == [ds[0]] + ds[1..];
      }
    }
  }

  lemma LongestNone(s: seq<Byte>)
    requires !BeginsWithChar(s)
    ensures Longest(s, [])
  {
    hide BeginsWithChar, EncodeAll, IsScalar, IsChar, Value;
    forall ds | Scalars(ds) && EncodeAll(ds) <= s ensures ds == [] {
      if ds != [] {
        var m := EncodedPrefix(s, ds);
        HasChar(s, m);
      }
    }
    NothingEncoded();
  }

  lemma NothingEncoded()
    ensures EncodeAll([]) == []
  {
  }

  lemma {:induction false} OutIsLongest(d: Decoder, s: seq<Byte>) returns (cs: seq<nat>)
    requires d.state == ACCEPT
    ensures Run(d, s).out == d.out + cs && Longest(s, cs)
    decreases |s|
  {
    hide IsChar, Run, Value, Longest, Scalars, IsScalar;
    if BeginsWithChar(s) {
      var n :| 1 <= n <= |s| && IsChar(s[..n]);
      CharRuns(d, s[..n]);
      assert s == s[..n] + s[n..];
      RunAppend(d, s[..n], s[n..]);
      var rest := OutIsLongest(Run(d, s[..n]), s[n..]);
      cs := [Value(s[..n])] + rest;
      LongestCons(s, n, rest);
      assert d.out + cs == d.out + [Value(s[..n])] + rest;
    } else {
      cs := [];
      NothingOut(d, s);
      LongestNone(s);
    }
  }

  /** Of every string, well-formed or not, come the scalar values of its longest part, from the
      front, that is an encoding, and nothing else. */
  lemma DecodesLongest(s: seq<Byte>, codep: nat)
    ensures Longest(s, Decode(s, codep).out)
  {
    var cs := OutIsLongest(Decoder(ACCEPT, codep, []), s);
    assert [] + cs == cs;
  }

  // ------------------------------------------------------------ the other two lookups agree

  /** flb_utf8_len of the first byte is the length of the character it starts. */
  lemma LenAgrees(s: seq<Byte>)
    requires IsChar(s)
    ensures Utf8Len(s[0]) == |s|
  {
  }

  /** The ones a value begins with, from the bit of weight `top` down. */
  function LeadingOnes(b: nat, top: nat): nat {
    if top == 0 || b < top then 0 else 1 + LeadingOnes(b - top, top / 2)
  }

  /** Of any byte the length is the number of ones it begins with, but 1 for those that begin no
      sequence and 6 for the two that begin with more. */
  lemma LenIsLeadingOnes(b: Byte)
    ensures Utf8Len(b) == if b < 0xC0 then 1 else if b >= 0xFE then 6 else LeadingOnes(b, 128)
  {
    if 0xC0 <= b < 0xFE {
      assert LeadingOnes(b, 128) == 2 + LeadingOnes(b - 0xC0, 32);
      if b >= 0xE0 {
        assert LeadingOnes(b - 0xC0, 32) == 1 + LeadingOnes(b - 0xE0, 16);
        if b >= 0xF0 {
          assert LeadingOnes(b - 0xE0, 16) == 1 + LeadingOnes(b - 0xF0, 8);
          if b >= 0xF8 {
            assert LeadingOnes(b - 0xF0, 8) == 1 + LeadingOnes(b - 0xF8, 4);
          }
        }
      }
    }
  }

  /** flb_utf8_check holds of every byte but the continuation octets. */
  lemma CheckIsNotTail(b: Byte)
    ensures Check(b) <==> !Tail(b)
  {
    Markers();
    AndShifted(b, 3, 6);
    assert Pow2(2) - 1 == 3;
    AndMask(Shr(b, 6), 2);
    SplitAt(b, 6);
    assert Pow2(6) == 64;
    ShlBy6(Shr(b, 6));
    TopBits(Shr(b, 6));
    assert And(b, 0xC0) == 64 * Shr(b, 6);
  }

  lemma TopBits(h: nat)
    requires h < 4
    ensures Low(h, 2) == h
  {
  }

  function CountStarts(s: seq<Byte>): nat {
    if s == [] then 0 else (if Check(s[0]) then 1 else 0) + CountStarts(s[1..])
  }

  lemma {:induction false} CountStartsAppend(s: seq<Byte>, t: seq<Byte>)
    ensures CountStarts(s + t) == CountStarts(s) + CountStarts(t)
  {
    if s == [] {
      assert s + t == t;
    } else {
      assert (s + t)[1..] == s[1..] + t;
      CountStartsAppend(s[1..], t);
    }
  }

  lemma {:induction false} TailsDoNotStart(s: seq<Byte>)
    requires forall i :: 0 <= i < |s| ==> Tail(s[i])
    ensures CountStarts(s) == 0
  {
    if s != [] {
      CheckIsNotTail(s[0]);
      TailsDoNotStart(s[1..]);
    }
  }

  lemma CharStartsOnce(s: seq<Byte>)
    requires IsChar(s)
    ensures CountStarts(s) == 1
  {
    CheckIsNotTail(s[0]);
    TailsDoNotStart(s[1..]);
  }

  lemma {:induction false} EncodingStarts(cs: seq<nat>)
    requires Scalars(cs)
    ensures CountStarts(EncodeAll(cs)) == |cs|
  {
    if cs != [] {
      EncodingIsChar(cs[0]);
      CharStartsOnce(Encode(cs[0]));
      CountStartsAppend(Encode(cs[0]), EncodeAll(cs[1..]));
      EncodingStarts(cs[1..]);
    }
  }

  /** In a well-formed string the bytes passing flb_utf8_check number exactly the code points. */
  lemma StartsCountCodePoints(s: seq<Byte>, codep: nat)
    requires WellFormed(s)
    ensures CountStarts(s) == |Decode(s, codep).out|
  {
    EncodeInvertsDecode(s, codep);
    EncodingStarts(Decode(s, codep).out);
  }

  // ------------------------------------------------------------ flb_utf8_print

  lemma RunSnoc(d: Decoder, s: seq<Byte>, b: Byte)
    requires Proper(d)
    ensures Run(d, s + [b]) == Feed(Run(d, s), b)
  {
    RunAppend(d, s, [b]);
    assert [b][1..] == [];
  }

  lemma EncodedIsWellFormed(cs: seq<nat>, s: seq<Byte>)
    requires Scalars(cs) && !WellFormed(s)
    ensures EncodeAll(cs) != s
  {
    EncodingIsWellFormed(cs);
  }

  /** flb_utf8_print on the NUL-terminated string at the start of `s`, with `codepoint` whatever
      the uninitialised local holds: it prints the scalar values of the longest part, from the
      front, that is an encoding, and complains exactly when that is not all of the string, which
      is when the string is not well-formed. */
  method Print(s: seq<Byte>, codepoint: nat, ghost n: nat) returns (printed: seq<nat>, complaint: bool)
    requires n < |s| && s[n] == 0 && forall i :: 0 <= i < n ==> s[i] != 0
    ensures complaint <==> !WellFormed(s[..n])
    ensures Scalars(printed) && EncodeAll(printed) <= s[..n]
    ensures forall cs :: Scalars(cs) && EncodeAll(cs) <= s[..n] ==> cs <= printed
    ensures complaint <==> EncodeAll(printed) != s[..n]
  {
    hide Feed, IsChar, Encode;
    var d := Decoder(ACCEPT, codepoint, []);
    ghost var d0 := d;
    var i := 0;
    while s[i] != 0
      invariant 0 <= i <= n
      invariant Proper(d) && d == Run(d0, s[..i])
      decreases n - i
    {
      RunSnoc(d0, s[..i], s[i]);
      assert s[..i + 1] == s[..i] + [s[i]];
      d := Feed(d, s[i]);
      i := i + 1;
    }
    printed := d.out;
    complaint := d.state != ACCEPT;
    AcceptsExactlyWellFormed(s[..n], codepoint);
    DecodesLongest(s[..n], codepoint);
    if !complaint {
      EncodeInvertsDecode(s[..n], codepoint);
    } else {
      EncodedIsWellFormed(printed, s[..n]);
    }
  }
}
