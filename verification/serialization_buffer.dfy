/** The metrics and traces branches of flb_output_flush_create (flb_output.h): the contexts of a
    chunk are decoded, processed, serialised again and appended to a buffer that grows.

    The decoder, the processor and the encoder are not part of the model: a context says what
    they did to it, and whether the realloc it asked for succeeded. */
module SerializationBuffer {
  import opened Prelude

  datatype Context = Context(processed: int, encoded: Option<seq<Byte>>, reallocOk: bool)

  /** The chunk handed to the flush: the first `size` bytes of an allocation. */
  datatype Chunk = Chunk(data: array<Byte>, size: nat)

  // ------------------------------------------------------------ what the loop is for

  /** A context counts when its processor run returned 0. */
  predicate Counts(c: Context) {
    c.processed == 0 && c.encoded.Some?
  }

  /** The serialised contexts that count, in order. */
  function Concat(cs: seq<Context>): seq<Byte> {
    if cs == [] then []
    else Concat(cs[..|cs| - 1]) + if Counts(cs[|cs| - 1]) then cs[|cs| - 1].encoded.value else []
  }

  /** The room left of the original `size` bytes: a context that fits uses some up; one that does
      not brings exactly its own room with it. */
  function Slack(size: nat, cs: seq<Context>): (s: nat)
    ensures s <= size
  {
    if cs == [] then size
    else
      var s := Slack(size, cs[..|cs| - 1]);
      var c := cs[|cs| - 1];
      if Counts(c) && |c.encoded.value| <= s then s - |c.encoded.value| else s
  }

  /** Context `i` makes the whole flush fail: it cannot be encoded, or it needs more room and
      cannot have it. */
  predicate Breaks(size: nat, cs: seq<Context>, i: nat)
    requires i < |cs|
  {
    cs[i].processed == 0 &&
    (cs[i].encoded.None? || (|cs[i].encoded.value| > Slack(size, cs[..i]) && !cs[i].reallocOk))
  }

  ghost predicate Unbroken(size: nat, cs: seq<Context>) {
    forall i :: 0 <= i < |cs| ==> !Breaks(size, cs, i)
  }

  /** How much the contexts that count take together. */
  function Lengths(cs: seq<Context>): nat {
    if cs == [] then 0
    else Lengths(cs[..|cs| - 1]) + if Counts(cs[|cs| - 1]) then |cs[|cs| - 1].encoded.value| else 0
  }

  lemma {:induction false} ConcatLength(cs: seq<Context>)
    ensures |Concat(cs)| == Lengths(cs)
  {
    if cs != [] {
      ConcatLength(cs[..|cs| - 1]);
    }
  }

  /** Where each context's bytes are: the bytes of one whose processor run returned 0 begin where
      those of the contexts before it end, and are its own, in order; one whose run failed takes no
      room. */
  lemma {:induction false} InOrder(cs: seq<Context>, i: nat)
    requires i < |cs|
    ensures Lengths(cs[..i]) <= Lengths(cs[..i + 1]) <= |Concat(cs)|
    ensures cs[i].processed != 0 ==> Lengths(cs[..i + 1]) == Lengths(cs[..i])
    ensures cs[i].processed == 0 && cs[i].encoded.Some? ==>
              Concat(cs)[Lengths(cs[..i])..Lengths(cs[..i + 1])] == cs[i].encoded.value
    ensures i == 0 ==> Lengths(cs[..i]) == 0
    ensures i + 1 == |cs| ==> Lengths(cs[..i + 1]) == |Concat(cs)|
  {
    var n := |cs| - 1;
    ConcatLength(cs);
    ConcatLength(cs[..n]);
    if i < n {
      InOrder(cs[..n], i);
      assert cs[..n][..i] == cs[..i] && cs[..n][..i + 1] == cs[..i + 1];
    } else {
      assert cs[..i + 1] == cs && cs[..i] == cs[..n];
    }
  }

  /** The counting contexts that go into the room the original size leaves. */
  function Fitting(size: nat, cs: seq<Context>): (fs: seq<Context>)
    ensures Lengths(fs) <= size
  {
    if cs == [] then []
    else
      var n := |cs| - 1;
      var fs := Fitting(size, cs[..n]);
      if Counts(cs[n]) && Lengths(fs) + |cs[n].encoded.value| <= size
      then (assert (fs + [cs[n]])[..|fs|] == fs; fs + [cs[n]])
      else fs
  }

  /** Every context to be written has been encoded and is in its place. */
  ghost predicate InPlace(cs: seq<Context>, bytes: seq<Byte>) {
    forall i :: 0 <= i < |cs| && cs[i].processed == 0 ==>
      && cs[i].encoded.Some?
      && Lengths(cs[..i]) <= Lengths(cs[..i + 1]) <= |bytes|
      && bytes[Lengths(cs[..i])..Lengths(cs[..i + 1])] == cs[i].encoded.value
  }

  lemma AllInPlace(size: nat, cs: seq<Context>, bytes: seq<Byte>)
    requires Unbroken(size, cs) && Concat(cs) <= bytes
    ensures InPlace(cs, bytes)
  {
    forall i | 0 <= i < |cs| && cs[i].processed == 0
      ensures cs[i].encoded.Some?
      ensures Lengths(cs[..i]) <= Lengths(cs[..i + 1]) <= |bytes|
      ensures bytes[Lengths(cs[..i])..Lengths(cs[..i + 1])] == cs[i].encoded.value
    {
      assert !Breaks(size, cs, i);
      InOrder(cs, i);
      var a, b := Lengths(cs[..i]), Lengths(cs[..i + 1]);
      hide Lengths, Concat;
      assert bytes[a..b] == Concat(cs)[a..b];
    }
  }

  // ------------------------------------------------------------ the loop

  /** realloc to a larger size: the old bytes, then anything. */
  method Realloc(buf: array<Byte>, size: nat, ghost kept: nat) returns (r: array<Byte>)
    requires kept <= buf.Length && kept <= size
    ensures fresh(r) && r.Length == size && r[..kept] == buf[..kept]
  {
    r := new Byte[size](i requires 0 <= i reads buf => if i < buf.Length then buf[i] else 0);
    assert forall i :: 0 <= i < kept ==> r[i] == buf[i];
  }

  method Memcpy(buf: array<Byte>, offset: nat, src: seq<Byte>)
    requires offset + |src| <= buf.Length
    modifies buf
    ensures buf[..offset + |src|] == old(buf[..offset]) + src
  {
    var i := 0;
    while i < |src|
      invariant i <= |src|
      invariant buf[..offset] == old(buf[..offset])
      invariant buf[offset..offset + i] == src[..i]
    {
      buf[offset + i] := src[i];
      i := i + 1;
    }
    assert buf[..offset + |src|] == buf[..offset] + buf[offset..offset + |src|];
  }

  /** The growth loop for a chunk of `size` bytes.  Every copy is in bounds of the allocation, the
      written part is the concatenation of the contexts that count, and the result is missing
      exactly when an allocation, an encoding or the chunk could not be had, or nothing was
      written.  `p_size` may exceed what was written, by exactly the slack. */
  method Rebuild(size: nat, callocOk: bool, contexts: seq<Context>, chunkOk: bool) returns (r: Option<Chunk>)
    ensures r.Some? <==> callocOk && Unbroken(size, contexts) && Concat(contexts) != [] && chunkOk
    ensures r.Some? ==>
              && var chunk := r.value;
              && |Concat(contexts)| <= chunk.size <= chunk.data.Length
              && chunk.data[..|Concat(contexts)|] == Concat(contexts)
              && chunk.size == |Concat(contexts)| + Slack(size, contexts)
    ensures r.Some? ==> InPlace(contexts, r.value.data[..])
    ensures callocOk && chunkOk && Concat(contexts) != []
            && (forall i :: 0 <= i < |contexts| && contexts[i].processed == 0 ==> contexts[i].encoded.Some? && contexts[i].reallocOk)
            ==> r.Some?
  {
    if !callocOk {
      return None;
    }
    var buf: array<Byte> := new Byte[size * 2](_ => 0);
    var pSize: nat, offset: nat := size, 0;
    var k := 0;
    while k < |contexts|
      invariant k <= |contexts| && fresh(buf)
      invariant offset <= pSize <= buf.Length
      invariant buf[..offset] == Concat(contexts[..k])
      invariant pSize == offset + Slack(size, contexts[..k])
      invariant forall i :: 0 <= i < k ==> !Breaks(size, contexts, i)
    {
      var c := contexts[k];
      assert contexts[..k + 1][..k] == contexts[..k];
      if c.processed == 0 {
        if c.encoded.None? {
          assert Breaks(size, contexts, k);
          return None;
        }
        var serialized := c.encoded.value;
        if offset + |serialized| > pSize {
          if !c.reallocOk {
            assert Breaks(size, contexts, k);
            return None;
          }
          buf := Realloc(buf, pSize + |serialized|, offset);
          pSize := pSize + |serialized|;
        }
        Memcpy(buf, offset, serialized);
        offset := offset + |serialized|;
      }
      k := k + 1;
    }
    assert contexts[..|contexts|] == contexts;
    if offset == 0 {
      return None;
    }
    if !chunkOk {
      return None;
    }
    assert buf[..][..offset] == buf[..offset];
    AllInPlace(size, contexts, buf[..]);
    return Some(Chunk(buf, pSize));
  }

  // ------------------------------------------------------------ how much the chunk can hold

  /** The size of the rebuilt chunk never exceeds the original size plus what was serialised. */
  lemma SizeBound(size: nat, cs: seq<Context>)
    ensures |Concat(cs)| + Slack(size, cs) <= size + Lengths(cs)
  {
    ConcatLength(cs);
  }

  /** When everything fits the original size, nothing is ever reallocated and the chunk keeps that
      size: what follows the serialised contexts is left over, unless they fill it exactly. */
  lemma {:induction false} SlackWhenAllFits(size: nat, cs: seq<Context>)
    requires Lengths(cs) <= size
    ensures Slack(size, cs) == size - Lengths(cs)
  {
    if cs != [] {
      SlackWhenAllFits(size, cs[..|cs| - 1]);
    }
  }

  /** The slack is what the contexts leave of the original size, taken in order and each skipped
      when it is too long for the room left. */
  lemma {:induction false} SlackIsRoomLeft(size: nat, cs: seq<Context>)
    ensures Slack(size, cs) == size - Lengths(Fitting(size, cs))
  {
    if cs != [] {
      var n := |cs| - 1;
      SlackIsRoomLeft(size, cs[..n]);
      if Counts(cs[n]) && |cs[n].encoded.value| <= Slack(size, cs[..n]) {
        assert (Fitting(size, cs[..n]) + [cs[n]])[..|Fitting(size, cs[..n])|] == Fitting(size, cs[..n]);
      }
    }
  }

  /** The rebuilt chunk is exactly the concatenation if and only if the contexts that fit, taken in
      order, fill the original size. */
  lemma ExactIffFilled(size: nat, cs: seq<Context>)
    ensures |Concat(cs)| + Slack(size, cs) == |Concat(cs)| <==> Lengths(Fitting(size, cs)) == size
  {
    SlackIsRoomLeft(size, cs);
  }

  /** A chunk of four bytes whose only context is serialised to one: three bytes that nobody wrote
      are handed on with it. */
  lemma ThreeBytesTooMany() returns (cs: seq<Context>)
    ensures Unbroken(4, cs) && Concat(cs) == [7] && |Concat(cs)| + Slack(4, cs) == 4
  {
    cs := [Context(0, Some([7]), true)];
    assert cs[..0] == [];
    assert Concat(cs[..0]) == [] && Slack(4, cs[..0]) == 4;
  }

  /** A context that has to be written makes the flush fail exactly when it cannot be encoded, or
      does not fit into what the ones before it leave of the original size and cannot have more. */
  lemma BreaksExactly(size: nat, cs: seq<Context>, i: nat)
    requires i < |cs|
    ensures Breaks(size, cs, i) <==>
            cs[i].processed == 0 && (cs[i].encoded.None? ||
              (Lengths(Fitting(size, cs[..i])) + |cs[i].encoded.value| > size && !cs[i].reallocOk))
  {
    SlackIsRoomLeft(size, cs[..i]);
  }
}
