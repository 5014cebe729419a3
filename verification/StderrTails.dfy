/** How much of a probe's stderr is kept: the longest tail of whole characters that fits. */
module StderrTails {
  import Seqs

  type byte = b: int | 0 <= b < 256

  const TAIL_BYTES: nat := 2048

  /** A byte inside a UTF-8 character, not its first one. */
  predicate Continues(b: byte) { 0x80 <= b < 0xC0 }

  predicate Boundary(s: seq<byte>, i: nat)
    requires i <= |s|
  {
    i == 0 || i == |s| || !Continues(s[i])
  }

  /** What decoding yields: text whose first byte starts a character. */
  predicate Decoded(s: seq<byte>) { s != [] ==> !Continues(s[0]) }

  /** The first character boundary at or after `i`. */
  function NextBoundary(s: seq<byte>, i: nat): (k: nat)
    requires i <= |s|
    ensures i <= k <= |s| && Boundary(s, k)
    ensures forall j: nat | i <= j < k :: !Boundary(s, j)
    decreases |s| - i
  {
    if Boundary(s, i) then i else NextBoundary(s, i + 1)
  }

  /** Where the kept text begins. */
  function CutAt(s: seq<byte>): (k: nat)
    ensures k <= |s|
  {
    if |s| <= TAIL_BYTES then 0 else NextBoundary(s, |s| - TAIL_BYTES)
  }

  function Tail(s: seq<byte>): seq<byte> { s[CutAt(s)..] }

  /** `s` from `k` on starts a character and fits, and from no earlier place it does both. */
  ghost predicate FirstFit(s: seq<byte>, k: nat) {
    && k <= |s| <= k + TAIL_BYTES
    && Boundary(s, k)
    && forall j: nat | j < k && |s| <= j + TAIL_BYTES :: !Boundary(s, j)
  }

  /** `t` is the longest suffix of `s` that starts a character and fits. */
  ghost predicate LongestTail(s: seq<byte>, t: seq<byte>) {
    |t| <= |s| && t == s[|s| - |t|..] && FirstFit(s, |s| - |t|)
  }

  lemma {:induction false} CutIsFirstFit(s: seq<byte>, k: nat)
    ensures k == CutAt(s) <==> FirstFit(s, k)
  {
    assert FirstFit(s, CutAt(s));
  }

  lemma {:induction false} TailIsLongest(s: seq<byte>, t: seq<byte>)
    ensures t == Tail(s) <==> LongestTail(s, t)
  {
    CutIsFirstFit(s, CutAt(s));
    if |t| <= |s| {
      CutIsFirstFit(s, |s| - |t|);
    }
  }

  /** Dropping text before a boundary and appending decoded text move no boundary. */
  lemma BoundaryKept(a: seq<byte>, b: seq<byte>, p: nat, j: nat)
    requires Decoded(b) && p <= |a| && Boundary(a, p) && j <= |a| + |b|
    ensures j < p ==> Boundary(a + b, j) == Boundary(a, j)
    ensures p <= j ==> Boundary(a + b, j) == Boundary(a[p..] + b, j - p)
  {
    if p <= j < |a| + |b| {
      assert (a[p..] + b)[j - p] == (a + b)[j];
    }
  }

  /** Bytes dropped by one push are bytes a later cut would have dropped too. */
  lemma {:induction false} TailOfTail(a: seq<byte>, b: seq<byte>)
    requires Decoded(b)
    ensures Tail(Tail(a) + b) == Tail(a + b)
  {
    var p := CutAt(a);
    var whole, rest := a + b, a[p..] + b;
    var k := CutAt(rest);
    CutIsFirstFit(a, p);
    CutIsFirstFit(rest, k);
    BoundaryKept(a, b, p, p + k);
    forall j: nat | j < p + k && |whole| <= j + TAIL_BYTES
      ensures !Boundary(whole, j)
    {
      BoundaryKept(a, b, p, j);
      if p <= j {
        assert !Boundary(rest, j - p);
      } else {
        assert !Boundary(a, j);
      }
    }
    CutIsFirstFit(whole, p + k);
    Seqs.DropOf(a, b, p);
    assert rest == whole[p..];
  }

  function Concat(chunks: seq<seq<byte>>): seq<byte> {
    if chunks == [] then [] else Concat(chunks[..|chunks| - 1]) + chunks[|chunks| - 1]
  }

  /** What is kept after pushing `chunks` one by one. */
  function Pushed(chunks: seq<seq<byte>>): seq<byte> {
    if chunks == [] then [] else Tail(Pushed(chunks[..|chunks| - 1]) + chunks[|chunks| - 1])
  }

  /** However stderr was chunked, what is kept is the longest fitting suffix of all of it. */
  lemma {:induction false} ChunkingIsImmaterial(chunks: seq<seq<byte>>)
    requires forall c | c in chunks :: Decoded(c)
    ensures Pushed(chunks) == Tail(Concat(chunks))
    ensures LongestTail(Concat(chunks), Pushed(chunks))
  {
    if chunks != [] {
      ChunkingIsImmaterial(chunks[..|chunks| - 1]);
      TailOfTail(Concat(chunks[..|chunks| - 1]), chunks[|chunks| - 1]);
    }
    TailIsLongest(Concat(chunks), Pushed(chunks));
  }

  lemma PushedSnoc(chunks: seq<seq<byte>>, c: seq<byte>)
    ensures Pushed(chunks + [c]) == Tail(Pushed(chunks) + c)
  {
    assert (chunks + [c])[..|chunks|] == chunks;
  }

  class StderrTail {
    var text: seq<byte>

    constructor ()
      ensures text == []
    {
      text := [];
    }

    method Push(chunk: seq<byte>)
      modifies this
      ensures text == Tail(old(text) + chunk)
    {
      text := text + chunk;
      if |text| > TAIL_BYTES {
        var cut := |text| - TAIL_BYTES;
        while !Boundary(text, cut)
          invariant |text| - TAIL_BYTES <= cut <= |text|
          invariant NextBoundary(text, |text| - TAIL_BYTES) == NextBoundary(text, cut)
          decreases |text| - cut
        {
          cut := cut + 1;
        }
        text := text[cut..];
      }
    }

    /** The reader's loop: every read, decoded, is pushed until stderr ends. */
    method Collect(chunks: seq<seq<byte>>)
      requires text == []
      requires forall c | c in chunks :: Decoded(c)
      modifies this
      ensures LongestTail(Concat(chunks), text)
    {
      for i := 0 to |chunks|
        invariant text == Pushed(chunks[..i])
      {
        Push(chunks[i]);
        PushedSnoc(chunks[..i], chunks[i]);
        assert chunks[..i + 1] == chunks[..i] + [chunks[i]];
      }
      assert chunks[..|chunks|] == chunks;
      ChunkingIsImmaterial(chunks);
    }
  }
}
