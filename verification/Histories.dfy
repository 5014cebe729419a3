/**
 What a tracker makes of one host's spool events in whatever order and however often they come:
 which of them have an effect, and when these are the spool's events without gaps.
 */
module Histories {
  import opened Wrappers
  import Trackers
  import opened Deliveries

  /** Record `i`'s event as an operation on the tracker. */
  function OpAt(host: string, log: seq<Entry>, i: nat): Op
    requires i < |log| && log[i].event.Some?
  {
    Trackers.Apply(host, EventAt(log, i))
  }

  predicate HasEvent(log: seq<Entry>, i: nat) { i < |log| && log[i].event.Some? }

  /** All operations are events of the host's records. */
  ghost predicate OfLog(host: string, log: seq<Entry>, r: seq<Op>) { forall op | op in r :: OfRecord(host, log, |log|, op) }

  // ---- one host's events among all operations ----

  lemma {:induction false} ReceivedCat(host: string, a: seq<Op>, b: seq<Op>)
    ensures Received(host, a + b) == Received(host, a) + Received(host, b)
    decreases |b|
  {
    if b == [] {
      assert a + b == a;
    } else {
      ReceivedCat(host, a, b[..|b| - 1]);
      assert (a + b)[..|a + b| - 1] == a + b[..|b| - 1];
    }
  }

  lemma {:induction false} ReceivedHas(host: string, ops: seq<Op>, op: Op)
    ensures op in Received(host, ops) <==> op in ops && Trackers.FromSpool(op) && op.host == host
    decreases |ops|
  {
    if ops != [] {
      ReceivedHas(host, ops[..|ops| - 1], op);
      assert ops == ops[..|ops| - 1] + [ops[|ops| - 1]];
    }
  }

  lemma RepeatsSnoc(ops: seq<Op>, last: Op, op: Op)
    requires Trackers.FromSpool(op)
    ensures Trackers.Repeats(ops + [last], op) <==> Trackers.Repeats(ops, op) || Trackers.Covers(last, op)
  {
    var all := ops + [last];
    if Trackers.Repeats(ops, op) {
      var i :| 0 <= i < |ops| && Trackers.Covers(ops[i], op);
      assert Trackers.Covers(all[i], op);
    }
    if Trackers.Covers(last, op) {
      assert Trackers.Covers(all[|ops|], op);
    }
    if Trackers.Repeats(all, op) {
      var i :| 0 <= i < |all| && Trackers.Covers(all[i], op);
      assert i < |ops| ==> Trackers.Covers(ops[i], op);
    }
  }

  /** Whether a host's spool event is a repeat depends only on that host's spool events. */
  lemma {:induction false} RepeatsAmongReceived(host: string, ops: seq<Op>, op: Op)
    requires Trackers.FromSpool(op) && op.host == host
    ensures Trackers.Repeats(ops, op) <==> Trackers.Repeats(Received(host, ops), op)
    decreases |ops|
  {
    if ops != [] {
      var before, last := ops[..|ops| - 1], ops[|ops| - 1];
      RepeatsAmongReceived(host, before, op);
      assert ops == before + [last];
      RepeatsSnoc(before, last, op);
      RepeatsSnoc(Received(host, before), last, op);
    }
  }

  /** Leaving out redeliveries and looking at one host's spool events commute. */
  lemma {:induction false} ReceivedOnce(host: string, ops: seq<Op>)
    ensures Received(host, Trackers.Once(ops)) == Trackers.Once(Received(host, ops))
    decreases |ops|
  {
    if ops != [] {
      var before, last := ops[..|ops| - 1], ops[|ops| - 1];
      assert ops == before + [last];
      ReceivedOnce(host, before);
      OnceSnoc(before, last);
      assert Trackers.Once(before) + [] == Trackers.Once(before);
      ReceivedSnoc(host, Trackers.Once(before), last);
      if Trackers.FromSpool(last) && last.host == host {
        RepeatsAmongReceived(host, before, last);
        OnceSnoc(Received(host, before), last);
        assert Trackers.Once(Received(host, before)) + [] == Trackers.Once(Received(host, before));
      } else {
        assert Received(host, Trackers.Once(before)) + [] == Received(host, Trackers.Once(before));
      }
    }
  }

  lemma {:induction false} OncePrefix(a: seq<Op>, b: seq<Op>)
    ensures Trackers.Once(a) <= Trackers.Once(a + b)
    decreases |b|
  {
    if b == [] {
      assert a + b == a;
    } else {
      OncePrefix(a, b[..|b| - 1]);
      assert (a + b)[..|a + b| - 1] == a + b[..|b| - 1];
    }
  }

  // ---- which events have an effect ----

  lemma {:induction false} OnceHas(r: seq<Op>, op: Op, last: Op)
    ensures op in Trackers.Once(r + [last]) <==> op in Trackers.Once(r) || (op == last && !Trackers.Repeats(r, last))
  {
    OnceSnoc(r, last);
    assert Trackers.Once(r) + [] == Trackers.Once(r);
  }

  lemma {:induction false} OnceIsPart(r: seq<Op>, op: Op)
    requires op in Trackers.Once(r)
    ensures op in r
    decreases |r|
  {
    var before, last := r[..|r| - 1], r[|r| - 1];
    assert r == before + [last];
    OnceHas(before, op, last);
    if op in Trackers.Once(before) {
      OnceIsPart(before, op);
    }
  }

  /** Every spool event is covered by one that had an effect. */
  lemma {:induction false} OnceCovers(r: seq<Op>, op: Op) returns (b: Op)
    requires op in r && Trackers.FromSpool(op)
    ensures b in Trackers.Once(r) && Trackers.Covers(b, op)
    decreases |r|
  {
    var before, last := r[..|r| - 1], r[|r| - 1];
    assert r == before + [last];
    if op in before {
      b := OnceCovers(before, op);
      OnceHas(before, b, last);
    } else if Trackers.Repeats(before, op) {
      var i :| 0 <= i < |before| && Trackers.Covers(before[i], op);
      b := OnceCovers(before, before[i]);
      OnceHas(before, b, last);
    } else {
      b := op;
      OnceHas(before, op, last);
    }
  }

  // ---- records and their events ----

  lemma {:induction false} ExpectedHas(host: string, log: seq<Entry>, n: nat, op: Op)
    requires n <= |log|
    ensures op in Expected(host, log, n) <==> OfRecord(host, log, n, op)
    decreases n
  {
    if n > 0 {
      ExpectedHas(host, log, n - 1, op);
      if OfRecord(host, log, n, op) && !(HasEvent(log, n - 1) && op == OpAt(host, log, n - 1)) {
        var j :| 0 <= j < n && log[j].event.Some? && op == Trackers.Apply(host, EventAt(log, j));
        assert j < n - 1;
      } else if OfRecord(host, log, n - 1, op) {
        OfRecordGrows(host, log, n - 1, n, op);
      }
    }
  }

  /** A first part of the spool's events is the events of the first records. */
  lemma {:induction false} ExpectedPrefix(host: string, log: seq<Entry>, n: nat, m: nat) returns (k: nat)
    requires n <= |log| && m <= |Expected(host, log, n)|
    ensures k <= n && Expected(host, log, k) == Expected(host, log, n)[..m]
    decreases n
  {
    if m == |Expected(host, log, n)| {
      k := n;
    } else {
      k := ExpectedPrefix(host, log, n - 1, m);
    }
  }

  lemma RecordOf(host: string, log: seq<Entry>, n: nat, op: Op) returns (i: nat)
    requires n <= |log| && OfRecord(host, log, n, op)
    ensures i < n && HasEvent(log, i) && op == OpAt(host, log, i)
  {
    i :| 0 <= i < n && log[i].event.Some? && op == Trackers.Apply(host, EventAt(log, i));
  }

  lemma LaterRecordCovers(host: string, log: seq<Entry>, j: nat, i: nat)
    requires Growing(log) && HasEvent(log, j) && HasEvent(log, i) && Trackers.Covers(OpAt(host, log, j), OpAt(host, log, i))
    ensures i <= j
  {
  }

  // ---- without gaps ----

  /** `r` has the events of all records before the one `op` is of. */
  ghost predicate Precedes(host: string, log: seq<Entry>, r: seq<Op>, op: Op) {
    forall i: nat, j: nat | HasEvent(log, i) && HasEvent(log, j) && j < i && op == OpAt(host, log, i) :: OpAt(host, log, j) in r
  }

  /** Every event comes after those of all earlier records. */
  ghost predicate Complete(host: string, log: seq<Entry>, r: seq<Op>) {
    forall x | 0 <= x < |r| :: Precedes(host, log, r[..x], r[x])
  }

  /** `ops` are the events of the first records, in order and without gaps. */
  ghost predicate FirstRecords(host: string, log: seq<Entry>, ops: seq<Op>) {
    exists n: nat :: n <= |log| && ops == Expected(host, log, n)
  }

  /** Those that have an effect are the events of the first records. */
  ghost predicate GapFree(host: string, log: seq<Entry>, r: seq<Op>) { FirstRecords(host, log, Trackers.Once(r)) }

  lemma {:induction false} CompleteSnoc(host: string, log: seq<Entry>, r: seq<Op>, op: Op)
    ensures Complete(host, log, r + [op]) <==> Complete(host, log, r) && Precedes(host, log, r, op)
  {
    hide Precedes;
    var all := r + [op];
    assert all[..|r|] == r;
    assert forall x | 0 <= x < |r| :: all[..x] == r[..x] && all[x] == r[x];
    if Complete(host, log, all) {
      assert Precedes(host, log, all[..|r|], all[|r|]);
      forall x | 0 <= x < |r|
        ensures Precedes(host, log, r[..x], r[x])
      {
        assert Precedes(host, log, all[..x], all[x]);
      }
    }
  }

  lemma {:induction false} GapFreeBefore(host: string, log: seq<Entry>, r: seq<Op>, op: Op)
    requires GapFree(host, log, r + [op])
    ensures GapFree(host, log, r)
  {
    var n: nat :| n <= |log| && Trackers.Once(r + [op]) == Expected(host, log, n);
    OncePrefix(r, [op]);
    var k := ExpectedPrefix(host, log, n, |Trackers.Once(r)|);
    assert Trackers.Once(r) == Expected(host, log, k);
  }

  /** An event that a complete history covers has all earlier ones before it. */
  lemma {:induction false} CoveredPrecedes(host: string, log: seq<Entry>, r: seq<Op>, op: Op)
    requires Growing(log) && OfLog(host, log, r) && OfRecord(host, log, |log|, op) && Complete(host, log, r)
    requires Trackers.Repeats(r, op)
    ensures Precedes(host, log, r, op)
  {
    var x :| 0 <= x < |r| && Trackers.Covers(r[x], op);
    assert r[x] in r;
    var b := RecordOf(host, log, |log|, r[x]);
    forall i: nat, j: nat | HasEvent(log, i) && HasEvent(log, j) && j < i && op == OpAt(host, log, i)
      ensures OpAt(host, log, j) in r
    {
      LaterRecordCovers(host, log, b, i);
      assert Precedes(host, log, r[..x], r[x]);
      assert OpAt(host, log, j) in r[..x];
    }
  }

  /** The last of the first records' events has all earlier ones before it. */
  lemma {:induction false} LastPrecedes(host: string, log: seq<Entry>, r: seq<Op>, op: Op)
    requires Growing(log) && GapFree(host, log, r + [op]) && !Trackers.Repeats(r, op)
    ensures Precedes(host, log, r, op)
  {
    var n: nat :| n <= |log| && Trackers.Once(r + [op]) == Expected(host, log, n);
    OnceSnoc(r, op);
    forall i: nat, j: nat | HasEvent(log, i) && HasEvent(log, j) && j < i && op == OpAt(host, log, i)
      ensures OpAt(host, log, j) in r
    {
      ExpectedHas(host, log, n, op);
      var i' :| 0 <= i' < n && log[i'].event.Some? && op == Trackers.Apply(host, EventAt(log, i'));
      assert i' == i;
      var o := OpAt(host, log, j);
      assert OfRecord(host, log, n, o);
      ExpectedHas(host, log, n, o);
      assert o != op;
      OnceIsPart(r, o);
    }
  }

  /** A complete, gap-free history goes on gap-free with an event that all earlier ones precede. */
  lemma {:induction false} GapFreeNext(host: string, log: seq<Entry>, r: seq<Op>, op: Op, n: nat, i: nat)
    requires Growing(log) && OfLog(host, log, r) && Complete(host, log, r) && Precedes(host, log, r, op)
    requires !Trackers.Repeats(r, op) && HasEvent(log, i) && op == OpAt(host, log, i)
    requires n <= |log| && Trackers.Once(r) == Expected(host, log, n)
    ensures Trackers.Once(r + [op]) == Expected(host, log, i + 1)
  {
    OnceSnoc(r, op);
    forall j: nat | HasEvent(log, j)
      ensures j < n <==> j < i
    {
      if j < n {
        NotBeyond(host, log, r, op, n, i, j);
      }
      if j < i {
        NotShort(host, log, r, n, j);
      }
    }
    forall k | n <= k < i || i <= k < n
      ensures log[k].event.None?
    {
      assert !HasEvent(log, k);
    }
    if n <= i {
      ExpectedSkips(host, log, n, i);
    } else {
      ExpectedSkips(host, log, i, n);
    }
  }

  lemma {:induction false} NotBeyond(host: string, log: seq<Entry>, r: seq<Op>, op: Op, n: nat, i: nat, j: nat)
    requires Growing(log) && Complete(host, log, r) && !Trackers.Repeats(r, op) && HasEvent(log, i) && op == OpAt(host, log, i)
    requires n <= |log| && Trackers.Once(r) == Expected(host, log, n) && HasEvent(log, j) && j < n
    ensures j < i
  {
    var o := OpAt(host, log, j);
    assert OfRecord(host, log, n, o);
    ExpectedHas(host, log, n, o);
    OnceIsPart(r, o);
    PresentRepeats(r, op);
    if i < j {
      EarlierPresent(host, log, r, i, j);
    }
  }

  lemma PresentRepeats(r: seq<Op>, op: Op)
    requires Trackers.FromSpool(op)
    ensures op in r ==> Trackers.Repeats(r, op)
  {
    if x :| 0 <= x < |r| && r[x] == op {
      assert Trackers.Covers(r[x], op);
    }
  }

  lemma {:induction false} EarlierPresent(host: string, log: seq<Entry>, r: seq<Op>, i: nat, j: nat)
    requires Complete(host, log, r) && HasEvent(log, i) && HasEvent(log, j) && i < j && OpAt(host, log, j) in r
    ensures OpAt(host, log, i) in r
  {
    var x :| 0 <= x < |r| && r[x] == OpAt(host, log, j);
    assert Precedes(host, log, r[..x], r[x]);
    assert OpAt(host, log, i) in r[..x];
  }

  lemma {:induction false} NotShort(host: string, log: seq<Entry>, r: seq<Op>, n: nat, j: nat)
    requires Growing(log) && n <= |log| && Trackers.Once(r) == Expected(host, log, n)
    requires HasEvent(log, j) && OpAt(host, log, j) in r
    ensures j < n
  {
    var b := OnceCovers(r, OpAt(host, log, j));
    ExpectedHas(host, log, n, b);
    var k := RecordOf(host, log, n, b);
    LaterRecordCovers(host, log, k, j);
  }

  /** The events that have an effect are those of the first records, in order and without gaps, if and
      only if every event comes after those of all earlier records. */
  lemma {:induction false} GapFreeIffComplete(host: string, log: seq<Entry>, r: seq<Op>)
    requires Growing(log) && OfLog(host, log, r)
    ensures GapFree(host, log, r) <==> Complete(host, log, r)
    decreases |r|
  {
    hide Precedes, Complete, GapFree, Growing;
    if r == [] {
      NothingIsGapFree(host, log);
    } else {
      var before, op := r[..|r| - 1], r[|r| - 1];
      assert r == before + [op] && op in r;
      GapFreeIffComplete(host, log, before);
      CompleteSnoc(host, log, before, op);
      if GapFree(host, log, r) {
        GapFreeBefore(host, log, before, op);
      }
      if Complete(host, log, before) {
        NextIff(host, log, before, op);
      }
    }
  }

  lemma NothingIsGapFree(host: string, log: seq<Entry>)
    ensures GapFree(host, log, []) && Complete(host, log, [])
  {
    assert Trackers.Once([]) == Expected(host, log, 0);
  }

  lemma {:induction false} NextIff(host: string, log: seq<Entry>, r: seq<Op>, op: Op)
    requires Growing(log) && OfLog(host, log, r) && OfRecord(host, log, |log|, op)
    requires Complete(host, log, r) && GapFree(host, log, r)
    ensures GapFree(host, log, r + [op]) <==> Precedes(host, log, r, op)
  {
    hide Precedes, Complete, Growing;
    if Trackers.Repeats(r, op) {
      CoveredPrecedes(host, log, r, op);
      OnceSnoc(r, op);
      assert Trackers.Once(r) + [] == Trackers.Once(r);
    } else {
      if GapFree(host, log, r + [op]) {
        LastPrecedes(host, log, r, op);
      }
      if Precedes(host, log, r, op) {
        var n: nat :| n <= |log| && Trackers.Once(r) == Expected(host, log, n);
        var i := RecordOf(host, log, |log|, op);
        GapFreeNext(host, log, r, op, n, i);
      }
    }
  }
}
