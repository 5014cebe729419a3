/** What is acknowledged does not come again, as long as the acknowledgement can be read. */
module Acknowledgements {
  import opened Wrappers
  import Trackers
  import opened Deliveries

  /** Everything on its way is later than the stored acknowledgement, and acknowledgements grow. */
  ghost predicate Ahead(s: Net) {
    && Pos(s.log, s.ack) <= Unread(s)
    && (forall a | a in s.toProbe :: s.ack <= a && Pos(s.log, a) <= Unread(s))
    && (forall x, y | 0 <= x < y < |s.toProbe| :: s.toProbe[x] <= s.toProbe[y])
    && (forall m | m in s.toApp && m.Spooled? :: m.i < |s.log| && LaterThanAcks(s, s.log[m.i].cursor))
  }

  /** `cursor` is later than every acknowledgement, stored or on its way. */
  predicate LaterThanAcks(s: Net, cursor: nat) { cursor > s.ack && forall a | a in s.toProbe :: cursor > a }

  lemma {:induction false} AppendKeepsAhead(s: Net, e: Entry)
    requires Inv(s) && Ahead(s) && Enabled(s, Append(e))
    ensures Ahead(After(s, Append(e)))
  {
    hide HistoryOk;
    var t := After(s, Append(e));
    assert Growing(t.log);
    PosStable(s.log, e, s.readCursor);
    forall a | a == s.ack || a in s.toProbe
      ensures Pos(t.log, a) == Pos(s.log, a)
    {
      assert Within(s.log, s.heard, a);
      PosStable(s.log, e, a);
    }
    forall m | m in t.toApp && m.Spooled?
      ensures m.i < |t.log| && LaterThanAcks(t, t.log[m.i].cursor)
    {
      assert t.log[m.i] == s.log[m.i];
    }
  }

  lemma {:induction false} TickKeepsAhead(s: Net)
    requires Inv(s) && Ahead(s)
    ensures Ahead(After(s, Tick))
  {
    hide HistoryOk, InFlightOk;
    if Unread(s) < |s.log| {
      var t := After(s, Tick);
      OutgoingIs(s.log, Unread(s), |s.log|);
      forall m | m in Outgoing(s.log, Unread(s), |s.log|)
        ensures m.Spooled? && m.i < |s.log| && LaterThanAcks(s, s.log[m.i].cursor)
      {
        PosIs(s.log, s.ack, m.i);
        forall a | a in s.toProbe
          ensures s.log[m.i].cursor > a
        {
          PosIs(s.log, a, m.i);
        }
      }
    }
  }

  /** A new acknowledgement later than the others keeps them growing. */
  lemma GrowingAcks(acks: seq<nat>, a: nat)
    requires (forall x, y | 0 <= x < y < |acks| :: acks[x] <= acks[y]) && forall b | b in acks :: b < a
    ensures forall x, y | 0 <= x < y < |acks + [a]| :: (acks + [a])[x] <= (acks + [a])[y]
  {
    forall x, y | 0 <= x < y < |acks + [a]|
      ensures (acks + [a])[x] <= (acks + [a])[y]
    {
      assert x < |acks| && acks[x] in acks;
    }
  }

  lemma {:induction false} PosOfRecord(log: seq<Entry>, i: nat)
    requires Growing(log) && i < |log|
    ensures Pos(log, log[i].cursor) <= i + 1
  {
    if i + 1 < |log| {
      PosIs(log, log[i].cursor, i + 1);
    }
  }

  /** What follows the first message is later than it. */
  lemma {:induction false} RestIsLater(s: Net, x: Msg)
    requires Growing(s.log) && InFlightOk(s) && Ahead(s) && s.toApp != [] && s.toApp[0].Spooled?
    requires x in s.toApp[1..] && x.Spooled?
    ensures s.toApp[0].i < x.i < |s.log| && s.log[s.toApp[0].i].cursor < s.log[x.i].cursor
  {
    hide Pos;
    var b :| 1 <= b < |s.toApp| && s.toApp[b] == x;
  }

  lemma {:induction false} DeliverKeepsAhead(s: Net)
    requires Inv(s) && Ahead(s) && s.toApp != []
    ensures Ahead(After(s, Deliver))
  {
    hide HistoryOk, AcksBehind, Pos, Growing;
    var m, t := s.toApp[0], After(s, Deliver);
    assert Carries(s.log, Unread(s), m) && m in s.toApp;
    if m.Spooled? {
      var a := s.log[m.i].cursor;
      PosOfRecord(s.log, m.i);
      GrowingAcks(s.toProbe, a);
      assert t.toProbe == s.toProbe + [a] && Unread(t) == Unread(s);
      forall x | x in t.toApp && x.Spooled?
        ensures x.i < |t.log| && LaterThanAcks(t, t.log[x.i].cursor)
      {
        RestIsLater(s, x);
        assert x in s.toApp;
      }
    } else {
      assert t.toProbe == s.toProbe && forall x | x in t.toApp :: x in s.toApp;
    }
  }

  lemma {:induction false} StoreAckKeepsAhead(s: Net)
    requires Ahead(s) && s.toProbe != []
    ensures Ahead(After(s, StoreAck)) && After(s, StoreAck).ack >= s.ack
  {
    hide Pos;
    var t := After(s, StoreAck);
    assert s.toProbe[0] in s.toProbe;
    forall a | a in t.toProbe
      ensures a in s.toProbe && t.ack <= a
    {
      var x :| 0 <= x < |t.toProbe| && t.toProbe[x] == a;
      assert s.toProbe[x + 1] == a;
    }
  }

  lemma {:induction false} StepKeepsAhead(s: Net, step: Step)
    requires Inv(s) && Ahead(s) && Enabled(s, step) && step != Reconnect(true)
    ensures Ahead(After(s, step)) && After(s, step).ack >= s.ack
  {
    hide Inv, Pos;
    match step
    case Append(e) => AppendKeepsAhead(s, e);
    case Tick => TickKeepsAhead(s);
    case Deliver => DeliverKeepsAhead(s);
    case Reconnect(_) =>
    case Cleanup(_) =>
    case Scrape(_) =>
    case StoreAck => StoreAckKeepsAhead(s);
  }

  /** The event of an acknowledged record is not handed over again. */
  lemma {:induction false} NotHandedOverAgain(s: Net, step: Step, i: nat)
    requires Inv(s) && Ahead(s) && Enabled(s, step)
    requires i < |s.log| && s.log[i].event.Some? && s.log[i].cursor <= s.ack
    ensures
      var t := After(s, step);
      && i < |t.log| && t.log[i] == s.log[i]
      && (step.Deliver? ==> t.handed[|t.handed| - 1] != Trackers.Apply(s.host, EventAt(s.log, i)))
  {
    hide HistoryOk, AcksBehind;
    if step.Deliver? {
      var m := s.toApp[0];
      assert Carries(s.log, Unread(s), m);
    }
  }
}
