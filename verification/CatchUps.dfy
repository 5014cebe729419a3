/** However much was lost on the way, one more read of the spool brings everything to the monitor's channel. */
module CatchUps {
  import Trackers
  import opened Deliveries

  /** The host task receives everything that is on its way. */
  function DeliverAll(s: Net): Net
    decreases |s.toApp|
  {
    if s.toApp == [] then s else DeliverAll(After(s, Deliver))
  }

  lemma {:induction false} DeliverAllKeeps(s: Net)
    requires Inv(s)
    ensures var t := DeliverAll(s);
      Inv(t) && t.toApp == [] && t.log == s.log && t.removed == s.removed && t.readCursor == s.readCursor && t.host == s.host
    decreases |s.toApp|
  {
    hide Inv;
    if s.toApp != [] {
      StepKeeps(s, Deliver);
      DeliverAllKeeps(After(s, Deliver));
    }
  }

  lemma {:induction false} NothingMoreExpected(host: string, log: seq<Entry>, lo: nat, hi: nat)
    requires lo <= hi <= |log| && forall i | lo <= i < hi :: log[i].event.None?
    ensures Expected(host, log, hi) == Expected(host, log, lo)
  {
    if lo < hi {
      NothingMoreExpected(host, log, lo, hi - 1);
    }
  }

  /** Whatever was lost before: one tick and the receipt of what is on its way hand over every event of
      the spool, in order and without gaps. */
  lemma {:induction false} CatchesUp(s: Net)
    requires Inv(s)
    ensures var t := DeliverAll(After(s, Tick));
      && Received(s.host, Trackers.Once(t.handed)) == Expected(s.host, s.log, |s.log|)
      && forall i | 0 <= i < |s.log| && s.log[i].event.Some? :: Trackers.Apply(s.host, EventAt(s.log, i)) in t.handed
  {
    hide DeliverAll, Pos, Received, Trackers.Once, AcksBehind, Growing;
    var ticked := After(s, Tick);
    TickKeeps(s);
    TickReadsAll(s);
    DeliverAllKeeps(ticked);
    var t := DeliverAll(ticked);
    assert forall i | t.heard <= i < |t.log| :: t.log[i].event.None?;
    NothingMoreExpected(s.host, s.log, t.heard, |s.log|);
  }

  lemma TickReadsAll(s: Net)
    requires Inv(s)
    ensures Unread(After(s, Tick)) >= |s.log|
  {
  }
}
