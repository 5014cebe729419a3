/**
 Hook events on their way from a host's spool to the app: the probe reads the spool and sends
 messages, the host task hands them over to the monitor's channel and acknowledges them, and a
 reconnect loses whatever is in flight and resumes from the stored acknowledgement. What becomes
 of the events that were handed over is the subject of module `Handovers`.

 The spool is the sequence of its records in cursor order: what one read from the first cursor
 returns (module `Pipelines`).
 */
module Deliveries {
  import opened Wrappers
  import Trackers

  type Op = Trackers.Op

  /** A spool record: its cursor and the event its hook maps to, if any. */
  datatype Entry = Entry(cursor: nat, event: Option<Trackers.Event>)

  /** A message to the app: a spool event, with the record it is of, or a scrape event. */
  datatype Msg = Spooled(i: nat, ev: Trackers.Event) | Scraped(ev: Trackers.Event)

  datatype Step =
    | Append(entry: Entry)
    | Tick // the probe reads new records and sends their events
    | Scrape(ev: Trackers.Event)
    | Deliver // the host task receives a message, hands it over and acknowledges it
    | StoreAck // an acknowledgement reaches the probe
    | Reconnect(unreadable: bool) // in-flight messages are lost; the ack file may not parse
    | Cleanup(n: nat) // the files of the first `n` records are deleted

  /** `handed` is what the host task has handed over, `heard` the number of records that covers. */
  datatype Net = Net(host: string, log: seq<Entry>, removed: nat, ack: nat, readCursor: nat,
                     toApp: seq<Msg>, toProbe: seq<nat>, handed: seq<Op>, heard: nat)

  function Start(host: string): Net { Net(host, [], 0, 0, 0, [], [], [], 0) }

  /** How many records are at or before `cursor`. */
  function Pos(log: seq<Entry>, cursor: nat): (n: nat)
    ensures n <= |log|
  {
    if log == [] then 0
    else if log[|log| - 1].cursor <= cursor then |log|
    else Pos(log[..|log| - 1], cursor)
  }

  function Max(a: nat, b: nat): nat { if a < b then b else a }

  /** The first record the probe has neither read nor deleted. */
  function Unread(s: Net): nat { Max(s.removed, Pos(s.log, s.readCursor)) }

  /** The spool event as the probe sends it. */
  function EventAt(log: seq<Entry>, i: nat): Trackers.Event
    requires i < |log| && log[i].event.Some?
  {
    log[i].event.value.(source := Trackers.Hook, offset := Some(log[i].cursor))
  }

  /** The messages for the records from `lo` to `hi`. */
  function Outgoing(log: seq<Entry>, lo: nat, hi: nat): seq<Msg>
    requires hi <= |log|
    decreases hi
  {
    if lo >= hi then []
    else if log[hi - 1].event.None? then Outgoing(log, lo, hi - 1)
    else Outgoing(log, lo, hi - 1) + [Spooled(hi - 1, EventAt(log, hi - 1))]
  }

  /** When a step can happen. The probe assigns growing cursors, scrape events carry no
      cursor, and only files whose records were received are deleted. */
  ghost predicate Enabled(s: Net, step: Step) {
    match step
    case Append(e) => e.cursor > 0 && (s.log != [] ==> s.log[|s.log| - 1].cursor < e.cursor)
    case Scrape(ev) => ev.source.Scrape? && ev.offset.None?
    case Deliver => s.toApp != []
    case StoreAck => s.toProbe != []
    case Cleanup(n) => n <= s.heard
    case _ => true
  }

  function After(s: Net, step: Step): Net
    requires Enabled(s, step)
  {
    match step
    case Append(e) => s.(log := s.log + [e])
    case Tick =>
      if Unread(s) >= |s.log| then s
      else s.(toApp := s.toApp + Outgoing(s.log, Unread(s), |s.log|), readCursor := s.log[|s.log| - 1].cursor)
    case Scrape(ev) => s.(toApp := s.toApp + [Scraped(ev)])
    case Deliver =>
      var m := s.toApp[0];
      s.(toApp := s.toApp[1..],
         handed := s.handed + [Trackers.Apply(s.host, m.ev)],
         toProbe := if m.ev.offset.Some? then s.toProbe + [m.ev.offset.value] else s.toProbe,
         heard := if m.Spooled? then Max(s.heard, m.i + 1) else s.heard)
    case StoreAck => s.(ack := s.toProbe[0], toProbe := s.toProbe[1..])
    case Reconnect(unreadable) =>
      s.(toApp := [], toProbe := [], readCursor := if unreadable then 0 else s.ack)
    case Cleanup(n) => s.(removed := Max(s.removed, n))
  }

  // ---- invariant ----

  predicate Growing(log: seq<Entry>) {
    && (forall i | 0 <= i < |log| :: log[i].cursor > 0)
    && (forall i, j | 0 <= i < j < |log| :: log[i].cursor < log[j].cursor)
  }

  /** `cursor` is the start of the spool or the cursor of one of the first `n` records. */
  ghost predicate Within(log: seq<Entry>, n: nat, cursor: nat) {
    cursor == 0 || exists j :: 0 <= j < n && j < |log| && log[j].cursor == cursor
  }

  /** A message in flight carries its record's event. */
  predicate Carries(log: seq<Entry>, n: nat, m: Msg) {
    match m
    case Spooled(i, ev) => i < n && i < |log| && log[i].event.Some? && ev == EventAt(log, i)
    case Scraped(ev) => ev.source.Scrape? && ev.offset.None?
  }

  /** Messages are in spool order, and none that the app still needs is missing. */
  ghost predicate InFlightOk(s: Net) {
    && s.removed <= s.heard <= |s.log|
    && Within(s.log, |s.log|, s.readCursor)
    && (forall m | m in s.toApp :: Carries(s.log, Unread(s), m))
    && (forall a, b | 0 <= a < b < |s.toApp| && s.toApp[a].Spooled? && s.toApp[b].Spooled? :: s.toApp[a].i < s.toApp[b].i)
    && (forall i | s.heard <= i < Unread(s) && i < |s.log| && s.log[i].event.Some? :: Spooled(i, EventAt(s.log, i)) in s.toApp)
  }

  /** Nothing is acknowledged that was not received. */
  ghost predicate AcksBehind(s: Net) {
    && s.heard <= |s.log|
    && Within(s.log, s.heard, s.ack)
    && forall a | a in s.toProbe :: Within(s.log, s.heard, a)
  }

  /** The spool events of this host in a history. */
  function Received(host: string, ops: seq<Op>): seq<Op> {
    if ops == [] then []
    else if Trackers.FromSpool(ops[|ops| - 1]) && ops[|ops| - 1].host == host
    then Received(host, ops[..|ops| - 1]) + [ops[|ops| - 1]]
    else Received(host, ops[..|ops| - 1])
  }

  /** The first `n` records' events, in order, as operations on the tracker. */
  function Expected(host: string, log: seq<Entry>, n: nat): seq<Op>
    requires n <= |log|
  {
    if n == 0 then []
    else if log[n - 1].event.None? then Expected(host, log, n - 1)
    else Expected(host, log, n - 1) + [Trackers.Apply(host, EventAt(log, n - 1))]
  }

  /** The operation is the event of one of the first `n` records. */
  ghost predicate OfRecord(host: string, log: seq<Entry>, n: nat, op: Op) {
    exists j :: 0 <= j < n && j < |log| && log[j].event.Some? && op == Trackers.Apply(host, EventAt(log, j))
  }

  /** Without redeliveries what was handed over is exactly the first `heard` records' events. */
  ghost predicate HistoryOk(host: string, log: seq<Entry>, heard: nat, ops: seq<Op>) {
    && heard <= |log|
    && Received(host, Trackers.Once(ops)) == Expected(host, log, heard)
    && (forall op | op in ops && Trackers.FromSpool(op) && op.host == host :: OfRecord(host, log, heard, op))
    && (forall j | 0 <= j < heard && log[j].event.Some? :: Trackers.Apply(host, EventAt(log, j)) in ops)
  }

  ghost predicate Inv(s: Net) { Growing(s.log) && InFlightOk(s) && AcksBehind(s) && HistoryOk(s.host, s.log, s.heard, s.handed) }

  // ---- positions ----

  lemma {:induction false} PosIs(log: seq<Entry>, cursor: nat, i: nat)
    requires Growing(log) && i < |log|
    ensures i < Pos(log, cursor) <==> log[i].cursor <= cursor
    decreases |log|
  {
    if log[|log| - 1].cursor > cursor && i < |log| - 1 {
      PosIs(log[..|log| - 1], cursor, i);
    }
  }

  /** Appending does not move a position already in the spool. */
  lemma {:induction false} PosStable(log: seq<Entry>, e: Entry, cursor: nat)
    requires Growing(log + [e]) && Within(log, |log|, cursor)
    ensures Pos(log + [e], cursor) == Pos(log, cursor)
  {
    assert (log + [e])[..|log|] == log;
    if cursor != 0 {
      var j :| 0 <= j < |log| && log[j].cursor == cursor;
      assert (log + [e])[j].cursor < (log + [e])[|log|].cursor;
    }
  }

  lemma {:induction false} PosWithin(log: seq<Entry>, n: nat, cursor: nat)
    requires Growing(log) && n <= |log| && Within(log, n, cursor)
    ensures Pos(log, cursor) <= n
  {
    if n < |log| {
      PosIs(log, cursor, n);
    }
  }

  lemma {:induction false} OutgoingIs(log: seq<Entry>, lo: nat, hi: nat)
    requires hi <= |log|
    ensures forall m | m in Outgoing(log, lo, hi) :: m.Spooled? && lo <= m.i && Carries(log, hi, m)
    ensures forall a, b | 0 <= a < b < |Outgoing(log, lo, hi)| :: Outgoing(log, lo, hi)[a].i < Outgoing(log, lo, hi)[b].i
    ensures forall i | lo <= i < hi && log[i].event.Some? :: Spooled(i, EventAt(log, i)) in Outgoing(log, lo, hi)
    decreases hi
  {
    if lo < hi {
      OutgoingIs(log, lo, hi - 1);
    }
  }

  // ---- every step keeps the invariant ----

  lemma {:induction false} ExpectedStable(host: string, log: seq<Entry>, e: Entry, n: nat)
    requires n <= |log|
    ensures Expected(host, log + [e], n) == Expected(host, log, n)
    decreases n
  {
    if n > 0 {
      ExpectedStable(host, log, e, n - 1);
    }
  }

  lemma {:induction false} AppendedInFlight(s: Net, e: Entry)
    requires Growing(s.log + [e]) && InFlightOk(s)
    ensures InFlightOk(s.(log := s.log + [e]))
  {
    hide Pos;
    var t := s.(log := s.log + [e]);
    PosStable(s.log, e, s.readCursor);
    assert Unread(t) == Unread(s) <= |s.log|;
    assert forall j | 0 <= j < |s.log| :: t.log[j] == s.log[j];
    assert forall m | m in s.toApp :: Carries(s.log, Unread(s), m);
    if s.readCursor != 0 {
      var j :| 0 <= j < |s.log| && s.log[j].cursor == s.readCursor;
      assert t.log[j].cursor == s.readCursor;
    }
  }

  lemma {:induction false} AppendKeeps(s: Net, e: Entry)
    requires Inv(s) && Enabled(s, Append(e))
    ensures Inv(After(s, Append(e)))
  {
    assert Growing(s.log + [e]);
    AppendedInFlight(s, e);
    AcksStable(s, e);
    HistoryStable(s, e);
  }

  lemma {:induction false} AcksStable(s: Net, e: Entry)
    requires AcksBehind(s)
    ensures AcksBehind(s.(log := s.log + [e]))
  {
    forall a: nat, n: nat | n <= |s.log| && Within(s.log, n, a)
      ensures Within(s.log + [e], n, a)
    {
      if a != 0 {
        var j :| 0 <= j < n && s.log[j].cursor == a;
        assert (s.log + [e])[j].cursor == a;
      }
    }
  }

  lemma {:induction false} HistoryStable(s: Net, e: Entry)
    requires HistoryOk(s.host, s.log, s.heard, s.handed)
    ensures HistoryOk(s.host, s.log + [e], s.heard, s.handed)
  {
    ExpectedStable(s.host, s.log, e, s.heard);
    forall op | OfRecord(s.host, s.log, s.heard, op)
      ensures OfRecord(s.host, s.log + [e], s.heard, op)
    {
      var j :| 0 <= j < s.heard && s.log[j].event.Some? && op == Trackers.Apply(s.host, EventAt(s.log, j));
      assert (s.log + [e])[j] == s.log[j];
    }
  }

  lemma {:induction false} TickedInFlight(s: Net)
    requires Growing(s.log) && InFlightOk(s) && Unread(s) < |s.log|
    ensures InFlightOk(After(s, Tick))
  {
    var t := After(s, Tick);
    OutgoingIs(s.log, Unread(s), |s.log|);
    assert Unread(t) == |s.log|;
    forall a, b | 0 <= a < b < |t.toApp| && t.toApp[a].Spooled? && t.toApp[b].Spooled?
      ensures t.toApp[a].i < t.toApp[b].i
    {
      if a < |s.toApp| <= b {
        assert Carries(s.log, Unread(s), s.toApp[a]);
        assert t.toApp[b] in Outgoing(s.log, Unread(s), |s.log|);
      }
    }
    assert forall m | m in s.toApp :: Carries(s.log, Unread(s), m);
    forall i | t.heard <= i < Unread(t) && i < |t.log| && t.log[i].event.Some?
      ensures Spooled(i, EventAt(t.log, i)) in t.toApp
    {
      assert i < Unread(s) ==> Spooled(i, EventAt(s.log, i)) in s.toApp;
    }
  }

  lemma {:induction false} TickKeeps(s: Net)
    requires Inv(s)
    ensures Inv(After(s, Tick))
  {
    if Unread(s) < |s.log| {
      TickedInFlight(s);
    }
  }

  lemma {:induction false} ReceivedSnoc(host: string, ops: seq<Op>, op: Op)
    ensures Received(host, ops + [op]) ==
      Received(host, ops) + if Trackers.FromSpool(op) && op.host == host then [op] else []
  {
    assert (ops + [op])[..|ops|] == ops;
    assert Received(host, ops) + [] == Received(host, ops);
  }

  lemma {:induction false} OnceSnoc(ops: seq<Op>, op: Op)
    ensures Trackers.Once(ops + [op]) == Trackers.Once(ops) + if Trackers.Repeats(ops, op) then [] else [op]
  {
    assert (ops + [op])[..|ops|] == ops;
    assert Trackers.Once(ops) + [] == Trackers.Once(ops);
  }

  /** Operations that are not this host's spool events leave its history alone. */
  lemma {:induction false} OtherOpKeeps(s: Net, op: Op)
    requires HistoryOk(s.host, s.log, s.heard, s.handed) && !(Trackers.FromSpool(op) && op.host == s.host)
    ensures HistoryOk(s.host, s.log, s.heard, s.handed + [op])
  {
    OnceSnoc(s.handed, op);
    ReceivedSnoc(s.host, Trackers.Once(s.handed), op);
    assert Trackers.Once(s.handed) + [] == Trackers.Once(s.handed);
  }

  /** A redelivered event is one the history covers. */
  lemma {:induction false} RedeliveryKeeps(s: Net, i: nat)
    requires HistoryOk(s.host, s.log, s.heard, s.handed) && i < s.heard && s.log[i].event.Some?
    ensures HistoryOk(s.host, s.log, s.heard, s.handed + [Trackers.Apply(s.host, EventAt(s.log, i))])
  {
    var op := Trackers.Apply(s.host, EventAt(s.log, i));
    var k :| 0 <= k < |s.handed| && s.handed[k] == op;
    assert Trackers.Covers(s.handed[k], op);
    OnceSnoc(s.handed, op);
    assert Trackers.Once(s.handed) + [] == Trackers.Once(s.handed);
    assert OfRecord(s.host, s.log, s.heard, op);
  }

  lemma {:induction false} ExpectedSkips(host: string, log: seq<Entry>, n: nat, m: nat)
    requires n <= m <= |log| && forall k | n <= k < m :: log[k].event.None?
    ensures Expected(host, log, m) == Expected(host, log, n)
    decreases m
  {
    if n < m {
      ExpectedSkips(host, log, n, m - 1);
    }
  }

  lemma {:induction false} FirstIsNoRepeat(s: Net, i: nat)
    requires Growing(s.log) && HistoryOk(s.host, s.log, s.heard, s.handed) && s.heard <= i < |s.log| && s.log[i].event.Some?
    ensures !Trackers.Repeats(s.handed, Trackers.Apply(s.host, EventAt(s.log, i)))
  {
    var op := Trackers.Apply(s.host, EventAt(s.log, i));
    forall k | 0 <= k < |s.handed|
      ensures !Trackers.Covers(s.handed[k], op)
    {
      if Trackers.FromSpool(s.handed[k]) && s.handed[k].host == s.host {
        assert OfRecord(s.host, s.log, s.heard, s.handed[k]);
      }
    }
  }

  lemma {:induction false} FirstDeliveryOrder(s: Net, i: nat)
    requires Growing(s.log) && HistoryOk(s.host, s.log, s.heard, s.handed) && s.heard <= i < |s.log| && s.log[i].event.Some?
    requires forall k | s.heard <= k < i :: s.log[k].event.None?
    ensures Received(s.host, Trackers.Once(s.handed + [Trackers.Apply(s.host, EventAt(s.log, i))])) ==
      Expected(s.host, s.log, i + 1)
  {
    FirstIsNoRepeat(s, i);
    OnceSnoc(s.handed, Trackers.Apply(s.host, EventAt(s.log, i)));
    ReceivedSnoc(s.host, Trackers.Once(s.handed), Trackers.Apply(s.host, EventAt(s.log, i)));
    ExpectedSkips(s.host, s.log, s.heard, i);
  }

  lemma {:induction false} OfRecordGrows(host: string, log: seq<Entry>, n: nat, m: nat, op: Op)
    requires n <= m <= |log| && OfRecord(host, log, n, op)
    ensures OfRecord(host, log, m, op)
  {
    var j :| 0 <= j < n && log[j].event.Some? && op == Trackers.Apply(host, EventAt(log, j));
  }

  /** A first delivery extends the history by the next record that has an event. */
  lemma {:induction false} FirstDeliveryKeeps(s: Net, i: nat)
    requires Growing(s.log) && HistoryOk(s.host, s.log, s.heard, s.handed) && s.heard <= i < |s.log| && s.log[i].event.Some?
    requires forall k | s.heard <= k < i :: s.log[k].event.None?
    ensures HistoryOk(s.host, s.log, i + 1, s.handed + [Trackers.Apply(s.host, EventAt(s.log, i))])
  {
    hide Trackers.Once, Received, Expected, Growing, Trackers.Repeats;
    var op := Trackers.Apply(s.host, EventAt(s.log, i));
    FirstDeliveryOrder(s, i);
    assert OfRecord(s.host, s.log, i + 1, op);
    forall o | o in s.handed && Trackers.FromSpool(o) && o.host == s.host
      ensures OfRecord(s.host, s.log, i + 1, o)
    {
      OfRecordGrows(s.host, s.log, s.heard, i + 1, o);
    }
  }

  /** A delivered spool event, first or again, keeps the history in order. */
  lemma {:induction false} SpooledHistory(s: Net, i: nat)
    requires Growing(s.log) && HistoryOk(s.host, s.log, s.heard, s.handed) && i < |s.log| && s.log[i].event.Some?
    requires forall k | s.heard <= k < i :: s.log[k].event.None?
    ensures HistoryOk(s.host, s.log, Max(s.heard, i + 1), s.handed + [Trackers.Apply(s.host, EventAt(s.log, i))])
  {
    if i < s.heard {
      RedeliveryKeeps(s, i);
    } else {
      FirstDeliveryKeeps(s, i);
    }
  }

  lemma {:induction false} DeliveredHistory(s: Net)
    requires Growing(s.log) && InFlightOk(s) && HistoryOk(s.host, s.log, s.heard, s.handed) && s.toApp != []
    ensures HistoryOk(s.host, s.log, After(s, Deliver).heard, After(s, Deliver).handed)
  {
    hide HistoryOk, Unread, Pos;
    var m := s.toApp[0];
    assert Carries(s.log, Unread(s), m);
    if m.Scraped? {
      OtherOpKeeps(s, Trackers.Apply(s.host, m.ev));
    } else {
      if s.heard <= m.i {
        NothingSkipped(s, m.i);
      }
      SpooledHistory(s, m.i);
    }
  }

  lemma {:induction false} DeliverKeeps(s: Net)
    requires Inv(s) && s.toApp != []
    ensures Inv(After(s, Deliver))
  {
    hide HistoryOk, AcksBehind;
    assert Carries(s.log, Unread(s), s.toApp[0]);
    DeliveredInFlight(s);
    DeliveredHistory(s);
    DeliveredAcks(s);
  }

  lemma {:induction false} NothingSkipped(s: Net, i: nat)
    requires InFlightOk(s) && s.toApp != [] && s.toApp[0].Spooled? && s.toApp[0].i == i && s.heard <= i
    ensures forall k | s.heard <= k < i && k < |s.log| :: s.log[k].event.None?
  {
    forall k | s.heard <= k < i && k < |s.log|
      ensures s.log[k].event.None?
    {
      assert Carries(s.log, Unread(s), s.toApp[0]);
    }
  }

  lemma {:induction false} DeliveredInFlight(s: Net)
    requires InFlightOk(s) && s.toApp != []
    ensures InFlightOk(After(s, Deliver))
  {
    var m, t := s.toApp[0], After(s, Deliver);
    assert Carries(s.log, Unread(s), m);
    forall i | t.heard <= i < Unread(t) && i < |t.log| && t.log[i].event.Some?
      ensures Spooled(i, EventAt(t.log, i)) in t.toApp
    {
      var a :| 0 <= a < |s.toApp| && s.toApp[a] == Spooled(i, EventAt(s.log, i));
      assert a != 0;
      assert t.toApp[a - 1] == s.toApp[a];
    }
    assert Unread(s) <= |s.log|;
  }

  lemma {:induction false} DeliveredAcks(s: Net)
    requires AcksBehind(s) && s.toApp != [] && Carries(s.log, |s.log|, s.toApp[0])
    ensures AcksBehind(After(s, Deliver))
  {
    var m, t := s.toApp[0], After(s, Deliver);
    forall a | a in t.toProbe
      ensures Within(t.log, t.heard, a)
    {
      if a !in s.toProbe {
        assert s.log[m.i].cursor == a && m.i < t.heard;
      }
    }
  }

  lemma {:induction false} ReconnectKeeps(s: Net, unreadable: bool)
    requires Inv(s)
    ensures Inv(After(s, Reconnect(unreadable)))
  {
    PosWithin(s.log, s.heard, if unreadable then 0 else s.ack);
  }

  lemma {:induction false} CleanupKeeps(s: Net, n: nat)
    requires Inv(s) && n <= s.heard
    ensures Inv(After(s, Cleanup(n)))
  {
    var t := After(s, Cleanup(n));
    forall m | m in s.toApp
      ensures Carries(s.log, Unread(t), m)
    {
      assert Carries(s.log, Unread(s), m);
    }
  }

  lemma {:induction false} StepKeeps(s: Net, step: Step)
    requires Inv(s) && Enabled(s, step)
    ensures Inv(After(s, step))
  {
    match step
    case Append(e) => AppendKeeps(s, e);
    case Tick => TickKeeps(s);
    case Deliver => DeliverKeeps(s);
    case Reconnect(unreadable) => ReconnectKeeps(s, unreadable);
    case Cleanup(n) => CleanupKeeps(s, n);
    case Scrape(ev) =>
    case StoreAck =>
  }

  // ---- runs ----

  /** `states` is a run: it starts afresh and takes each step when it is enabled. */
  ghost predicate IsRun(host: string, steps: seq<Step>, states: seq<Net>) {
    && |states| == |steps| + 1 && states[0] == Start(host)
    && forall i | 0 <= i < |steps| :: Enabled(states[i], steps[i]) && states[i + 1] == After(states[i], steps[i])
  }

  lemma {:induction false} StartsOk(host: string)
    ensures Inv(Start(host))
  {
    var s := Start(host);
    assert InFlightOk(s) && AcksBehind(s) && Growing(s.log) by {
      hide HistoryOk;
    }
    assert HistoryOk(host, [], 0, []) by {
      hide InFlightOk, AcksBehind, Growing;
      assert Trackers.Once([]) == [];
    }
  }

  lemma {:induction false} RunKeeps(host: string, steps: seq<Step>, states: seq<Net>, k: nat)
    requires IsRun(host, steps, states) && k <= |steps|
    ensures Inv(states[k]) && states[k].host == host
    decreases k
  {
    hide Inv;
    if k == 0 {
      StartsOk(host);
    } else {
      RunKeeps(host, steps, states, k - 1);
      StepKeeps(states[k - 1], steps[k - 1]);
    }
  }

  /** At every point of every run, whatever reconnects lose: every event up to the stored
      acknowledgement was handed over, and without redeliveries what was handed over are the
      spool's events in cursor order, from the first on, without gaps. */
  lemma {:induction false} HandedOverInOrder(host: string, steps: seq<Step>, states: seq<Net>, k: nat)
    requires IsRun(host, steps, states) && k <= |steps|
    ensures var s := states[k];
      && (forall i | 0 <= i < |s.log| && s.log[i].cursor <= s.ack && s.log[i].event.Some? ::
            Trackers.Apply(host, EventAt(s.log, i)) in s.handed)
      && s.heard <= |s.log| && Received(host, Trackers.Once(s.handed)) == Expected(host, s.log, s.heard)
  {
    RunKeeps(host, steps, states, k);
    AckedIsHandedOver(states[k]);
  }

  lemma {:induction false} AckedIsHandedOver(s: Net)
    requires Inv(s)
    ensures forall i | 0 <= i < |s.log| && s.log[i].cursor <= s.ack && s.log[i].event.Some? ::
              Trackers.Apply(s.host, EventAt(s.log, i)) in s.handed
  {
    PosWithin(s.log, s.heard, s.ack);
    forall i | 0 <= i < |s.log| && s.log[i].cursor <= s.ack && s.log[i].event.Some?
      ensures Trackers.Apply(s.host, EventAt(s.log, i)) in s.handed
    {
      PosIs(s.log, s.ack, i);
    }
  }
}
