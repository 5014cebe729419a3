/**
 From the host task to the tracker. Handing an event over means queueing it: it passes through
 channels to the monitor task, which drops it unless the incarnation of the host that sent it is
 the one it knows. The acknowledgement does not wait for that.

 The control messages about one host are `Added` and `Removed` in turn, so they are told apart by
 their number: `Added` of incarnation `g` is message 2 g - 1, `Removed` is message 2 g.
 */
module Handovers {
  import opened Wrappers
  import Trackers
  import opened Deliveries
  import opened Histories
  import opened Acknowledgements

  datatype Queued = Queued(incarnation: nat, op: Op)

  datatype Act =
    | Link(step: Deliveries.Step) // at the probe, on the link, or in the host task
    | Manage // the manager removes the host, or adds it again
    | TakeOver(unreadable: bool) // the host task of the latest incarnation has connected
    | Hear // the monitor hears the next control message
    | Take // the monitor takes the next event
    | Elsewhere(op: Op) // pane losses, acknowledgements and other hosts' events

  /** `running` is the incarnation whose host task has the link; of the `sent` control messages the
      monitor has heard `heard`. The tracker was sent `ops`; `dropped` never reached it. */
  datatype Sys = Sys(net: Net, running: nat, sent: nat, heard: nat, queue: seq<Queued>, ops: seq<Op>, dropped: seq<Op>)

  function Begin(host: string): Sys { Sys(Start(host), 1, 1, 0, [], [], []) }

  function Incarnations(sent: nat): nat { (sent + 1) / 2 }

  /** The monitor knows incarnation `g` as the current one. */
  predicate Knows(heard: nat, g: nat) { heard == 2 * g - 1 }

  /** When a step can happen. Before the first spool event of an incarnation the monitor has taken
      another event of it, and so has heard that it was added (`Managers.LaterEventFindsAdded`). */
  ghost predicate Can(s: Sys, act: Act) {
    match act
    case Link(step) => Enabled(s.net, step)
    case Manage => true
    case TakeOver(_) => s.running < Incarnations(s.sent)
    case Hear => s.heard < s.sent
    case Take => s.queue != [] && s.heard >= 2 * s.queue[0].incarnation - 1
    case Elsewhere(op) => !(Trackers.FromSpool(op) && op.host == s.net.host)
  }

  function Then(s: Sys, act: Act): Sys
    requires Can(s, act)
  {
    match act
    case Link(step) =>
      var net := After(s.net, step);
      s.(net := net,
         queue := if step.Deliver? then s.queue + [Queued(s.running, net.handed[|net.handed| - 1])] else s.queue)
    case Manage => s.(sent := s.sent + 1)
    case TakeOver(unreadable) => s.(net := After(s.net, Reconnect(unreadable)), running := Incarnations(s.sent))
    case Hear => s.(heard := s.heard + 1)
    case Take =>
      var q := s.queue[0];
      if Knows(s.heard, q.incarnation) then s.(queue := s.queue[1..], ops := s.ops + [q.op])
      else s.(queue := s.queue[1..], dropped := s.dropped + [q.op])
    case Elsewhere(op) => s.(ops := s.ops + [op])
  }

  /** `states` is a run: it starts afresh and takes each step when it can. */
  ghost predicate IsRunOf(host: string, acts: seq<Act>, states: seq<Sys>) {
    && |states| == |acts| + 1 && states[0] == Begin(host)
    && forall i | 0 <= i < |acts| :: Can(states[i], acts[i]) && states[i + 1] == Then(states[i], acts[i])
  }

  // ---- invariant ----

  function OpsOf(queue: seq<Queued>): seq<Op> { seq(|queue|, i requires 0 <= i < |queue| => queue[i].op) }

  /** What has left the queue. */
  function Taken(s: Sys): seq<Op>
    requires |s.queue| <= |s.net.handed|
  {
    s.net.handed[..|s.net.handed| - |s.queue|]
  }

  /** What was handed over has been taken, applied or dropped, or is still queued. */
  ghost predicate QueueOk(s: Sys) {
    && |s.queue| <= |s.net.handed|
    && s.net.handed == Taken(s) + OpsOf(s.queue)
    && (forall op | op in Taken(s) :: op in s.ops || op in s.dropped)
    && (forall op | op in s.ops && Trackers.FromSpool(op) && op.host == s.net.host :: op in s.net.handed)
    && (s.dropped == [] ==> Received(s.net.host, s.ops) == Received(s.net.host, Taken(s)))
  }

  ghost predicate InvOf(s: Sys) { Inv(s.net) && QueueOk(s) }

  lemma {:induction false} LinkKeepsQueue(s: Sys, step: Deliveries.Step)
    requires QueueOk(s) && Enabled(s.net, step)
    ensures QueueOk(Then(s, Link(step)))
  {
    var t := Then(s, Link(step));
    if step.Deliver? {
      assert OpsOf(t.queue) == OpsOf(s.queue) + [t.queue[|s.queue|].op];
      assert t.net.handed == s.net.handed + [t.queue[|s.queue|].op];
    }
    assert Taken(t) == Taken(s);
  }

  lemma {:induction false} TakenGrows(s: Sys)
    requires QueueOk(s) && Can(s, Take)
    ensures
      var t, op := Then(s, Take), s.queue[0].op;
      |t.queue| <= |t.net.handed| && Taken(t) == Taken(s) + [op] && t.net.handed == Taken(t) + OpsOf(t.queue)
  {
    hide Received;
    var t, op := Then(s, Take), s.queue[0].op;
    assert OpsOf(s.queue) == [op] + OpsOf(t.queue);
    assert Taken(s) + OpsOf(s.queue) == Taken(s) + [op] + OpsOf(t.queue);
  }

  lemma {:induction false} TakeKeepsQueue(s: Sys)
    requires QueueOk(s) && Can(s, Take)
    ensures QueueOk(Then(s, Take))
  {
    hide Received, OpsOf, Taken;
    var t, op := Then(s, Take), s.queue[0].op;
    TakenGrows(s);
    if t.dropped == [] {
      ReceivedSnoc(s.net.host, Taken(s), op);
      ReceivedSnoc(s.net.host, s.ops, op);
    }
    forall o | o in Taken(t)
      ensures o in t.ops || o in t.dropped
    {
      assert o in Taken(s) || o == op;
    }
  }

  lemma {:induction false} ActKeeps(s: Sys, act: Act)
    requires InvOf(s) && Can(s, act)
    ensures InvOf(Then(s, act)) && Then(s, act).net.host == s.net.host
  {
    hide Inv, QueueOk;
    match act
    case Link(step) =>
      StepKeeps(s.net, step);
      LinkKeepsQueue(s, step);
    case TakeOver(unreadable) =>
      ReconnectKeeps(s.net, unreadable);
      LinkKeepsQueue(s, Reconnect(unreadable));
      SameQueue(Then(s, Link(Reconnect(unreadable))), Then(s, act));
    case Take => TakeKeepsQueue(s);
    case Elsewhere(op) => ElsewhereKeepsQueue(s, op);
    case Manage => SameQueue(s, Then(s, act));
    case Hear => SameQueue(s, Then(s, act));
  }

  lemma SameQueue(s: Sys, t: Sys)
    requires QueueOk(s) && t == s.(running := t.running, sent := t.sent, heard := t.heard)
    ensures QueueOk(t)
  {
  }

  lemma {:induction false} ElsewhereKeepsQueue(s: Sys, op: Op)
    requires QueueOk(s) && !(Trackers.FromSpool(op) && op.host == s.net.host)
    ensures QueueOk(s.(ops := s.ops + [op]))
  {
    ReceivedSnoc(s.net.host, s.ops, op);
    assert Received(s.net.host, s.ops) + [] == Received(s.net.host, s.ops);
  }

  lemma BeginsOk(host: string)
    ensures InvOf(Begin(host)) && Begin(host).net.host == host
  {
    hide Inv;
    StartsOk(host);
    assert OpsOf([]) == [];
  }

  lemma {:induction false} RunKeepsInv(host: string, acts: seq<Act>, states: seq<Sys>, k: nat)
    requires IsRunOf(host, acts, states) && k <= |acts|
    ensures InvOf(states[k]) && states[k].net.host == host
    decreases k
  {
    hide InvOf;
    if k == 0 {
      BeginsOk(host);
    } else {
      RunKeepsInv(host, acts, states, k - 1);
      ActKeeps(states[k - 1], acts[k - 1]);
    }
  }

  // ---- as long as nothing was dropped ----

  /** As long as the monitor drops nothing, every event up to the stored acknowledgement has reached the
      tracker or is queued for it, and without redeliveries the tracker's events and the queue are the
      spool's events in cursor order, from the first on, without gaps. */
  lemma {:induction false} NothingMissingUntilDropped(host: string, acts: seq<Act>, states: seq<Sys>, k: nat)
    requires IsRunOf(host, acts, states) && k <= |acts| && states[k].dropped == []
    ensures var s := states[k];
      && (forall i | 0 <= i < |s.net.log| && s.net.log[i].cursor <= s.net.ack && s.net.log[i].event.Some? ::
            Trackers.Apply(host, EventAt(s.net.log, i)) in s.ops + OpsOf(s.queue))
      && s.net.heard <= |s.net.log|
      && Received(host, Trackers.Once(s.ops + OpsOf(s.queue))) == Expected(host, s.net.log, s.net.heard)
      && Received(host, Trackers.Once(s.ops)) <= Expected(host, s.net.log, s.net.heard)
  {
    var s := states[k];
    RunKeepsInv(host, acts, states, k);
    AckedIsHandedOver(s.net);
    WholeHistory(s);
  }

  lemma {:induction false} WholeHistory(s: Sys)
    requires InvOf(s) && s.dropped == []
    ensures
      var host, all := s.net.host, s.ops + OpsOf(s.queue);
      && Received(host, Trackers.Once(all)) == Expected(host, s.net.log, s.net.heard)
      && Received(host, Trackers.Once(s.ops)) <= Received(host, Trackers.Once(all))
  {
    var host, waiting := s.net.host, OpsOf(s.queue);
    ReceivedCat(host, s.ops, waiting);
    ReceivedCat(host, Taken(s), waiting);
    assert Received(host, s.ops + waiting) == Received(host, s.net.handed);
    ReceivedOnce(host, s.ops + waiting);
    ReceivedOnce(host, s.net.handed);
    ReceivedOnce(host, s.ops);
    OncePrefix(Received(host, s.ops), Received(host, waiting));
  }

  // ---- exactly when something is dropped ----

  /** Step `h` makes the monitor hear control message `n`. */
  ghost predicate HearsAt(host: string, acts: seq<Act>, states: seq<Sys>, h: nat, n: int)
  {
    h < |acts| && h < |states| && acts[h].Hear? && states[h].heard + 1 == n
  }

  /** By step `t` the monitor has heard control message `n`. */
  ghost predicate HeardBy(host: string, acts: seq<Act>, states: seq<Sys>, t: nat, n: int)
  {
    exists h: nat :: h < t && HearsAt(host, acts, states, h, n)
  }

  /** Step `t` takes `op` from the queue. */
  ghost predicate TakesAt(host: string, acts: seq<Act>, states: seq<Sys>, t: nat, op: Op)
  {
    t < |acts| && t < |states| && acts[t].Take? && states[t].queue != [] && states[t].queue[0].op == op
  }

  /** At step `t` the monitor has not heard that the incarnation it takes an event of was removed. */
  ghost predicate InTime(host: string, acts: seq<Act>, states: seq<Sys>, t: nat)
  {
    t < |acts| && t < |states| && states[t].queue != [] && !HeardBy(host, acts, states, t, 2 * states[t].queue[0].incarnation)
  }

  lemma {:induction false} HeardCounts(host: string, acts: seq<Act>, states: seq<Sys>, t: nat, n: nat)
    requires IsRunOf(host, acts, states) && t <= |acts| && n > 0
    ensures states[t].heard >= n <==> HeardBy(host, acts, states, t, n)
    decreases t
  {
    if t > 0 {
      HeardCounts(host, acts, states, t - 1, n);
      if HearsAt(host, acts, states, t - 1, n) {
        assert states[t].heard >= n;
      } else if HeardBy(host, acts, states, t, n) {
        var h: nat :| h < t && HearsAt(host, acts, states, h, n);
        assert h < t - 1;
      }
    }
  }

  /** Only incarnations that exist hand anything over. */
  lemma {:induction false} QueuedByIncarnation(host: string, acts: seq<Act>, states: seq<Sys>, t: nat)
    requires IsRunOf(host, acts, states) && t <= |acts|
    ensures states[t].running > 0 && forall q | q in states[t].queue :: q.incarnation > 0
    decreases t
  {
    if t > 0 {
      QueuedByIncarnation(host, acts, states, t - 1);
    }
  }

  /** What one step does to what was applied and dropped. */
  lemma {:induction false} TakenInTime(host: string, acts: seq<Act>, states: seq<Sys>, t: nat)
    requires IsRunOf(host, acts, states) && t < |acts| && acts[t].Take?
    ensures
      var s, op := states[t], states[t].queue[0].op;
      if InTime(host, acts, states, t) then states[t + 1].ops == s.ops + [op] && states[t + 1].dropped == s.dropped
      else states[t + 1].ops == s.ops && states[t + 1].dropped == s.dropped + [op]
  {
    var g := states[t].queue[0].incarnation;
    QueuedByIncarnation(host, acts, states, t);
    assert states[t].queue[0] in states[t].queue;
    HeardCounts(host, acts, states, t, 2 * g);
  }

  /** The monitor has dropped nothing if and only if it took every event in time. */
  lemma {:induction false} NothingDroppedIff(host: string, acts: seq<Act>, states: seq<Sys>, k: nat)
    requires IsRunOf(host, acts, states) && k <= |acts|
    ensures states[k].dropped == [] <==> forall t: nat | t < k && acts[t].Take? :: InTime(host, acts, states, t)
    decreases k
  {
    hide InTime;
    if k > 0 {
      NothingDroppedIff(host, acts, states, k - 1);
      if acts[k - 1].Take? {
        TakenInTime(host, acts, states, k - 1);
      }
    }
  }

  /** Step `t` takes `op` in time. */
  ghost predicate AppliesAt(host: string, acts: seq<Act>, states: seq<Sys>, t: nat, op: Op)
  {
    TakesAt(host, acts, states, t, op) && InTime(host, acts, states, t)
  }

  /** Before step `k`, `op` was taken in time. */
  ghost predicate AppliedBy(host: string, acts: seq<Act>, states: seq<Sys>, k: nat, op: Op)
  {
    exists t: nat :: t < k && AppliesAt(host, acts, states, t, op)
  }

  /** What one step adds to the tracker's operations. */
  lemma {:induction false} OpsNext(host: string, acts: seq<Act>, states: seq<Sys>, t: nat)
    requires IsRunOf(host, acts, states) && t < |acts|
    ensures
      var s, n := states[t], states[t + 1];
      match acts[t]
      case Take =>
        s.queue != [] &&
        var op := s.queue[0].op;
        TakesAt(host, acts, states, t, op) && n.ops == if AppliesAt(host, acts, states, t, op) then s.ops + [op] else s.ops
      case Elsewhere(op) => n.ops == s.ops + [op] && !(Trackers.FromSpool(op) && op.host == host)
      case _ => n.ops == s.ops
  {
    hide InTime, After, InvOf;
    RunKeepsInv(host, acts, states, t);
    if acts[t].Take? {
      TakenInTime(host, acts, states, t);
    }
  }

  lemma {:induction false} AppliedByNext(host: string, acts: seq<Act>, states: seq<Sys>, k: nat, op: Op)
    requires IsRunOf(host, acts, states)
    ensures AppliedBy(host, acts, states, k + 1, op) <==> AppliedBy(host, acts, states, k, op) || AppliesAt(host, acts, states, k, op)
  {
    hide AppliesAt;
    if AppliedBy(host, acts, states, k + 1, op) {
      var t: nat :| t < k + 1 && AppliesAt(host, acts, states, t, op);
    }
  }

  /** A spool event of the host is among the tracker's operations if and only if it was taken in time. */
  lemma {:induction false} AppliedIffTakenInTime(host: string, acts: seq<Act>, states: seq<Sys>, k: nat, op: Op)
    requires IsRunOf(host, acts, states) && k <= |acts| && Trackers.FromSpool(op) && op.host == host
    ensures op in states[k].ops <==> AppliedBy(host, acts, states, k, op)
    decreases k
  {
    hide InTime, AppliedBy, Can, Then;
    if k == 0 {
      assert AppliedBy(host, acts, states, 0, op) ==> false by {
        NothingAppliedYet(host, acts, states, op);
      }
    } else {
      AppliedIffTakenInTime(host, acts, states, k - 1, op);
      OpsNext(host, acts, states, k - 1);
      AppliedByNext(host, acts, states, k - 1, op);
    }
  }

  lemma NothingAppliedYet(host: string, acts: seq<Act>, states: seq<Sys>, op: Op)
    requires IsRunOf(host, acts, states)
    ensures !AppliedBy(host, acts, states, 0, op)
  {
  }

  /** What is queued stays queued until it is taken, and what is handed over is queued. */
  lemma {:induction false} QueueStep(s: Sys, act: Act, op: Op)
    requires Can(s, act)
    ensures op in OpsOf(s.queue) ==> op in OpsOf(Then(s, act).queue) || (act.Take? && s.queue[0].op == op)
    ensures op in Then(s, act).net.handed ==> op in s.net.handed || op in OpsOf(Then(s, act).queue)
  {
    hide Enabled, Unread;
    var t := Then(s, act);
    if act == Link(Deliver) {
      assert OpsOf(t.queue) == OpsOf(s.queue) + [t.queue[|s.queue|].op];
    } else if act.Take? {
      assert OpsOf(s.queue) == [s.queue[0].op] + OpsOf(t.queue);
    }
  }

  /** What was handed over is queued or was taken. */
  lemma {:induction false} QueuedOrTaken(host: string, acts: seq<Act>, states: seq<Sys>, k: nat, op: Op)
    requires IsRunOf(host, acts, states) && k <= |acts| && op in states[k].net.handed
    ensures op in OpsOf(states[k].queue) || exists t: nat :: t < k && TakesAt(host, acts, states, t, op)
    decreases k
  {
    hide OpsOf, Then, Enabled;
    if k > 0 {
      QueueStep(states[k - 1], acts[k - 1], op);
      if op in states[k - 1].net.handed {
        QueuedOrTaken(host, acts, states, k - 1, op);
        assert acts[k - 1].Take? && states[k - 1].queue[0].op == op ==> TakesAt(host, acts, states, k - 1, op);
      }
    }
  }

  // ---- exactly which events have an effect ----

  /** Before step `k` an event of the same agent, not earlier in the spool, was taken in time. */
  ghost predicate CoveredBy(host: string, acts: seq<Act>, states: seq<Sys>, k: nat, op: Op)
  {
    exists b :: AppliedBy(host, acts, states, k, b) && Trackers.Covers(b, op)
  }

  lemma {:induction false} CoveredIffRepeats(host: string, acts: seq<Act>, states: seq<Sys>, k: nat, op: Op)
    requires IsRunOf(host, acts, states) && k <= |acts| && Trackers.FromSpool(op) && op.host == host
    ensures CoveredBy(host, acts, states, k, op) <==> Trackers.Repeats(states[k].ops, op)
  {
    hide Can, Then, AppliedBy;
    var ops := states[k].ops;
    if CoveredBy(host, acts, states, k, op) {
      var b :| AppliedBy(host, acts, states, k, b) && Trackers.Covers(b, op);
      AppliedIffTakenInTime(host, acts, states, k, b);
      var x :| 0 <= x < |ops| && ops[x] == b;
      assert Trackers.Covers(ops[x], op);
    }
    if Trackers.Repeats(ops, op) {
      var x :| 0 <= x < |ops| && Trackers.Covers(ops[x], op);
      AppliedIffTakenInTime(host, acts, states, k, ops[x]);
    }
  }

  /** A spool event of the host had an effect if and only if it was taken in time before every event
      that covers it. */
  lemma {:induction false} EffectiveIff(host: string, acts: seq<Act>, states: seq<Sys>, k: nat, op: Op)
    requires IsRunOf(host, acts, states) && k <= |acts| && Trackers.FromSpool(op) && op.host == host
    ensures
      op in Trackers.Once(states[k].ops) <==>
        exists t: nat :: t < k && AppliesAt(host, acts, states, t, op) && !CoveredBy(host, acts, states, t, op)
    decreases k
  {
    hide AppliesAt, CoveredBy, TakesAt, Can, Then;
    if k > 0 {
      var s := states[k - 1];
      EffectiveIff(host, acts, states, k - 1, op);
      OpsNext(host, acts, states, k - 1);
      CoveredIffRepeats(host, acts, states, k - 1, op);
      if AppliesAt(host, acts, states, k - 1, op) {
        AppliesOnlyHead(host, acts, states, k - 1, op);
      }
      if acts[k - 1].Take? {
        OnceHas(s.ops, op, s.queue[0].op);
      } else if acts[k - 1].Elsewhere? {
        OnceHas(s.ops, op, acts[k - 1].op);
      }
    }
  }

  lemma AppliesOnlyHead(host: string, acts: seq<Act>, states: seq<Sys>, t: nat, op: Op)
    requires IsRunOf(host, acts, states) && AppliesAt(host, acts, states, t, op)
    ensures t < |acts| && acts[t].Take? && states[t].queue != [] && states[t].queue[0].op == op
  {
  }

  /** An event that is acknowledged and no longer queued has had no effect on the tracker if and only
      if the monitor took it, every time, after it had heard that the incarnation was removed, or
      after it had applied a later event of the same agent. */
  lemma {:induction false} AcknowledgedLostIff(host: string, acts: seq<Act>, states: seq<Sys>, k: nat, i: nat)
    requires IsRunOf(host, acts, states) && k <= |acts|
    requires HasEvent(states[k].net.log, i) && states[k].net.log[i].cursor <= states[k].net.ack
    requires OpAt(host, states[k].net.log, i) !in OpsOf(states[k].queue)
    ensures
      var op := OpAt(host, states[k].net.log, i);
      && (exists t: nat :: t < k && TakesAt(host, acts, states, t, op))
      && (op !in Trackers.Once(states[k].ops) <==>
          forall t: nat | t < k && TakesAt(host, acts, states, t, op) ::
            !InTime(host, acts, states, t) || CoveredBy(host, acts, states, t, op))
  {
    hide CoveredBy, TakesAt, InTime, Can, Then;
    var op := OpAt(host, states[k].net.log, i);
    RunKeepsInv(host, acts, states, k);
    AckedIsHandedOver(states[k].net);
    QueuedOrTaken(host, acts, states, k, op);
    EffectiveIff(host, acts, states, k, op);
  }

  // ---- exactly when there is no gap ----

  /** Every spool event that was taken in time before step `m` was taken after those of all earlier
      records. */
  ghost predicate InSpoolOrder(host: string, acts: seq<Act>, states: seq<Sys>, log: seq<Entry>, m: nat)
  {
    forall t: nat, i: nat, j: nat
      | t < m && HasEvent(log, i) && HasEvent(log, j) && j < i && AppliesAt(host, acts, states, t, OpAt(host, log, i)) ::
      AppliedBy(host, acts, states, t, OpAt(host, log, j))
  }

  /** ... of which this is one step. */
  ghost predicate OrderedAt(host: string, acts: seq<Act>, states: seq<Sys>, log: seq<Entry>, t: nat)
  {
    forall i: nat, j: nat
      | HasEvent(log, i) && HasEvent(log, j) && j < i && AppliesAt(host, acts, states, t, OpAt(host, log, i)) ::
      AppliedBy(host, acts, states, t, OpAt(host, log, j))
  }

  lemma {:induction false} InSpoolOrderNext(host: string, acts: seq<Act>, states: seq<Sys>, log: seq<Entry>, m: nat)
    requires IsRunOf(host, acts, states)
    ensures InSpoolOrder(host, acts, states, log, m + 1) <==> InSpoolOrder(host, acts, states, log, m) && OrderedAt(host, acts, states, log, m)
  {
    hide AppliesAt, AppliedBy, IsRunOf, HasEvent;
  }

  lemma {:induction false} OrderedIffPrecedes(host: string, acts: seq<Act>, states: seq<Sys>, log: seq<Entry>, t: nat, op: Op)
    requires IsRunOf(host, acts, states) && t < |acts| && AppliesAt(host, acts, states, t, op)
    ensures OrderedAt(host, acts, states, log, t) <==> Precedes(host, log, Received(host, states[t].ops), op)
  {
    hide Can, Then, AppliedBy, Received, InTime;
    forall j: nat | HasEvent(log, j)
      ensures OpAt(host, log, j) in Received(host, states[t].ops) <==> AppliedBy(host, acts, states, t, OpAt(host, log, j))
    {
      ReceivedHas(host, states[t].ops, OpAt(host, log, j));
      AppliedIffTakenInTime(host, acts, states, t, OpAt(host, log, j));
    }
    forall i: nat | HasEvent(log, i)
      ensures AppliesAt(host, acts, states, t, OpAt(host, log, i)) <==> op == OpAt(host, log, i)
    {
    }
  }

  lemma {:induction false} NotOrderedOnlyIfApplies(host: string, acts: seq<Act>, states: seq<Sys>, log: seq<Entry>, t: nat)
    requires IsRunOf(host, acts, states)
    requires forall i: nat | HasEvent(log, i) :: !AppliesAt(host, acts, states, t, OpAt(host, log, i))
    ensures OrderedAt(host, acts, states, log, t)
  {
    hide IsRunOf, AppliedBy, AppliesAt;
  }

  lemma {:induction false} CompleteIffInSpoolOrder(host: string, acts: seq<Act>, states: seq<Sys>, log: seq<Entry>, m: nat)
    requires IsRunOf(host, acts, states) && m <= |acts|
    ensures Complete(host, log, Received(host, states[m].ops)) <==> InSpoolOrder(host, acts, states, log, m)
    decreases m
  {
    hide Complete, InSpoolOrder, OrderedAt, InTime, Can, Then, Precedes;
    if m == 0 {
      NothingIsGapFree(host, log);
      NothingInSpoolOrder(host, acts, states, log);
    } else {
      CompleteIffInSpoolOrder(host, acts, states, log, m - 1);
      InSpoolOrderNext(host, acts, states, log, m - 1);
      CompleteNext(host, acts, states, log, m - 1);
    }
  }

  lemma NothingInSpoolOrder(host: string, acts: seq<Act>, states: seq<Sys>, log: seq<Entry>)
    requires IsRunOf(host, acts, states)
    ensures InSpoolOrder(host, acts, states, log, 0)
  {
    hide AppliesAt, AppliedBy, IsRunOf;
  }

  lemma {:induction false} CompleteNext(host: string, acts: seq<Act>, states: seq<Sys>, log: seq<Entry>, t: nat)
    requires IsRunOf(host, acts, states) && t < |acts|
    ensures
      Complete(host, log, Received(host, states[t + 1].ops)) <==>
        Complete(host, log, Received(host, states[t].ops)) && OrderedAt(host, acts, states, log, t)
  {
    hide Complete, OrderedAt, InTime, Can, Then, Precedes;
    var ops := states[t].ops;
    OpsNext(host, acts, states, t);
    if acts[t].Take? && AppliesAt(host, acts, states, t, states[t].queue[0].op) {
      var op := states[t].queue[0].op;
      ReceivedSnoc(host, ops, op);
      if Trackers.FromSpool(op) && op.host == host {
        CompleteSnoc(host, log, Received(host, ops), op);
        OrderedIffPrecedes(host, acts, states, log, t, op);
      } else {
        assert Received(host, ops) + [] == Received(host, ops);
        NotOrderedOnlyIfApplies(host, acts, states, log, t);
      }
    } else {
      if acts[t].Elsewhere? {
        ReceivedSnoc(host, ops, acts[t].op);
        assert Received(host, ops) + [] == Received(host, ops);
      }
      NotOrderedOnlyIfApplies(host, acts, states, log, t);
    }
  }

  lemma {:induction false} ReceivedIsOfLog(s: Sys)
    requires InvOf(s)
    ensures Growing(s.net.log) && OfLog(s.net.host, s.net.log, Received(s.net.host, s.ops))
  {
    forall op | op in Received(s.net.host, s.ops)
      ensures OfRecord(s.net.host, s.net.log, |s.net.log|, op)
    {
      ReceivedHas(s.net.host, s.ops, op);
      OfRecordGrows(s.net.host, s.net.log, s.net.heard, |s.net.log|, op);
    }
  }

  /** At every point of every run, whatever was lost or dropped on the way:
      - leaving out the redelivered events changes neither the records nor the alerts;
      - what is left of the host's spool events are the spool's events in cursor order, from the first
        on and without gaps, if and only if the monitor took each of them in time only after it had
        taken those of all earlier records in time. */
  lemma {:induction false} EffectOnce(cfg: Trackers.Config, host: string, acts: seq<Act>, states: seq<Sys>, k: nat)
    requires IsRunOf(host, acts, states) && k <= |acts|
    ensures Trackers.Run(cfg, Trackers.Once(states[k].ops)) == Trackers.Run(cfg, states[k].ops)
    ensures
      var s := states[k];
      FirstRecords(host, s.net.log, Received(host, Trackers.Once(s.ops))) <==>
        InSpoolOrder(host, acts, states, s.net.log, k)
  {
    hide InSpoolOrder, Can, Then, Complete, FirstRecords, InvOf, Received, Trackers.Once, Trackers.Run;
    var s := states[k];
    var r := Received(host, s.ops);
    RunKeepsInv(host, acts, states, k);
    Trackers.RedeliveryHasNoEffect(cfg, s.ops);
    ReceivedIsOfLog(s);
    ReceivedOnce(host, s.ops);
    GapFreeIffComplete(host, s.net.log, r);
    CompleteIffInSpoolOrder(host, acts, states, s.net.log, k);
  }

  // ---- an acknowledged event that was dropped ----

  lemma {:induction false} RunStaysAhead(host: string, acts: seq<Act>, states: seq<Sys>, k: nat)
    requires IsRunOf(host, acts, states) && k <= |acts|
    requires forall j | 0 <= j < k :: acts[j] != Link(Reconnect(true)) && acts[j] != TakeOver(true)
    ensures Ahead(states[k].net)
    decreases k
  {
    hide Ahead, Inv;
    if k == 0 {
      StartIsAhead(host);
    } else {
      RunStaysAhead(host, acts, states, k - 1);
      RunKeepsInv(host, acts, states, k - 1);
      match acts[k - 1]
      case Link(step) => StepKeepsAhead(states[k - 1].net, step);
      case TakeOver(unreadable) => StepKeepsAhead(states[k - 1].net, Reconnect(false));
      case _ =>
    }
  }

  lemma StartIsAhead(host: string)
    ensures Ahead(Start(host))
  {
  }

  /** A spool event that is neither applied nor queued stays so in a step that does not hand it over. */
  lemma {:induction false} StaysAway(s: Sys, act: Act, op: Op)
    requires Can(s, act) && Trackers.FromSpool(op) && op.host == s.net.host
    requires op !in s.ops && op !in OpsOf(s.queue)
    requires act == Link(Deliver) ==> op != Trackers.Apply(s.net.host, s.net.toApp[0].ev)
    ensures op !in Then(s, act).ops && op !in OpsOf(Then(s, act).queue)
  {
    var t := Then(s, act);
    if act == Link(Deliver) {
      assert OpsOf(t.queue) == OpsOf(s.queue) + [t.queue[|s.queue|].op];
    } else if act.Take? {
      assert OpsOf(s.queue) == [s.queue[0].op] + OpsOf(t.queue);
      assert OpsOf(s.queue)[0] == s.queue[0].op;
    }
  }

  /** An acknowledged record stays as it is and acknowledged, and its event is not handed over. */
  lemma {:induction false} StaysAcknowledged(s: Sys, act: Act, i: nat)
    requires Inv(s.net) && Ahead(s.net) && Can(s, act) && act != Link(Reconnect(true)) && act != TakeOver(true)
    requires i < |s.net.log| && s.net.log[i].event.Some? && s.net.log[i].cursor <= s.net.ack
    ensures
      var t := Then(s, act);
      && i < |t.net.log| && t.net.log[i] == s.net.log[i] && t.net.log[i].cursor <= t.net.ack
      && (act == Link(Deliver) ==> Trackers.Apply(s.net.host, EventAt(s.net.log, i)) != Trackers.Apply(s.net.host, s.net.toApp[0].ev))
  {
    hide Inv, Ahead;
    match act
    case Link(step) =>
      StepKeepsAhead(s.net, step);
      NotHandedOverAgain(s.net, step, i);
    case TakeOver(unreadable) =>
      StepKeepsAhead(s.net, Reconnect(false));
    case _ =>
  }

  /** An acknowledged event that is lost stays lost: unless the acknowledgement itself cannot be read,
      no reconnect and no later incarnation sends it again. */
  lemma {:induction false} LostForGood(host: string, acts: seq<Act>, states: seq<Sys>, k: nat, m: nat, i: nat)
    requires IsRunOf(host, acts, states) && k <= m <= |acts|
    requires forall j | 0 <= j < m :: acts[j] != Link(Reconnect(true)) && acts[j] != TakeOver(true)
    requires var net := states[k].net; i < |net.log| && net.log[i].event.Some? && net.log[i].cursor <= net.ack
    requires
      var op := Trackers.Apply(host, EventAt(states[k].net.log, i));
      op !in states[k].ops && op !in OpsOf(states[k].queue)
    ensures
      var op := Trackers.Apply(host, EventAt(states[k].net.log, i));
      && i < |states[m].net.log| && states[m].net.log[i] == states[k].net.log[i]
      && states[m].net.log[i].cursor <= states[m].net.ack
      && op !in states[m].ops && op !in OpsOf(states[m].queue)
    decreases m
  {
    hide Ahead, Inv, QueueOk, Then, OpsOf, Can;
    if k < m {
      LostForGood(host, acts, states, k, m - 1, i);
      RunKeepsInv(host, acts, states, m - 1);
      RunStaysAhead(host, acts, states, m - 1);
      StaysAcknowledged(states[m - 1], acts[m - 1], i);
      StaysAway(states[m - 1], acts[m - 1], Trackers.Apply(host, EventAt(states[k].net.log, i)));
    }
  }

  // ---- runs ----

  /** One more step. */
  lemma Go(host: string, acts: seq<Act>, states: seq<Sys>, act: Act) returns (acts': seq<Act>, states': seq<Sys>)
    requires IsRunOf(host, acts, states) && |states| == |acts| + 1 && Can(states[|acts|], act)
    ensures IsRunOf(host, acts', states') && |acts'| == |acts| + 1 && |states'| == |acts'| + 1
    ensures states'[|acts'|] == Then(states[|acts|], act)
  {
    hide Can, Then;
    acts', states' := acts + [act], states + [Then(states[|acts|], act)];
    forall i | 0 <= i < |acts'|
      ensures Can(states'[i], acts'[i]) && states'[i + 1] == Then(states'[i], acts'[i])
    {
    }
  }

  /** The probe reads what it has not read and sends the one event. */
  lemma TickSends(s: Net, e: Entry, i: nat)
    requires i < |s.log| && s.log[i] == e && e.event.Some? && |s.log| == i + 1 && Unread(s) == i && s.toApp == []
    ensures Enabled(s, Tick) && After(s, Tick) == s.(toApp := [Spooled(i, EventAt(s.log, i))], readCursor := e.cursor)
  {
    assert Outgoing(s.log, i, i + 1) == [] + [Spooled(i, EventAt(s.log, i))];
  }

  /** The host is added, a record lands, and its event is handed over. */
  lemma OneHandedOver(ev: Trackers.Event) returns (acts: seq<Act>, states: seq<Sys>)
    ensures IsRunOf("h", acts, states) && |states| == |acts| + 1
    ensures
      var e, net := Entry(1, Some(ev)), Start("h");
      states[|acts|] == Begin("h").(heard := 1, queue := [Queued(1, OpAt("h", [e], 0))],
        net := net.(log := [e], readCursor := 1, toProbe := [1], handed := [OpAt("h", [e], 0)], heard := 1))
  {
    hide IsRunOf;
    var e := Entry(1, Some(ev));
    acts, states := [], [Begin("h")];
    assert IsRunOf("h", [], [Begin("h")]) by {
      NoStepsAreARun("h");
    }
    acts, states := Go("h", acts, states, Hear);
    acts, states := Go("h", acts, states, Link(Append(e)));
    assert states[|acts|].net.log == [e];
    TickSends(states[|acts|].net, e, 0);
    acts, states := Go("h", acts, states, Link(Tick));
    acts, states := Go("h", acts, states, Link(Deliver));
  }

  lemma NoStepsAreARun(host: string)
    ensures IsRunOf(host, [], [Begin(host)])
  {
  }

  /** It happens: the host is removed while an acknowledged event is queued. */
  lemma RemovalLosesAcknowledgedEvent(ev: Trackers.Event) returns (acts: seq<Act>, states: seq<Sys>)
    ensures IsRunOf("h", acts, states) && |states| == |acts| + 1
    ensures
      var s, op := states[|acts|], OpAt("h", [Entry(1, Some(ev))], 0);
      && s.net.log == [Entry(1, Some(ev))] && s.net.ack == 1 && s.net.toApp == [] && s.net.toProbe == [] && s.net.readCursor == 1
      && s.net.removed == 0 && s.net.heard == 1 && s.net.host == "h" && s.sent == 2 && s.heard == 2 && s.running == 1
      && s.ops == [] && s.queue == [] && s.dropped == [op]
  {
    hide IsRunOf;
    acts, states := OneHandedOver(ev);
    acts, states := Go("h", acts, states, Link(StoreAck));
    acts, states := Go("h", acts, states, Manage);
    acts, states := Go("h", acts, states, Hear);
    acts, states := Go("h", acts, states, Take);
  }

  /** A drop need not lose anything: the host is removed while an event is queued that is not
      acknowledged, and added again; the event is sent once more and arrives. */
  lemma ReaddedHostCatchesUp(ev: Trackers.Event) returns (acts: seq<Act>, states: seq<Sys>)
    ensures IsRunOf("h", acts, states) && |states| == |acts| + 1
    ensures
      var s, op := states[|acts|], OpAt("h", [Entry(1, Some(ev))], 0);
      && s.net.log == [Entry(1, Some(ev))] && s.net.ack == 1 && s.queue == []
      && s.dropped == [op] && s.ops == [op] && Received("h", Trackers.Once(s.ops)) == Expected("h", s.net.log, 1)
  {
    hide IsRunOf;
    var e := Entry(1, Some(ev));
    acts, states := OneHandedOver(ev);
    acts, states := Go("h", acts, states, Manage);
    acts, states := Go("h", acts, states, Hear);
    acts, states := Go("h", acts, states, Take);
    acts, states := Go("h", acts, states, Manage);
    acts, states := Go("h", acts, states, Hear);
    acts, states := Go("h", acts, states, TakeOver(false));
    acts, states := SendsAgain(e, acts, states);
    OneHasEffect("h", e);
  }

  lemma SendsAgain(e: Entry, acts: seq<Act>, states: seq<Sys>) returns (acts': seq<Act>, states': seq<Sys>)
    requires IsRunOf("h", acts, states) && |states| == |acts| + 1 && e.event.Some? && e.cursor == 1
    requires
      var s := states[|acts|];
      && s.net.host == "h" && s.net.log == [e] && s.net.ack == 0 && s.net.toApp == [] && s.net.toProbe == [] && s.net.readCursor == 0
      && s.net.removed == 0 && s.net.heard == 1 && s.heard == 3 && s.running == 2
      && s.ops == [] && s.queue == [] && s.dropped == [OpAt("h", [e], 0)]
    ensures IsRunOf("h", acts', states') && |states'| == |acts'| + 1
    ensures
      var s, op := states'[|acts'|], OpAt("h", [e], 0);
      s.net.log == [e] && s.net.ack == 1 && s.queue == [] && s.dropped == [op] && s.ops == [op]
  {
    hide IsRunOf;
    TickSends(states[|acts|].net, e, 0);
    acts', states' := Go("h", acts, states, Link(Tick));
    acts', states' := Go("h", acts', states', Link(Deliver));
    acts', states' := Go("h", acts', states', Take);
    acts', states' := Go("h", acts', states', Link(StoreAck));
  }

  lemma OneHasEffect(host: string, e: Entry)
    requires e.event.Some?
    ensures Received(host, Trackers.Once([OpAt(host, [e], 0)])) == Expected(host, [e], 1)
  {
    var op := OpAt(host, [e], 0);
    assert [op][..0] == [];
    assert Trackers.Once([op]) == [] + [op];
    assert Expected(host, [e], 1) == [] + [op];
  }

  /** An event can also come too late: dropped when the host was removed, it is sent again only because
      the acknowledgement could not be read, after a later event of the same agent, and is ignored. */
  lemma LateEventIsIgnored(ev: Trackers.Event, later: Trackers.Event) returns (acts: seq<Act>, states: seq<Sys>)
    requires ev.session == later.session && ev.pane == later.pane
    ensures IsRunOf("h", acts, states) && |states| == |acts| + 1
    ensures
      var s, log := states[|acts|], [Entry(1, Some(ev)), Entry(2, Some(later))];
      && s.net.log == log && s.net.ack == 1 && s.queue == []
      && s.ops == [OpAt("h", log, 1), OpAt("h", log, 0)] && Trackers.Once(s.ops) == [OpAt("h", log, 1)]
  {
    hide IsRunOf;
    var e, e2 := Entry(1, Some(ev)), Entry(2, Some(later));
    acts, states := RemovalLosesAcknowledgedEvent(ev);
    acts, states := Go("h", acts, states, Manage);
    acts, states := Go("h", acts, states, Hear);
    acts, states := Go("h", acts, states, TakeOver(false));
    acts, states := Go("h", acts, states, Link(Append(e2)));
    assert states[|acts|].net.log == [e, e2];
    acts, states := AppliesSecond(e, e2, acts, states);
    acts, states := Go("h", acts, states, Link(Reconnect(true)));
    acts, states := ResendsBoth(e, e2, acts, states);
    SecondCoversFirst("h", e, e2);
  }

  lemma AppliesSecond(e: Entry, e2: Entry, acts: seq<Act>, states: seq<Sys>) returns (acts': seq<Act>, states': seq<Sys>)
    requires IsRunOf("h", acts, states) && |states| == |acts| + 1 && e.event.Some? && e2.event.Some? && e.cursor == 1 && e2.cursor == 2
    requires
      var s := states[|acts|];
      && s.net.host == "h" && s.net.log == [e, e2] && s.net.ack == 1 && s.net.toApp == [] && s.net.toProbe == []
      && s.net.readCursor == 1 && s.net.removed == 0 && s.heard == 3 && s.running == 2 && s.ops == [] && s.queue == []
    ensures IsRunOf("h", acts', states') && |states'| == |acts'| + 1
    ensures
      var s := states'[|acts'|];
      && s.net.host == "h" && s.net.log == [e, e2] && s.net.ack == 1 && s.net.removed == 0
      && s.heard == 3 && s.running == 2 && s.queue == [] && s.ops == [OpAt("h", [e, e2], 1)]
  {
    hide IsRunOf;
    assert [e, e2][..1] == [e];
    assert Pos([e], 1) == 1;
    assert Pos([e, e2], 1) == 1;
    TickSends(states[|acts|].net, e2, 1);
    acts', states' := Go("h", acts, states, Link(Tick));
    acts', states' := Go("h", acts', states', Link(Deliver));
    acts', states' := Go("h", acts', states', Take);
  }

  lemma ResendsBoth(e: Entry, e2: Entry, acts: seq<Act>, states: seq<Sys>) returns (acts': seq<Act>, states': seq<Sys>)
    requires IsRunOf("h", acts, states) && |states| == |acts| + 1 && e.event.Some? && e2.event.Some? && e.cursor == 1 && e2.cursor == 2
    requires
      var s, log := states[|acts|], [e, e2];
      && s.net.host == "h" && s.net.log == log && s.net.ack == 1 && s.net.toApp == [] && s.net.readCursor == 0 && s.net.removed == 0
      && s.heard == 3 && s.running == 2 && s.queue == [] && s.ops == [OpAt("h", log, 1)]
    ensures IsRunOf("h", acts', states') && |states'| == |acts'| + 1
    ensures
      var s, log := states'[|acts'|], [e, e2];
      s.net.log == log && s.net.ack == 1 && s.queue == [] && s.ops == [OpAt("h", log, 1), OpAt("h", log, 0)]
  {
    hide IsRunOf;
    var log := [e, e2];
    assert log[..1] == [e] && [e][..0] == [];
    assert Pos([e], 0) == 0;
    assert Pos(log, 0) == 0;
    assert Outgoing(log, 0, 1) == [] + [Spooled(0, EventAt(log, 0))];
    assert Outgoing(log, 0, 2) == [Spooled(0, EventAt(log, 0)), Spooled(1, EventAt(log, 1))];
    acts', states' := Go("h", acts, states, Link(Tick));
    acts', states' := Go("h", acts', states', Link(Deliver));
    acts', states' := Go("h", acts', states', Take);
  }

  lemma SecondCoversFirst(host: string, e: Entry, e2: Entry)
    requires e.event.Some? && e2.event.Some? && e.cursor <= e2.cursor
    requires e.event.value.session == e2.event.value.session && e.event.value.pane == e2.event.value.pane
    ensures var log := [e, e2]; Trackers.Once([OpAt(host, log, 1), OpAt(host, log, 0)]) == [OpAt(host, log, 1)]
  {
    var log := [e, e2];
    var a, b := OpAt(host, log, 1), OpAt(host, log, 0);
    assert [a, b][..1] == [a] && [a][..0] == [];
    assert Trackers.Covers([a][0], b);
    assert Trackers.Once([a]) == [] + [a];
  }
}
