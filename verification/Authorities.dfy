/**
 Which events of an agent count and what they do, told from the history of operations alone: a
 redelivered or late hook does not count, a hook outranks the screen for a while, and an alert is
 not repeated too soon.
 */
module Authorities {
  import opened Wrappers
  import opened Trackers

  predicate IsAbout(op: Op, key: Key) { op.Apply? && KeyOf(op.host, op.ev) == key }

  /** When the last hook of an agent that counted was reported. */
  function LastHook(ops: seq<Op>, key: Key): Option<nat>
    decreases |ops|, 1
  {
    if ops == [] then None
    else
      var before, op := ops[..|ops| - 1], ops[|ops| - 1];
      if IsAbout(op, key) && op.ev.source.Hook? && IsFresh(before, op) then Some(op.ev.ts) else LastHook(before, key)
  }

  /** A hook is fresh when it is no redelivery or, without a place in the spool, not before the last. */
  predicate IsFresh(ops: seq<Op>, op: Op)
    decreases |ops|, 2
  {
    op.Apply? &&
    if op.ev.offset.Some? then !Repeats(ops, op)
    else
      var last := LastHook(ops, KeyOf(op.host, op.ev));
      !(last.Some? && op.ev.ts < last.value)
  }

  function StateOf(agents: Agents, key: Key): AgentState { if key in agents then agents[key].state else Unknown }

  /** The event does not count: a hook that is not fresh, or a screen shortly after a hook, unless it
      shows that an agent that waited for the user works again. */
  predicate Ignored(cfg: Config, ops: seq<Op>, op: Op) {
    op.Apply? &&
    var last := LastHook(ops, KeyOf(op.host, op.ev));
    var state := StateOf(Run(cfg, ops).0, KeyOf(op.host, op.ev));
    match op.ev.source
    case Hook => !IsFresh(ops, op)
    case Scrape =>
      && last.Some? && cfg.hookAuthorityMs > 0 && op.ev.ts < last.value + cfg.hookAuthorityMs
      && !((state == NeedsInput || state == Done) && op.ev.state == Working)
  }

  /** Operation `i` raised the agent's last alert. */
  ghost predicate LastAlertAt(cfg: Config, ops: seq<Op>, i: nat, key: Key) {
    AlertsAt(cfg, ops, i, key) && forall k: nat | i < k < |ops| :: !AlertsAt(cfg, ops, k, key)
  }

  /** The agent's last alert was of the same state and not long ago. */
  ghost predicate JustAlerted(cfg: Config, ops: seq<Op>, op: Op) {
    op.Apply? &&
    exists i: nat ::
      && LastAlertAt(cfg, ops, i, KeyOf(op.host, op.ev))
      && ops[i].ev.state == op.ev.state && cfg.alertDedupeMs > 0 && op.ev.ts < ops[i].ev.ts + cfg.alertDedupeMs
  }

  // ---- what a record remembers ----

  /** The offset a record remembers is that of a spool event it was sent. */
  lemma {:induction false} OffsetWasSent(cfg: Config, ops: seq<Op>, key: Key) returns (i: nat)
    requires key in Run(cfg, ops).0 && Run(cfg, ops).0[key].lastHookOffset.Some?
    ensures i < |ops| && FromSpool(ops[i]) && IsAbout(ops[i], key) && ops[i].ev.offset == Run(cfg, ops).0[key].lastHookOffset
    decreases |ops|
  {
    hide Silent;
    var before, op := ops[..|ops| - 1], ops[|ops| - 1];
    if FromSpool(op) && IsAbout(op, key) && op.ev.offset == Run(cfg, ops).0[key].lastHookOffset {
      i := |ops| - 1;
    } else {
      i := OffsetWasSent(cfg, before, key);
    }
  }

  /** Redeliveries are what the remembered offset covers. */
  lemma {:induction false} RepeatsIff(cfg: Config, ops: seq<Op>, op: Op)
    requires FromSpool(op)
    ensures
      var key, agents := KeyOf(op.host, op.ev), Run(cfg, ops).0;
      Repeats(ops, op) <==>
        key in agents && agents[key].lastHookOffset.Some? && op.ev.offset.value <= agents[key].lastHookOffset.value
  {
    hide Run;
    var key, agents := KeyOf(op.host, op.ev), Run(cfg, ops).0;
    if Repeats(ops, op) {
      var i :| 0 <= i < |ops| && Covers(ops[i], op);
      RemembersOffset(cfg, ops, i);
    } else if key in agents && agents[key].lastHookOffset.Some? {
      var i := OffsetWasSent(cfg, ops, key);
      assert !Covers(ops[i], op);
    }
  }

  /** The hook time a record remembers is that of the last hook that counted. */
  lemma {:induction false} RemembersHook(cfg: Config, ops: seq<Op>, key: Key)
    ensures LastHook(ops, key) == if key in Run(cfg, ops).0 then Run(cfg, ops).0[key].lastHookMs else None
    decreases |ops|
  {
    hide Silent;
    if ops != [] {
      var before, op := ops[..|ops| - 1], ops[|ops| - 1];
      RemembersHook(cfg, before, key);
      if IsAbout(op, key) && FromSpool(op) {
        RepeatsIff(cfg, before, op);
      }
    }
  }

  /** Without an alert of the agent its record remembers none. */
  lemma {:induction false} RemembersNoAlert(cfg: Config, ops: seq<Op>, key: Key)
    requires forall k: nat | k < |ops| :: !AlertsAt(cfg, ops, k, key)
    ensures key in Run(cfg, ops).0 ==> Run(cfg, ops).0[key].lastAlert == None
    decreases |ops|
  {
    if ops != [] {
      var before, op := ops[..|ops| - 1], ops[|ops| - 1];
      forall k: nat | k < |before|
        ensures !AlertsAt(cfg, before, k, key)
      {
        assert before[..k] == ops[..k] && before[k] == ops[k];
        assert !AlertsAt(cfg, ops, k, key);
      }
      RemembersNoAlert(cfg, before, key);
      assert !AlertsAt(cfg, ops, |ops| - 1, key);
    }
  }

  /** A record forbids an alert exactly when the agent was just alerted. */
  lemma {:induction false} JustAlertedIff(cfg: Config, ops: seq<Op>, op: Op)
    requires op.Apply?
    ensures
      var key, agents := KeyOf(op.host, op.ev), Run(cfg, ops).0;
      JustAlerted(cfg, ops, op) <==>
        && key in agents && agents[key].lastAlert.Some? && agents[key].lastAlert.value.0 == op.ev.state
        && cfg.alertDedupeMs > 0 && op.ev.ts < agents[key].lastAlert.value.1 + cfg.alertDedupeMs
  {
    hide Run, AlertsAt, LastAlertAt;
    var key := KeyOf(op.host, op.ev);
    if exists i: nat :: i < |ops| && AlertsAt(cfg, ops, i, key) {
      var i := FindLastAlert(cfg, ops, key, |ops|);
      LastIsRemembered(cfg, ops, i, key);
      forall j: nat | LastAlertAt(cfg, ops, j, key)
        ensures i == j
      {
        OneLastAlert(cfg, ops, i, j, key);
      }
    } else {
      RemembersNoAlert(cfg, ops, key);
      forall j: nat
        ensures !LastAlertAt(cfg, ops, j, key)
      {
        if LastAlertAt(cfg, ops, j, key) {
          OneLastAlert(cfg, ops, j, j, key);
        }
      }
    }
  }

  lemma OneLastAlert(cfg: Config, ops: seq<Op>, i: nat, j: nat, key: Key)
    requires LastAlertAt(cfg, ops, i, key) && LastAlertAt(cfg, ops, j, key)
    ensures i == j < |ops| && AlertsAt(cfg, ops, j, key)
  {
    hide Run;
  }

  lemma {:induction false} LastIsRemembered(cfg: Config, ops: seq<Op>, i: nat, key: Key)
    requires LastAlertAt(cfg, ops, i, key)
    ensures i < |ops| && ops[i].Apply? && key in Run(cfg, ops).0
    ensures Run(cfg, ops).0[key].lastAlert == Some((ops[i].ev.state, ops[i].ev.ts))
  {
    hide Run;
    assert ops[..|ops|] == ops;
    RemembersAlert(cfg, ops, i, |ops|, key);
  }

  lemma {:induction false} FindLastAlert(cfg: Config, ops: seq<Op>, key: Key, n: nat) returns (i: nat)
    requires n <= |ops| && (exists i: nat :: i < n && AlertsAt(cfg, ops, i, key))
    requires forall k: nat | n <= k < |ops| :: !AlertsAt(cfg, ops, k, key)
    ensures LastAlertAt(cfg, ops, i, key)
    decreases n
  {
    hide AlertsAt;
    if AlertsAt(cfg, ops, n - 1, key) {
      i := n - 1;
    } else {
      i := FindLastAlert(cfg, ops, key, n - 1);
    }
  }

  // ---- what an event does ----

  /** What does not count changes neither a record nor the alerts. */
  lemma {:induction false} IgnoredHasNoEffect(cfg: Config, ops: seq<Op>, op: Op)
    requires Ignored(cfg, ops, op)
    ensures Run(cfg, ops + [op]) == Run(cfg, ops)
  {
    hide LastHook, Run, Repeats;
    var key, agents := KeyOf(op.host, op.ev), Run(cfg, ops).0;
    RunSnoc(cfg, ops, op);
    AdmitsIff(cfg, ops, op);
    KnownIfIgnored(cfg, ops, op);
    assert agents[key := agents[key]] == agents;
    assert Run(cfg, ops).1 + [] == Run(cfg, ops).1;
  }

  lemma {:induction false} KnownIfIgnored(cfg: Config, ops: seq<Op>, op: Op)
    requires Ignored(cfg, ops, op)
    ensures KeyOf(op.host, op.ev) in Run(cfg, ops).0
  {
    hide LastHook, Run, Repeats;
    RemembersHook(cfg, ops, KeyOf(op.host, op.ev));
    if FromSpool(op) {
      RepeatsIff(cfg, ops, op);
    }
  }

  /** What counts and tells of another state moves the agent there, and raises an alert if and only if
      the agent now waits for the user and was not just alerted to the same. */
  lemma {:induction false} CountedMoves(cfg: Config, ops: seq<Op>, op: Op)
    requires op.Apply? && !Ignored(cfg, ops, op) && op.ev.state != StateOf(Run(cfg, ops).0, KeyOf(op.host, op.ev))
    ensures
      var key, ev, (agents, alerts), (agents', alerts') := KeyOf(op.host, op.ev), op.ev, Run(cfg, ops), Run(cfg, ops + [op]);
      var waits := ev.state == NeedsInput || ev.state == Done;
      && agents'.Keys == agents.Keys + {key} && (forall k | k in agents && k != key :: agents'[k] == agents[k])
      && agents'[key].key == (if key in agents then agents[key].key else key)
      && agents'[key].agent == ev.agent && agents'[key].state == ev.state && agents'[key].message == ev.message
      && agents'[key].since == ev.ts && agents'[key].acknowledged == !waits
      && alerts' == alerts + if waits && !JustAlerted(cfg, ops, op) then [Alert(key, ev.agent, ev.state, ev.message)] else []
  {
    hide LastHook, Run, Repeats, JustAlerted;
    RunSnoc(cfg, ops, op);
    AdmitsIff(cfg, ops, op);
    JustAlertedIff(cfg, ops, op);
  }

  /** What counts and tells of the state the agent is in shows nothing new; an unknown agent appears. */
  lemma {:induction false} CountedStays(cfg: Config, ops: seq<Op>, op: Op)
    requires op.Apply? && !Ignored(cfg, ops, op) && op.ev.state == StateOf(Run(cfg, ops).0, KeyOf(op.host, op.ev))
    ensures
      var key, ev, (agents, alerts), (agents', alerts') := KeyOf(op.host, op.ev), op.ev, Run(cfg, ops), Run(cfg, ops + [op]);
      && agents'.Keys == agents.Keys + {key} && (forall k | k in agents && k != key :: agents'[k] == agents[k])
      && alerts' == alerts && agents'[key].state == ev.state
      && (if key in agents
          then agents'[key].(lastHookMs := agents[key].lastHookMs, lastHookOffset := agents[key].lastHookOffset) == agents[key]
          else agents'[key].agent == ev.agent && agents'[key].message == None && agents'[key].acknowledged && agents'[key].since == ev.ts)
  {
    hide LastHook, Run, Repeats;
    RunSnoc(cfg, ops, op);
    AdmitsIff(cfg, ops, op);
    assert Run(cfg, ops).1 + [] == Run(cfg, ops).1;
  }

  lemma {:induction false} AdmitsIff(cfg: Config, ops: seq<Op>, op: Op)
    requires op.Apply?
    ensures
      var key := KeyOf(op.host, op.ev);
      Admits(cfg, Find(Run(cfg, ops).0, key).GetOr(NewRecord(key, op.ev)), op.ev) <==> !Ignored(cfg, ops, op)
  {
    hide LastHook, Run, Repeats;
    RemembersHook(cfg, ops, KeyOf(op.host, op.ev));
    if FromSpool(op) {
      RepeatsIff(cfg, ops, op);
    }
  }
}
