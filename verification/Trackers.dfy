/** Agents as hooks and screens tell of them, and the alerts that are worth raising. */
module Trackers {
  import opened Wrappers

  datatype AgentState = Unknown | Working | NeedsInput | Done | Exited

  datatype Source = Hook | Scrape

  datatype Key = Key(host: string, session: string, pane: nat)

  datatype Event = Event(session: string, pane: nat, agent: string, source: Source, state: AgentState,
                         message: Option<string>, ts: nat, offset: Option<nat>)

  function KeyOf(host: string, ev: Event): Key { Key(host, ev.session, ev.pane) }

  datatype Config = Config(hookAuthorityMs: nat, alertDedupeMs: nat)

  datatype Alert = Alert(key: Key, agent: string, state: AgentState, message: Option<string>)

  datatype Record = Record(key: Key, agent: string, state: AgentState, message: Option<string>, acknowledged: bool,
                           since: nat, lastHookMs: Option<nat>, lastHookOffset: Option<nat>,
                           lastAlert: Option<(AgentState, nat)>)

  predicate IsAlerting(s: AgentState) { s.NeedsInput? || s.Done? }

  predicate ScrapeMayOverride(from: AgentState, to: AgentState) { IsAlerting(from) && to.Working? }

  function SaturatingSub(a: nat, b: nat): nat { if a < b then 0 else a - b }

  function NewRecord(key: Key, ev: Event): Record {
    Record(key, ev.agent, Unknown, None, true, ev.ts, None, None, None)
  }

  /** The event is not stale and not outranked by a recent hook. */
  predicate Admits(cfg: Config, rec: Record, ev: Event) {
    match ev.source
    case Hook =>
      if ev.offset.Some? then !(rec.lastHookOffset.Some? && ev.offset.value <= rec.lastHookOffset.value)
      else !(rec.lastHookMs.Some? && ev.ts < rec.lastHookMs.value)
    case Scrape =>
      !(rec.lastHookMs.Some? && SaturatingSub(ev.ts, rec.lastHookMs.value) < cfg.hookAuthorityMs
        && !ScrapeMayOverride(rec.state, ev.state))
  }

  /** The record remembers the hook it just admitted. */
  function Noted(rec: Record, ev: Event): Record {
    if ev.source.Scrape? then rec
    else rec.(lastHookMs := Some(ev.ts),
              lastHookOffset := if ev.offset.Some? then ev.offset else rec.lastHookOffset)
  }

  /** A repeated alert within the window is silent. */
  predicate Silent(cfg: Config, rec: Record, ev: Event) {
    && rec.lastAlert.Some? && rec.lastAlert.value.0 == ev.state
    && SaturatingSub(ev.ts, rec.lastAlert.value.1) < cfg.alertDedupeMs
  }

  /** The record and the alert after an event. */
  function Applied(cfg: Config, key: Key, was: Option<Record>, ev: Event): (Record, Option<Alert>) {
    var rec := was.GetOr(NewRecord(key, ev));
    if !Admits(cfg, rec, ev) then (rec, None) else
    var noted := Noted(rec, ev);
    if noted.state == ev.state then (noted, None) else
    var moved := noted.(agent := ev.agent, state := ev.state, message := ev.message, since := ev.ts,
                        acknowledged := !IsAlerting(ev.state));
    if !IsAlerting(ev.state) || Silent(cfg, noted, ev) then (moved, None)
    else (moved.(lastAlert := Some((ev.state, ev.ts))), Some(Alert(key, ev.agent, ev.state, ev.message)))
  }

  type Agents = map<Key, Record>

  function Find(agents: Agents, key: Key): Option<Record> { if key in agents then Some(agents[key]) else None }

  function Gone(agents: Agents, key: Key, now: nat): Agents {
    if key in agents then agents[key := agents[key].(state := Exited, since := now, acknowledged := true)] else agents
  }

  function Acknowledged(agents: Agents, key: Key): Agents {
    if key in agents then agents[key := agents[key].(acknowledged := true)] else agents
  }

  class Tracker {
    const cfg: Config
    var agents: Agents

    constructor (cfg: Config)
      ensures agents == map[] && this.cfg == cfg
    {
      this.cfg := cfg;
      agents := map[];
    }

    /** One event of a host: what it does to its agent, and the alert it raises, if any. */
    method Apply(host: string, ev: Event) returns (alert: Option<Alert>)
      modifies `agents
      ensures agents == old(agents)[KeyOf(host, ev) := Applied(cfg, KeyOf(host, ev), Find(old(agents), KeyOf(host, ev)), ev).0]
      ensures alert == Applied(cfg, KeyOf(host, ev), Find(old(agents), KeyOf(host, ev)), ev).1
    {
      var key := KeyOf(host, ev);
      var rec := if key in agents then agents[key] else NewRecord(key, ev);
      alert := None;
      if ev.source.Hook? {
        if ev.offset.Some? {
          if rec.lastHookOffset.Some? && ev.offset.value <= rec.lastHookOffset.value {
            agents := agents[key := rec];
            return;
          }
        } else if rec.lastHookMs.Some? && ev.ts < rec.lastHookMs.value {
          agents := agents[key := rec];
          return;
        }
        rec := rec.(lastHookMs := Some(ev.ts));
        if ev.offset.Some? {
          rec := rec.(lastHookOffset := ev.offset);
        }
      } else {
        var authoritative := rec.lastHookMs.Some? && SaturatingSub(ev.ts, rec.lastHookMs.value) < cfg.hookAuthorityMs;
        if authoritative && !ScrapeMayOverride(rec.state, ev.state) {
          agents := agents[key := rec];
          return;
        }
      }
      if rec.state == ev.state {
        agents := agents[key := rec];
        return;
      }
      rec := rec.(agent := ev.agent, state := ev.state, message := ev.message, since := ev.ts,
                  acknowledged := !IsAlerting(ev.state));
      if IsAlerting(ev.state) && !Silent(cfg, rec, ev) {
        rec := rec.(lastAlert := Some((ev.state, ev.ts)));
        alert := Some(Alert(key, rec.agent, ev.state, rec.message));
      }
      agents := agents[key := rec];
    }

    /** The agent's pane is no longer there. */
    method PaneGone(key: Key, now: nat)
      modifies `agents
      ensures agents == Gone(old(agents), key, now) && agents.Keys == old(agents).Keys
      ensures forall k | k in agents ::
        agents[k] == if k == key then old(agents)[k].(state := Exited, since := now, acknowledged := true) else old(agents)[k]
    {
      if key in agents {
        agents := agents[key := agents[key].(state := Exited, since := now, acknowledged := true)];
      }
    }

    /** The user has seen the agent's alert; false if there is no such agent. */
    method Acknowledge(key: Key) returns (known: bool)
      modifies `agents
      ensures agents == Acknowledged(old(agents), key) && known == (key in old(agents)) && agents.Keys == old(agents).Keys
      ensures forall k | k in agents :: agents[k] == if k == key then old(agents)[k].(acknowledged := true) else old(agents)[k]
    {
      known := key in agents;
      if known {
        agents := agents[key := agents[key].(acknowledged := true)];
      }
    }
  }

  // ---- any sequence of operations ----

  datatype Op = Apply(host: string, ev: Event) | PaneGone(key: Key, now: nat) | Acknowledge(key: Key)

  function After(cfg: Config, agents: Agents, op: Op): Agents {
    match op
    case Apply(host, ev) => agents[KeyOf(host, ev) := Applied(cfg, KeyOf(host, ev), Find(agents, KeyOf(host, ev)), ev).0]
    case PaneGone(key, now) => Gone(agents, key, now)
    case Acknowledge(key) => Acknowledged(agents, key)
  }

  function AlertOf(cfg: Config, agents: Agents, op: Op): seq<Alert> {
    if !op.Apply? then [] else
      match Applied(cfg, KeyOf(op.host, op.ev), Find(agents, KeyOf(op.host, op.ev)), op.ev).1
      case None => []
      case Some(a) => [a]
  }

  /** The records and all alerts after a history. */
  function Run(cfg: Config, ops: seq<Op>): (Agents, seq<Alert>) {
    if ops == [] then (map[], []) else
      var (agents, alerts) := Run(cfg, ops[..|ops| - 1]);
      var op := ops[|ops| - 1];
      (After(cfg, agents, op), alerts + AlertOf(cfg, agents, op))
  }

  predicate FromSpool(op: Op) { op.Apply? && op.ev.source.Hook? && op.ev.offset.Some? }

  /** `op` is about the same agent as `b` and not later in the spool. */
  predicate Covers(b: Op, op: Op) {
    FromSpool(b) && FromSpool(op) && KeyOf(b.host, b.ev) == KeyOf(op.host, op.ev) && op.ev.offset.value <= b.ev.offset.value
  }

  /** A spool event that the history already covers: a redelivery. */
  predicate Repeats(ops: seq<Op>, op: Op) {
    FromSpool(op) && exists i :: 0 <= i < |ops| && Covers(ops[i], op)
  }

  /** The history without redeliveries. */
  function Once(ops: seq<Op>): seq<Op> {
    if ops == [] then [] else
      var before, op := ops[..|ops| - 1], ops[|ops| - 1];
      if Repeats(before, op) then Once(before) else Once(before) + [op]
  }

  /** An agent remembers the latest spool offset it was sent. */
  lemma {:induction false} RemembersOffset(cfg: Config, ops: seq<Op>, i: nat)
    requires i < |ops| && FromSpool(ops[i])
    ensures var key := KeyOf(ops[i].host, ops[i].ev);
      var agents := Run(cfg, ops).0;
      key in agents && agents[key].lastHookOffset.Some? && ops[i].ev.offset.value <= agents[key].lastHookOffset.value
    decreases |ops|
  {
    if i < |ops| - 1 {
      RemembersOffset(cfg, ops[..|ops| - 1], i);
    }
  }

  lemma {:induction false} RepeatIsIgnored(cfg: Config, before: seq<Op>, op: Op)
    requires Repeats(before, op)
    ensures After(cfg, Run(cfg, before).0, op) == Run(cfg, before).0
    ensures AlertOf(cfg, Run(cfg, before).0, op) == []
  {
    var i :| 0 <= i < |before| && Covers(before[i], op);
    RemembersOffset(cfg, before, i);
  }

  lemma {:induction false} RunSnoc(cfg: Config, ops: seq<Op>, op: Op)
    ensures Run(cfg, ops + [op]) ==
      (After(cfg, Run(cfg, ops).0, op), Run(cfg, ops).1 + AlertOf(cfg, Run(cfg, ops).0, op))
  {
    assert (ops + [op])[..|ops|] == ops;
  }

  /** Removing every redelivered hook event leaves the records and the alerts unchanged. */
  lemma {:induction false} RedeliveryHasNoEffect(cfg: Config, ops: seq<Op>)
    ensures Run(cfg, Once(ops)) == Run(cfg, ops)
    decreases |ops|
  {
    if ops != [] {
      var before, op := ops[..|ops| - 1], ops[|ops| - 1];
      RedeliveryHasNoEffect(cfg, before);
      assert ops == before + [op];
      RunSnoc(cfg, before, op);
      if Repeats(before, op) {
        RepeatIsIgnored(cfg, before, op);
        assert Run(cfg, before).1 + [] == Run(cfg, before).1;
      } else {
        RunSnoc(cfg, Once(before), op);
      }
    }
  }

  /** Only an alerting state waits to be acknowledged. */
  lemma {:induction false} OnlyAlertsWait(cfg: Config, ops: seq<Op>, key: Key)
    requires key in Run(cfg, ops).0
    ensures Run(cfg, ops).0[key].acknowledged || IsAlerting(Run(cfg, ops).0[key].state)
    ensures Run(cfg, ops).0[key].key == key
    decreases |ops|
  {
    if key in Run(cfg, ops[..|ops| - 1]).0 {
      OnlyAlertsWait(cfg, ops[..|ops| - 1], key);
    }
  }

  // ---- repeated alerts ----

  /** Operation `i` of a history raises an alert for `key`. */
  predicate AlertsAt(cfg: Config, ops: seq<Op>, i: nat, key: Key) {
    && i < |ops| && ops[i].Apply? && KeyOf(ops[i].host, ops[i].ev) == key
    && AlertOf(cfg, Run(cfg, ops[..i]).0, ops[i]) != []
  }

  /** An alert is remembered, and no other operation forgets it. */
  lemma AlertNoted(cfg: Config, agents: Agents, op: Op, key: Key)
    ensures
      var after := After(cfg, agents, op);
      if op.Apply? && KeyOf(op.host, op.ev) == key && AlertOf(cfg, agents, op) != [] then
        key in after && after[key].lastAlert == Some((op.ev.state, op.ev.ts))
      else key in agents ==> key in after && after[key].lastAlert == agents[key].lastAlert
  {
  }

  /** Until its next alert an agent remembers the state and the time of the last one. */
  lemma {:induction false} RemembersAlert(cfg: Config, ops: seq<Op>, i: nat, n: nat, key: Key)
    requires i < n <= |ops| && AlertsAt(cfg, ops, i, key) && forall k: nat | i < k < n :: !AlertsAt(cfg, ops, k, key)
    ensures
      var agents := Run(cfg, ops[..n]).0;
      key in agents && agents[key].lastAlert == Some((ops[i].ev.state, ops[i].ev.ts))
    decreases n
  {
    hide After, AlertOf, Applied;
    var before, op := ops[..n - 1], ops[n - 1];
    assert ops[..n] == before + [op];
    RunSnoc(cfg, before, op);
    AlertNoted(cfg, Run(cfg, before).0, op, key);
    if i < n - 1 {
      RemembersAlert(cfg, ops, i, n - 1, key);
      assert !AlertsAt(cfg, ops, n - 1, key);
    }
  }

  /** Two alerts of one agent in a row that report the same state are `alertDedupeMs` apart. */
  lemma {:induction false} AlertsSpaced(cfg: Config, ops: seq<Op>, i: nat, j: nat, key: Key)
    requires i < j < |ops| && AlertsAt(cfg, ops, i, key) && AlertsAt(cfg, ops, j, key)
    requires forall k: nat | i < k < j :: !AlertsAt(cfg, ops, k, key)
    requires ops[i].ev.state == ops[j].ev.state
    ensures SaturatingSub(ops[j].ev.ts, ops[i].ev.ts) >= cfg.alertDedupeMs
  {
    RemembersAlert(cfg, ops, i, j, key);
  }
}
