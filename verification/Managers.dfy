/**
 Adding and removing hosts while their tasks keep sending events. Every incarnation of a
 host has a generation; the monitor task hears of it on a control channel and drops the
 events of any other. Its select polls the control channel first; the manager may act
 between that poll and the poll of the event channel.
 */
module Managers {
  import opened Wrappers

  datatype Ctl = Added(id: string, generation: nat) | Removed(id: string)

  datatype Event = Event(id: string, generation: nat, what: nat)

  datatype Step =
    | Add(id: string) // `add_host`
    | Remove(id: string) // `remove_host`
    | Emit(ev: Event) // a task of some incarnation sends an event
    | PollCtl // the select takes a control message, or finds none
    | PollEvents // ... and then takes an event

  /** The manager's hosts and generation, both channels, and the monitor task: its current
      generations, whether its select has just found no control message, and what it did
      with the events. */
  datatype Sys = Sys(hosts: map<string, nat>, generation: nat, started: set<(string, nat)>, ctl: seq<Ctl>, events: seq<Event>,
                     current: map<string, nat>, foundNone: bool, applied: seq<Event>, dropped: seq<Event>)

  const START := Sys(map[], 0, {}, [], [], map[], false, [], [])

  ghost predicate Enabled(s: Sys, step: Step) {
    match step
    case Emit(ev) => (ev.id, ev.generation) in s.started
    case PollEvents => s.foundNone && s.events != []
    case _ => true
  }

  function Heard(current: map<string, nat>, c: Ctl): map<string, nat> {
    match c
    case Added(id, g) => current[id := g]
    case Removed(id) => current - {id}
  }

  predicate Is(m: map<string, nat>, id: string, g: nat) { id in m && m[id] == g }

  function After(s: Sys, step: Step): Sys
    requires Enabled(s, step)
  {
    match step
    case Add(id) =>
      if id in s.hosts then s else
        var g := s.generation + 1;
        s.(generation := g, ctl := s.ctl + [Added(id, g)], hosts := s.hosts[id := g], started := s.started + {(id, g)})
    case Remove(id) =>
      if id !in s.hosts then s else s.(hosts := s.hosts - {id}, ctl := s.ctl + [Removed(id)])
    case Emit(ev) => s.(events := s.events + [ev])
    case PollCtl =>
      if s.ctl == [] then s.(foundNone := true)
      else s.(current := Heard(s.current, s.ctl[0]), ctl := s.ctl[1..], foundNone := false)
    case PollEvents =>
      var ev := s.events[0];
      var rest := s.(events := s.events[1..], foundNone := false);
      if Is(s.current, ev.id, ev.generation) then rest.(applied := s.applied + [ev]) else rest.(dropped := s.dropped + [ev])
  }

  // ---- invariant ----

  /** What the monitor will know once it has heard everything. */
  function Replay(current: map<string, nat>, ctl: seq<Ctl>): map<string, nat> {
    if ctl == [] then current else Heard(Replay(current, ctl[..|ctl| - 1]), ctl[|ctl| - 1])
  }

  /** Unheard generations are newer than every heard one, and each is announced once. */
  ghost predicate Newer(s: Sys) {
    && (forall i | 0 <= i < |s.ctl| && s.ctl[i].Added? :: s.ctl[i].generation <= s.generation)
    && (forall id | id in s.current :: s.current[id] <= s.generation)
    && (forall i, id | 0 <= i < |s.ctl| && s.ctl[i].Added? && id in s.current :: s.current[id] < s.ctl[i].generation)
    && (forall i, j | 0 <= i < j < |s.ctl| && s.ctl[i].Added? && s.ctl[j].Added? :: s.ctl[i].generation < s.ctl[j].generation)
  }

  ghost predicate Inv(s: Sys) {
    && Replay(s.current, s.ctl) == s.hosts
    && Newer(s)
    && (forall id, g | (id, g) in s.started :: g <= s.generation)
    && (forall i | 0 <= i < |s.events| :: (s.events[i].id, s.events[i].generation) in s.started)
  }

  lemma {:induction false} ReplaySnoc(current: map<string, nat>, ctl: seq<Ctl>, c: Ctl)
    ensures Replay(current, ctl + [c]) == Heard(Replay(current, ctl), c)
  {
    assert (ctl + [c])[..|ctl|] == ctl;
  }

  lemma {:induction false} ReplayFirst(current: map<string, nat>, ctl: seq<Ctl>)
    requires ctl != []
    ensures Replay(Heard(current, ctl[0]), ctl[1..]) == Replay(current, ctl)
    decreases |ctl|
  {
    if |ctl| > 1 {
      var before := ctl[..|ctl| - 1];
      ReplayFirst(current, before);
      assert ctl[1..][..|ctl| - 2] == before[1..];
    } else {
      assert Replay(current, ctl[..0]) == current;
    }
  }

  lemma {:induction false} AddedIsNewer(s: Sys, id: string)
    requires Newer(s) && id !in s.hosts
    ensures Newer(After(s, Add(id)))
  {
    var t := After(s, Add(id));
    assert forall i | 0 <= i < |t.ctl| :: t.ctl[i] == if i < |s.ctl| then s.ctl[i] else Added(id, s.generation + 1);
  }

  lemma {:induction false} AddKeeps(s: Sys, id: string)
    requires Inv(s)
    ensures Inv(After(s, Add(id)))
  {
    hide Newer;
    if id !in s.hosts {
      ReplaySnoc(s.current, s.ctl, Added(id, s.generation + 1));
      AddedIsNewer(s, id);
    }
  }

  lemma {:induction false} RemovedIsNewer(s: Sys, id: string)
    requires Newer(s)
    ensures Newer(After(s, Remove(id)))
  {
    var t := After(s, Remove(id));
    assert forall i | 0 <= i < |t.ctl| && t.ctl[i].Added? :: i < |s.ctl| && t.ctl[i] == s.ctl[i];
  }

  lemma {:induction false} RemoveKeeps(s: Sys, id: string)
    requires Inv(s)
    ensures Inv(After(s, Remove(id)))
  {
    RemovedIsNewer(s, id);
    if id in s.hosts {
      ReplaySnoc(s.current, s.ctl, Removed(id));
    }
  }

  lemma {:induction false} PollCtlKeeps(s: Sys)
    requires Inv(s)
    ensures Inv(After(s, PollCtl))
  {
    if s.ctl != [] {
      ReplayFirst(s.current, s.ctl);
      var t := After(s, PollCtl);
      assert forall i | 0 <= i < |t.ctl| :: t.ctl[i] == s.ctl[i + 1];
      assert Newer(t);
    }
  }

  lemma {:induction false} StepKeeps(s: Sys, step: Step)
    requires Inv(s) && Enabled(s, step)
    ensures Inv(After(s, step))
  {
    match step
    case Add(id) => AddKeeps(s, id);
    case Remove(id) => RemoveKeeps(s, id);
    case PollCtl => PollCtlKeeps(s);
    case Emit(_) => assert Newer(After(s, step));
    case PollEvents => assert Newer(After(s, step));
  }

  /** `states` is a run: it starts afresh and takes each step when it is enabled. */
  ghost predicate IsRun(steps: seq<Step>, states: seq<Sys>) {
    && |states| == |steps| + 1 && states[0] == START
    && forall i | 0 <= i < |steps| :: Enabled(states[i], steps[i]) && states[i + 1] == After(states[i], steps[i])
  }

  lemma {:induction false} RunKeeps(steps: seq<Step>, states: seq<Sys>, k: nat)
    requires IsRun(steps, states) && k <= |steps|
    ensures Inv(states[k])
    decreases k
  {
    if k > 0 {
      RunKeeps(steps, states, k - 1);
      StepKeeps(states[k - 1], steps[k - 1]);
    }
  }

  // ---- which events reach the monitor ----

  // The monitor's select at `k` takes an event. It polled the control channel last at `p`, found it
  // empty, and has known since then which incarnations were current at `p`.

  /** `p` is the last poll of the control channel before `k`. */
  ghost predicate LastPoll(steps: seq<Step>, p: nat, k: nat) {
    p < k <= |steps| && steps[p].PollCtl? && forall j | p < j < k :: !steps[j].PollCtl?
  }

  /** Step `j` starts an incarnation of `id`: a host of that name that exists is not added again. */
  ghost predicate AddsAt(steps: seq<Step>, states: seq<Sys>, j: nat, id: string)
  {
    j < |steps| && j < |states| && steps[j] == Add(id) && id !in states[j].hosts
  }

  /** Step `j` removes incarnation `g` of `id`. */
  ghost predicate RemovesAt(steps: seq<Step>, states: seq<Sys>, j: nat, id: string, g: nat)
  {
    j < |steps| && j < |states| && steps[j] == Remove(id) && Is(states[j].hosts, id, g)
  }

  /** The select takes an event only after a poll of the control channel that found nothing. */
  lemma {:induction false} EventPollHasCtlPoll(steps: seq<Step>, states: seq<Sys>, k: nat) returns (p: nat)
    requires IsRun(steps, states) && k <= |steps| && states[k].foundNone
    ensures LastPoll(steps, p, k)
    decreases k
  {
    if steps[k - 1].PollCtl? {
      p := k - 1;
    } else {
      p := EventPollHasCtlPoll(steps, states, k - 1);
    }
  }

  /** What the monitor knows at the event poll is what was so at the control poll. */
  lemma {:induction false} KnowsAsOfPoll(steps: seq<Step>, states: seq<Sys>, p: nat, k: nat)
    requires IsRun(steps, states) && LastPoll(steps, p, k) && states[k].foundNone
    ensures states[k].current == states[p].hosts
    decreases k
  {
    if p + 1 < k {
      KnowsAsOfPoll(steps, states, p, k - 1);
    } else {
      RunKeeps(steps, states, p);
    }
  }

  /** Generations of the manager's hosts are not above its count. */
  lemma {:induction false} HostsAreCounted(steps: seq<Step>, states: seq<Sys>, k: nat, id: string)
    requires IsRun(steps, states) && k <= |steps| && id in states[k].hosts
    ensures states[k].hosts[id] <= states[k].generation
    decreases k
  {
    if k > 0 && id in states[k - 1].hosts {
      HostsAreCounted(steps, states, k - 1, id);
    }
  }

  /** An incarnation that is current later but was not earlier was added in between. */
  lemma {:induction false} AddedBetween(steps: seq<Step>, states: seq<Sys>, p: nat, k: nat, id: string, g: nat)
    requires IsRun(steps, states) && p <= k <= |steps| && Is(states[k].hosts, id, g) && !Is(states[p].hosts, id, g)
    ensures exists j :: p <= j < k && AddsAt(steps, states, j, id)
    decreases k
  {
    if Is(states[k - 1].hosts, id, g) {
      AddedBetween(steps, states, p, k - 1, id, g);
    } else {
      assert AddsAt(steps, states, k - 1, id);
    }
  }

  /** What was current earlier is not current again once the host was added anew. */
  lemma {:induction false} AddedIsAnother(steps: seq<Step>, states: seq<Sys>, p: nat, j: nat, k: nat, id: string, g: nat)
    requires IsRun(steps, states) && p <= j < k <= |steps| && Is(states[p].hosts, id, g) && AddsAt(steps, states, j, id)
    ensures !Is(states[k].hosts, id, g) && states[k].generation >= g
    decreases k
  {
    if j + 1 < k {
      AddedIsAnother(steps, states, p, j, k - 1, id, g);
    } else {
      HostsAreCounted(steps, states, p, id);
      GenerationGrows(steps, states, p, j);
    }
  }

  lemma {:induction false} GenerationGrows(steps: seq<Step>, states: seq<Sys>, p: nat, k: nat)
    requires IsRun(steps, states) && p <= k <= |steps|
    ensures states[p].generation <= states[k].generation
    decreases k
  {
    if p < k {
      GenerationGrows(steps, states, p, k - 1);
    }
  }

  /** An incarnation that was current and is not any more was removed. */
  lemma {:induction false} RemovedBetween(steps: seq<Step>, states: seq<Sys>, p: nat, k: nat, id: string, g: nat) returns (j: nat)
    requires IsRun(steps, states) && p <= k <= |steps| && Is(states[p].hosts, id, g) && !Is(states[k].hosts, id, g)
    ensures p <= j < k && RemovesAt(steps, states, j, id, g) && forall i | p <= i < j :: !AddsAt(steps, states, i, id)
    decreases k - p
  {
    if Is(states[p + 1].hosts, id, g) {
      j := RemovedBetween(steps, states, p + 1, k, id, g);
    } else {
      j := p;
    }
  }

  /** Exactly the events of incarnations that were current at the control poll are applied. */
  lemma {:induction false} AppliedIffCurrentAtPoll(steps: seq<Step>, states: seq<Sys>, p: nat, k: nat)
    requires IsRun(steps, states) && k < |steps| && steps[k].PollEvents? && LastPoll(steps, p, k)
    ensures
      var ev := states[k].events[0];
      if Is(states[p].hosts, ev.id, ev.generation)
      then states[k + 1].applied == states[k].applied + [ev] && states[k + 1].dropped == states[k].dropped
      else states[k + 1].applied == states[k].applied && states[k + 1].dropped == states[k].dropped + [ev]
  {
    KnowsAsOfPoll(steps, states, p, k);
  }

  /** An event of a host's current incarnation is dropped if and only if the host was added between
      the select's two polls. */
  lemma {:induction false} CurrentDroppedIffAddedBetweenPolls(steps: seq<Step>, states: seq<Sys>, p: nat, k: nat)
    requires IsRun(steps, states) && k < |steps| && steps[k].PollEvents? && LastPoll(steps, p, k)
    requires Is(states[k].hosts, states[k].events[0].id, states[k].events[0].generation)
    ensures
      var ev := states[k].events[0];
      states[k + 1].dropped == states[k].dropped + [ev] <==> exists j :: p < j < k && AddsAt(steps, states, j, ev.id)
  {
    var s, ev := states[k], states[k].events[0];
    AppliedIffCurrentAtPoll(steps, states, p, k);
    assert s.dropped != s.dropped + [ev];
    if Is(states[p].hosts, ev.id, ev.generation) {
      forall j | p < j < k
        ensures !AddsAt(steps, states, j, ev.id)
      {
        if AddsAt(steps, states, j, ev.id) {
          AddedIsAnother(steps, states, p, j, k, ev.id, ev.generation);
        }
      }
    } else {
      AddedBetween(steps, states, p, k, ev.id, ev.generation);
    }
  }

  /** An event of a removed or earlier incarnation reaches the monitor if and only if that incarnation
      was removed between the select's two polls, and not also added there. */
  lemma {:induction false} StaleAppliedIffRemovedBetweenPolls(steps: seq<Step>, states: seq<Sys>, p: nat, k: nat)
    requires IsRun(steps, states) && k < |steps| && steps[k].PollEvents? && LastPoll(steps, p, k)
    requires !Is(states[k].hosts, states[k].events[0].id, states[k].events[0].generation)
    ensures
      var ev := states[k].events[0];
      states[k + 1].applied == states[k].applied + [ev] <==>
        exists j :: p < j < k && RemovesAt(steps, states, j, ev.id, ev.generation)
                    && forall i | p < i < j :: !AddsAt(steps, states, i, ev.id)
  {
    var s, ev := states[k], states[k].events[0];
    AppliedIffCurrentAtPoll(steps, states, p, k);
    assert s.applied != s.applied + [ev];
    if Is(states[p].hosts, ev.id, ev.generation) {
      var j := RemovedBetween(steps, states, p, k, ev.id, ev.generation);
      assert j != p;
    } else {
      forall j | p < j < k && RemovesAt(steps, states, j, ev.id, ev.generation)
        ensures exists i :: p < i < j && AddsAt(steps, states, i, ev.id)
      {
        AddedBetween(steps, states, p, j, ev.id, ev.generation);
      }
    }
  }

  /** When the manager does not act between the select's two polls, exactly the events of
      current incarnations reach the monitor. */
  lemma {:induction false} QuietManagerFiltersExactly(steps: seq<Step>, states: seq<Sys>, p: nat, k: nat)
    requires IsRun(steps, states) && k < |steps| && steps[k].PollEvents? && LastPoll(steps, p, k)
    requires forall j | p < j < k :: !steps[j].Add? && !steps[j].Remove?
    ensures
      var s, ev := states[k], states[k].events[0];
      if Is(s.hosts, ev.id, ev.generation) then states[k + 1].applied == s.applied + [ev] && states[k + 1].dropped == s.dropped
      else states[k + 1].applied == s.applied && states[k + 1].dropped == s.dropped + [ev]
  {
    AppliedIffCurrentAtPoll(steps, states, p, k);
    HostsKept(steps, states, p, k);
  }

  lemma {:induction false} HostsKept(steps: seq<Step>, states: seq<Sys>, p: nat, k: nat)
    requires IsRun(steps, states) && p <= k <= |steps| && forall j | p <= j < k :: !steps[j].Add? && !steps[j].Remove?
    ensures states[k].hosts == states[p].hosts
    decreases k
  {
    if p < k {
      HostsKept(steps, states, p, k - 1);
    }
  }

  // Only the first event of an incarnation can come before its `Added`.

  /** Between two events the select polls the control channel, and finds nothing more there. */
  lemma {:induction false} PolledBetweenEvents(steps: seq<Step>, states: seq<Sys>, e: nat, k: nat) returns (p: nat)
    requires IsRun(steps, states) && e < k <= |steps| && steps[e].PollEvents? && states[k].foundNone
    ensures e < p && LastPoll(steps, p, k) && states[p].ctl == []
    decreases k
  {
    if steps[k - 1].PollCtl? {
      p := k - 1;
    } else {
      p := PolledBetweenEvents(steps, states, e, k - 1);
    }
  }

  /** What is announced after a poll that found nothing is newer than all that was started before. */
  lemma {:induction false} AnnouncedSincePoll(steps: seq<Step>, states: seq<Sys>, p: nat, k: nat)
    requires IsRun(steps, states) && LastPoll(steps, p, k) && states[p].ctl == []
    ensures forall c | c in states[k].ctl && c.Added? :: c.generation > states[p].generation
    decreases k
  {
    if p + 1 < k {
      AnnouncedSincePoll(steps, states, p, k - 1);
      GenerationGrows(steps, states, p, k - 1);
    }
  }

  /** When the monitor takes a second event of an incarnation, it has heard that it was added. */
  lemma {:induction false} LaterEventFindsAdded(steps: seq<Step>, states: seq<Sys>, e: nat, k: nat)
    requires IsRun(steps, states) && e < k < |steps| && steps[e].PollEvents? && steps[k].PollEvents?
    requires states[e].events[0].id == states[k].events[0].id
    requires states[e].events[0].generation == states[k].events[0].generation
    ensures Added(states[k].events[0].id, states[k].events[0].generation) !in states[k].ctl
  {
    var p := PolledBetweenEvents(steps, states, e, k);
    RunKeeps(steps, states, e);
    GenerationGrows(steps, states, e, p);
    AnnouncedSincePoll(steps, states, p, k);
  }

  /** The first race happens: a host added after the control channel was found empty loses its
      first event. */
  lemma AddBetweenPollsDropsFirstEvent() returns (steps: seq<Step>, states: seq<Sys>)
    ensures IsRun(steps, states) && |steps| == 4 && steps[3].PollEvents?
    ensures Is(states[3].hosts, states[3].events[0].id, states[3].events[0].generation)
    ensures states[4].dropped == [states[3].events[0]]
  {
    var ev := Event("h", 1, 0);
    steps := [PollCtl, Add("h"), Emit(ev), PollEvents];
    var s1 := After(START, PollCtl);
    var s2 := After(s1, Add("h"));
    var s3 := After(s2, Emit(ev));
    states := [START, s1, s2, s3, After(s3, PollEvents)];
  }

  /** So does the second: an event of a removed host is applied. */
  lemma RemoveBetweenPollsAppliesStaleEvent() returns (steps: seq<Step>, states: seq<Sys>)
    ensures IsRun(steps, states) && |steps| == 6 && steps[5].PollEvents?
    ensures states[5].events[0].id !in states[5].hosts
    ensures states[6].applied == [states[5].events[0]]
  {
    var ev := Event("h", 1, 0);
    steps := [Add("h"), PollCtl, Emit(ev), PollCtl, Remove("h"), PollEvents];
    var s1 := After(START, Add("h"));
    var s2 := After(s1, PollCtl);
    var s3 := After(s2, Emit(ev));
    var s4 := After(s3, PollCtl);
    var s5 := After(s4, Remove("h"));
    states := [START, s1, s2, s3, s4, s5, After(s5, PollEvents)];
  }
}
