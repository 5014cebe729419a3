/**
 What the probe does with one pane: hooks and screen scraping bind an agent to it, and
 an exit a hook reported keeps scraping away from it for a while. The server treats
 every pane by itself in this way (module `Servers`).
 */
module Panes {
  import opened Wrappers
  import opened Trackers

  /** So many misses in a row end a binding that scraping made. */
  const MISSES_TO_EXIT: nat := 2

  datatype Binding = Binding(agent: string, fromHook: bool, misses: nat)

  /** A screen dump as the rules see it: the agent it identifies, whether a given agent's
      own rules still match, and the state change the screen history shows for an agent. */
  datatype Look = Look(found: Option<string>, matches: string -> bool, observed: string -> Option<AgentState>) {
    predicate Shows(agent: string) { found == Some(agent) || matches(agent) }
  }

  datatype PaneStep =
    | HookRecord(agent: string, exit: bool)
    | Scraped(look: Option<Look>) // `None`: the dump failed
    | Polled(present: bool)

  datatype PaneState = PaneState(binding: Option<Binding>, held: bool)

  /** An event scraping emits: the agent and its state. */
  datatype Emitted = Emitted(agent: string, state: AgentState)

  function Seen(agent: string, look: Look): seq<Emitted> {
    match look.observed(agent)
    case None => []
    case Some(s) => [Emitted(agent, s)]
  }

  /** One successful dump. */
  function AfterLook(st: PaneState, look: Look): (PaneState, seq<Emitted>) {
    match st.binding
    case Some(b) =>
      if b.fromHook then (st, Seen(b.agent, look))
      else if look.Shows(b.agent) then (st.(binding := Some(b.(misses := 0))), Seen(b.agent, look))
      else if b.misses + 1 < MISSES_TO_EXIT then (st.(binding := Some(b.(misses := b.misses + 1))), [])
      else (st.(binding := None), [Emitted(b.agent, Exited)])
    case None =>
      match look.found
      case None => (st.(held := false), [])
      case Some(a) =>
        if st.held then (st, [])
        else (st.(binding := Some(Binding(a, false, 0))), [Emitted(a, Unknown)] + Seen(a, look))
  }

  function After(st: PaneState, step: PaneStep): (PaneState, seq<Emitted>) {
    match step
    case HookRecord(agent, exit) =>
      if exit then (PaneState(None, true), []) else (PaneState(Some(Binding(agent, true, 0)), false), [])
    case Scraped(None) => (st, [])
    case Scraped(Some(look)) => AfterLook(st, look)
    case Polled(present) => (if present then st else PaneState(None, false), [])
  }

  const FRESH := PaneState(None, false)

  /** The state before step `n` of a history. */
  function At(steps: seq<PaneStep>, n: nat): PaneState
    requires n <= |steps|
  {
    if n == 0 then FRESH else After(At(steps, n - 1), steps[n - 1]).0
  }

  /** What scraping emits at step `n`. */
  function Events(steps: seq<PaneStep>, n: nat): seq<Emitted>
    requires n < |steps|
  {
    After(At(steps, n), steps[n]).1
  }

  lemma {:induction false} AtPrefix(steps: seq<PaneStep>, step: PaneStep, n: nat)
    requires n <= |steps|
    ensures At(steps + [step], n) == At(steps, n)
    decreases n
  {
    if n > 0 {
      AtPrefix(steps, step, n - 1);
    }
  }

  /** Later steps do not change what was emitted. */
  lemma {:induction false} EventsStable(steps: seq<PaneStep>, longer: seq<PaneStep>, n: nat)
    requires steps <= longer && n < |steps|
    ensures Events(longer, n) == Events(steps, n)
    decreases |longer|
  {
    if |steps| < |longer| {
      var shorter := longer[..|longer| - 1];
      EventsStable(steps, shorter, n);
      assert longer == shorter + [longer[|longer| - 1]];
      AtPrefix(shorter, longer[|longer| - 1], n);
    } else {
      assert steps == longer;
    }
  }

  /** The state and the events after one more step. */
  lemma {:induction false} AtSnoc(steps: seq<PaneStep>, step: PaneStep)
    ensures At(steps + [step], |steps| + 1) == After(At(steps, |steps|), step).0
    ensures Events(steps + [step], |steps|) == After(At(steps, |steps|), step).1
  {
    AtPrefix(steps, step, |steps|);
  }

  /** No pane is ever both bound and on exit hold. */
  lemma {:induction false} NeverBoundAndHeld(steps: seq<PaneStep>, n: nat)
    requires n <= |steps|
    ensures !(At(steps, n).binding.Some? && At(steps, n).held)
    decreases n
  {
    if n > 0 {
      NeverBoundAndHeld(steps, n - 1);
    }
  }

  /** What ends an exit hold. */
  predicate Releases(step: PaneStep) {
    match step
    case HookRecord(_, exit) => !exit
    case Scraped(look) => look.Some? && look.value.found.None?
    case Polled(present) => !present
  }

  lemma {:induction false} HeldUntilReleased(steps: seq<PaneStep>, i: nat, j: nat)
    requires i < j <= |steps| && steps[i].HookRecord? && steps[i].exit
    requires forall k | i < k < j :: !Releases(steps[k])
    ensures At(steps, j) == PaneState(None, true)
    decreases j
  {
    if i < j - 1 {
      HeldUntilReleased(steps, i, j - 1);
    }
  }

  /** After a hook-reported exit scraping says nothing about the pane until a later
      non-exit hook record, a dump that identifies nothing, or a poll without the pane. */
  lemma QuietAfterExit(steps: seq<PaneStep>, i: nat, j: nat)
    requires i < j < |steps| && steps[i].HookRecord? && steps[i].exit
    requires forall k | i < k < j :: !Releases(steps[k])
    ensures Events(steps, j) == []
  {
    HeldUntilReleased(steps, i, j);
  }

  /** A successful dump that shows nothing of the agent. */
  predicate Misses(step: PaneStep, agent: string) { step.Scraped? && step.look.Some? && !step.look.value.Shows(agent) }

  /** A step that neither looks at the pane nor tells anything new about it. */
  predicate Idle(step: PaneStep) { (step.Scraped? && step.look.None?) || (step.Polled? && step.present) }

  /** A miss counted but not yet reported. */
  lemma {:induction false} CountedMiss(steps: seq<PaneStep>, n: nat) returns (i: nat)
    requires n <= |steps| && At(steps, n).binding.Some? && At(steps, n).binding.value.misses > 0
    ensures At(steps, n).binding.value.misses == 1 && !At(steps, n).binding.value.fromHook
    ensures i < n && Misses(steps[i], At(steps, n).binding.value.agent) && forall k | i < k < n :: Idle(steps[k])
    decreases n
  {
    if Idle(steps[n - 1]) {
      i := CountedMiss(steps, n - 1);
    } else {
      var b := At(steps, n - 1).binding;
      if b.Some? && b.value.misses > 0 {
        var _ := CountedMiss(steps, n - 1);
      }
      i := n - 1;
    }
  }

  /** A scrape reports an exit only of an agent that scraping itself had bound, and only after
      two successful dumps in a row that match none of its rules. */
  lemma ExitAfterTwoMisses(steps: seq<PaneStep>, j: nat, agent: string) returns (i: nat)
    requires j < |steps| && Emitted(agent, Exited) in Events(steps, j)
    requires steps[j].Scraped? && steps[j].look.Some? ==> forall a :: steps[j].look.value.observed(a) != Some(Exited)
    ensures At(steps, j).binding.Some? && At(steps, j).binding.value == Binding(agent, false, 1)
    ensures i < j && Misses(steps[i], agent) && Misses(steps[j], agent) && forall k | i < k < j :: Idle(steps[k])
    ensures At(steps, j + 1).binding.None?
  {
    i := CountedMiss(steps, j);
  }

  lemma {:induction false} UnboundUntilBound(steps: seq<PaneStep>, i: nat, j: nat)
    requires i <= j <= |steps| && At(steps, i).binding.None?
    requires forall k | i <= k < j :: !(steps[k].HookRecord? && !steps[k].exit)
    requires forall k, a | i <= k < j :: Emitted(a, Unknown) !in Events(steps, k)
    ensures At(steps, j).binding.None?
    decreases j
  {
    if i < j {
      UnboundUntilBound(steps, i, j - 1);
      assert |Events(steps, j - 1)| > 0 ==> Events(steps, j - 1)[0] in Events(steps, j - 1);
    }
  }

  /** It is reported once: before another exit the pane is bound again, by a hook or by
      scraping, which says so. */
  lemma ExitReportedOnce(steps: seq<PaneStep>, i: nat, j: nat, a: string, b: string)
    requires i < j < |steps| && Emitted(a, Exited) in Events(steps, i) && Emitted(b, Exited) in Events(steps, j)
    requires forall n, x | 0 <= n < |steps| && steps[n].Scraped? && steps[n].look.Some? :: steps[n].look.value.observed(x) != Some(Exited)
    ensures exists k :: i < k < j && ((steps[k].HookRecord? && !steps[k].exit) || exists x :: Emitted(x, Unknown) in Events(steps, k))
  {
    var _ := ExitAfterTwoMisses(steps, i, a);
    var _ := ExitAfterTwoMisses(steps, j, b);
    if forall k | i < k < j :: !(steps[k].HookRecord? && !steps[k].exit) && forall x :: Emitted(x, Unknown) !in Events(steps, k) {
      UnboundUntilBound(steps, i + 1, j);
    }
  }
}
