/**
 Whose agent a pane is bound to, told from its history alone, and what each dump of its screen
 makes the probe say.
 */
module Bindings {
  import opened Wrappers
  import opened Trackers
  import opened Panes

  /** The record at `i` bound the pane, and since then there was no other record and the pane stayed. */
  ghost predicate HookSince(steps: seq<PaneStep>, i: nat, n: nat) {
    && i < n <= |steps| && steps[i].HookRecord? && !steps[i].exit
    && forall k | i < k < n :: !steps[k].HookRecord? && steps[k] != Polled(false)
  }

  ghost predicate HookBound(steps: seq<PaneStep>, n: nat, agent: string) {
    exists i: nat :: HookSince(steps, i, n) && steps[i].agent == agent
  }

  /** The record at `i` reported an exit, and nothing since then released the pane. */
  ghost predicate HeldSince(steps: seq<PaneStep>, i: nat, n: nat) {
    && i < n <= |steps| && steps[i].HookRecord? && steps[i].exit
    && forall k | i < k < n ::
      && (steps[k].HookRecord? ==> steps[k].exit)
      && (steps[k].Scraped? && steps[k].look.Some? ==> steps[k].look.value.found.Some?)
      && steps[k] != Polled(false)
  }

  /** Two successful dumps in a row, after `lo` and before `hi`, that show nothing of the agent. */
  ghost predicate TwoMisses(steps: seq<PaneStep>, lo: nat, hi: nat, agent: string) {
    exists i: nat, j: nat :: lo < i < j < hi <= |steps| && Misses(steps[j], agent) && MissSince(steps, i, j, agent)
  }

  /** The dump at `i` missed the agent and was the last one before `n`. */
  ghost predicate MissSince(steps: seq<PaneStep>, i: nat, n: nat, agent: string) {
    i < n <= |steps| && Misses(steps[i], agent) && forall k | i < k < n :: Idle(steps[k])
  }

  /** The last dump before `n` missed the agent, and it came after `i`. */
  ghost predicate Missing(steps: seq<PaneStep>, i: nat, n: nat, agent: string) {
    exists m: nat :: i < m && MissSince(steps, m, n, agent)
  }

  /** The screen at `i` named the agent of a pane that was neither bound nor held; since then no hook
      spoke, the pane stayed, and the agent was never missed twice in a row. */
  ghost predicate FoundSince(steps: seq<PaneStep>, i: nat, n: nat, agent: string) {
    && i < n <= |steps| && steps[i].Scraped? && steps[i].look.Some? && steps[i].look.value.found == Some(agent)
    && At(steps, i) == PaneState(None, false)
    && (forall k | i < k < n :: !steps[k].HookRecord? && steps[k] != Polled(false))
    && !TwoMisses(steps, i, n, agent)
  }

  ghost predicate ScrapeBound(steps: seq<PaneStep>, n: nat, agent: string) { exists i: nat :: FoundSince(steps, i, n, agent) }

  predicate BoundTo(st: PaneState, agent: string, fromHook: bool) {
    st.binding.Some? && st.binding.value.agent == agent && st.binding.value.fromHook == fromHook
  }

  /** A hook binds a pane exactly from a record that is no exit to the next record, or until the pane is gone. */
  lemma {:induction false} HookBoundIff(steps: seq<PaneStep>, n: nat, agent: string)
    requires n <= |steps|
    ensures BoundTo(At(steps, n), agent, true) <==> HookBound(steps, n, agent)
    decreases n
  {
    if n > 0 {
      HookBoundIff(steps, n - 1, agent);
      if BoundTo(At(steps, n), agent, true) {
        if steps[n - 1].HookRecord? {
          assert HookSince(steps, n - 1, n);
        } else {
          var i: nat :| HookSince(steps, i, n - 1) && steps[i].agent == agent;
          assert HookSince(steps, i, n);
        }
      }
      if i: nat :| HookSince(steps, i, n) && steps[i].agent == agent && i < n - 1 {
        assert HookSince(steps, i, n - 1);
      }
    }
  }

  /** A pane is held exactly from an exit that a hook reported to the first release. */
  lemma {:induction false} HeldIff(steps: seq<PaneStep>, n: nat)
    requires n <= |steps|
    ensures At(steps, n).held <==> exists i: nat :: HeldSince(steps, i, n)
    decreases n
  {
    if n > 0 {
      HeldIff(steps, n - 1);
      NeverBoundAndHeld(steps, n - 1);
      if At(steps, n).held {
        if steps[n - 1].HookRecord? {
          assert HeldSince(steps, n - 1, n);
        } else {
          var i: nat :| HeldSince(steps, i, n - 1);
          assert HeldSince(steps, i, n);
        }
      }
      if i: nat :| HeldSince(steps, i, n) && i < n - 1 {
        assert HeldSince(steps, i, n - 1);
      }
    }
  }

  /** Misses are counted from the last dump that showed the agent. */
  lemma {:induction false} MissedIff(steps: seq<PaneStep>, i: nat, n: nat, agent: string)
    requires FoundSince(steps, i, n, agent)
    ensures BoundTo(At(steps, n), agent, false) && At(steps, n).binding.value.misses <= 1
    ensures At(steps, n).binding.value.misses == 1 <==> Missing(steps, i, n, agent)
    decreases n
  {
    if i == n - 1 {
      assert At(steps, n).binding == Some(Binding(agent, false, 0));
    } else {
      FoundBefore(steps, i, n, agent);
      MissedIff(steps, i, n - 1, agent);
      MissedStep(steps, i, n - 1, agent);
    }
  }

  lemma {:induction false} FoundBefore(steps: seq<PaneStep>, i: nat, n: nat, agent: string)
    requires FoundSince(steps, i, n, agent) && i < n - 1
    ensures FoundSince(steps, i, n - 1, agent)
  {
    if TwoMisses(steps, i, n - 1, agent) {
      var a: nat, b: nat :| i < a < b < n - 1 && Misses(steps[b], agent) && MissSince(steps, a, b, agent);
      assert TwoMisses(steps, i, n, agent);
    }
  }

  lemma {:induction false} MissedStep(steps: seq<PaneStep>, i: nat, n: nat, agent: string)
    requires i < n && FoundSince(steps, i, n + 1, agent)
    requires BoundTo(At(steps, n), agent, false) && At(steps, n).binding.value.misses <= 1
    requires At(steps, n).binding.value.misses == 1 <==> Missing(steps, i, n, agent)
    ensures BoundTo(At(steps, n + 1), agent, false) && At(steps, n + 1).binding.value.misses <= 1
    ensures At(steps, n + 1).binding.value.misses == 1 <==> Missing(steps, i, n + 1, agent)
  {
    if m: nat :| i < m && MissSince(steps, m, n, agent) && Idle(steps[n]) {
      assert MissSince(steps, m, n + 1, agent);
    }
    if Misses(steps[n], agent) {
      assert MissSince(steps, n, n + 1, agent);
    }
    var next := n + 1;
    if m: nat :| i < m < n && MissSince(steps, m, next, agent) {
      assert MissSince(steps, m, n, agent);
    }
  }

  /** Scraping binds a pane exactly from a dump that named an agent while nothing bound or held the pane
      until a hook speaks, the pane is gone, or two dumps in a row miss the agent. */
  lemma {:induction false} ScrapeBoundIff(steps: seq<PaneStep>, n: nat, agent: string)
    requires n <= |steps|
    ensures BoundTo(At(steps, n), agent, false) <==> ScrapeBound(steps, n, agent)
    decreases n
  {
    if i: nat :| FoundSince(steps, i, n, agent) {
      MissedIff(steps, i, n, agent);
    }
    if BoundTo(At(steps, n), agent, false) {
      ScrapeBoundIff(steps, n - 1, agent);
      NeverBoundAndHeld(steps, n - 1);
      if BoundTo(At(steps, n - 1), agent, false) {
        var i: nat :| FoundSince(steps, i, n - 1, agent);
        MissedIff(steps, i, n - 1, agent);
        StillFound(steps, i, n - 1, agent);
      } else {
        OneDumpIsNoMisses(steps, n - 1, agent);
        assert FoundSince(steps, n - 1, n, agent);
      }
    }
  }

  lemma OneDumpIsNoMisses(steps: seq<PaneStep>, i: nat, agent: string)
    ensures !TwoMisses(steps, i, i + 1, agent)
  {
  }

  lemma {:induction false} StillFound(steps: seq<PaneStep>, i: nat, n: nat, agent: string)
    requires n < |steps| && FoundSince(steps, i, n, agent) && BoundTo(At(steps, n), agent, false)
    requires At(steps, n).binding.value.misses == 1 <==> Missing(steps, i, n, agent)
    requires BoundTo(At(steps, n + 1), agent, false)
    ensures FoundSince(steps, i, n + 1, agent)
  {
    if TwoMisses(steps, i, n + 1, agent) {
      var a: nat, b: nat :| i < a < b < n + 1 && Misses(steps[b], agent) && MissSince(steps, a, b, agent);
      assert b == n;
    }
  }

  /** A dump of a pane that a hook bound says what its screen shows, whatever the rules identify. */
  lemma HookBoundSays(steps: seq<PaneStep>, n: nat, agent: string, look: Look)
    requires n < |steps| && steps[n] == Scraped(Some(look)) && HookBound(steps, n, agent)
    ensures Events(steps, n) == if look.observed(agent).Some? then [Emitted(agent, look.observed(agent).value)] else []
  {
    HookBoundIff(steps, n, agent);
  }

  /** A dump of a pane that scraping bound: what it shows, silence at the first miss, the exit at the second. */
  lemma ScrapeBoundSays(steps: seq<PaneStep>, i: nat, n: nat, agent: string, look: Look)
    requires n < |steps| && steps[n] == Scraped(Some(look)) && FoundSince(steps, i, n, agent)
    ensures look.found == Some(agent) || look.matches(agent) ==>
      Events(steps, n) == if look.observed(agent).Some? then [Emitted(agent, look.observed(agent).value)] else []
    ensures look.found != Some(agent) && !look.matches(agent) ==>
      Events(steps, n) == if Missing(steps, i, n, agent) then [Emitted(agent, Exited)] else []
  {
    MissedIff(steps, i, n, agent);
  }

  /** A dump of a pane that nothing bound: silence if the rules identify nothing or the pane is held;
      otherwise the agent is new, and then what the screen shows of it. */
  lemma UnboundSays(steps: seq<PaneStep>, n: nat, look: Look)
    requires n < |steps| && steps[n] == Scraped(Some(look))
    requires forall agent :: !HookBound(steps, n, agent) && !ScrapeBound(steps, n, agent)
    ensures look.found.None? || (exists i: nat :: HeldSince(steps, i, n)) ==> Events(steps, n) == []
    ensures look.found.Some? && !(exists i: nat :: HeldSince(steps, i, n)) ==>
      var agent := look.found.value;
      Events(steps, n) == [Emitted(agent, Unknown)] + if look.observed(agent).Some? then [Emitted(agent, look.observed(agent).value)] else []
  {
    HeldIff(steps, n);
    var b := At(steps, n).binding;
    if b.Some? {
      HookBoundIff(steps, n, b.value.agent);
      ScrapeBoundIff(steps, n, b.value.agent);
    }
  }
}
