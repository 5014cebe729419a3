/**
 The host-key prompt and the connect timeout of one SSH hop: two tasks that share a phase
 and a count of finished prompts, each changed by single atomic operations.
 */
module HopStates {
  datatype Phase = Idle | Prompting | Abandoned

  /** Where the key handler is. */
  datatype Handler = Waiting | Asking | Decided(trusted: bool) | Counting | Leaving

  /** Where the timeout loop is; `seen` is the count of prompts it knows of. */
  datatype Timer = Sleeping(seen: nat) | Checked(seen: nat) | GaveUp | Connected

  datatype Step =
    | Claim // compare-and-swap Idle -> Prompting; on success the prompt opens
    | Answer(trusted: bool)
    | Decide(recorded: bool) // learn the key if it is trusted, which may fail
    | Count // prompts_done + 1
    | Leave // store Idle
    | Wake // the period is over: compare prompts_done with `seen`
    | GiveUp // compare-and-swap Idle -> Abandoned
    | Connect // the connection is up before the period is over

  datatype Hop = Hop(phase: Phase, done: nat, handler: Handler, timer: Timer)

  const START := Hop(Idle, 0, Waiting, Sleeping(0))

  predicate Enabled(h: Hop, step: Step) {
    match step
    case Claim => h.handler.Waiting?
    case Answer(_) => h.handler.Asking?
    case Decide(_) => h.handler.Decided?
    case Count => h.handler.Counting?
    case Leave => h.handler.Leaving?
    case Wake => h.timer.Sleeping?
    case GiveUp => h.timer.Checked?
    case Connect => h.timer.Sleeping?
  }

  function After(h: Hop, step: Step): Hop
    requires Enabled(h, step)
  {
    match step
    case Claim => if h.phase.Idle? then h.(phase := Prompting, handler := Asking) else h
    case Answer(trusted) => h.(handler := Decided(trusted))
    case Decide(_) => h.(handler := Counting)
    case Count => h.(done := h.done + 1, handler := Leaving)
    case Leave => h.(phase := Idle, handler := Waiting)
    case Wake => if h.done != h.timer.seen then h.(timer := Sleeping(h.done)) else h.(timer := Checked(h.timer.seen))
    case GiveUp => if h.phase.Idle? then h.(phase := Abandoned, timer := GaveUp) else h.(timer := Sleeping(h.timer.seen))
    case Connect => h.(timer := Connected)
  }

  // What a step does to the outside world.

  predicate OpensPrompt(h: Hop, step: Step) { step.Claim? && Enabled(h, step) && h.phase.Idle? }

  predicate Learns(h: Hop, step: Step) { step.Decide? && Enabled(h, step) && h.handler.trusted && step.recorded }

  predicate GivesUp(h: Hop, step: Step) { step.GiveUp? && Enabled(h, step) && h.phase.Idle? }

  /** A prompt is on the screen, or its answer is being acted on. */
  predicate Busy(h: Hop) { !h.handler.Waiting? }

  /** `hops` is a run: it starts afresh and takes each step when it is enabled. */
  ghost predicate IsRun(steps: seq<Step>, hops: seq<Hop>) {
    && |hops| == |steps| + 1 && hops[0] == START
    && forall i | 0 <= i < |steps| :: Enabled(hops[i], steps[i]) && hops[i + 1] == After(hops[i], steps[i])
  }

  /** The handler owns the phase exactly while it is busy, the timer exactly once it gave up. */
  predicate Inv(h: Hop) {
    && (Busy(h) <==> h.phase.Prompting?)
    && (h.timer.GaveUp? <==> h.phase.Abandoned?)
  }

  lemma {:induction false} RunKeeps(steps: seq<Step>, hops: seq<Hop>, k: nat)
    requires IsRun(steps, hops) && k <= |steps|
    ensures Inv(hops[k])
    decreases k
  {
    if k > 0 {
      RunKeeps(steps, hops, k - 1);
    }
  }

  lemma {:induction false} AbandonedForGood(steps: seq<Step>, hops: seq<Hop>, i: nat, j: nat)
    requires IsRun(steps, hops) && i <= j <= |steps| && hops[i].phase.Abandoned?
    ensures hops[j].phase.Abandoned?
    decreases j
  {
    if i < j {
      AbandonedForGood(steps, hops, i, j - 1);
      RunKeeps(steps, hops, j - 1);
    }
  }

  /** In every interleaving: the timer never gives up while a prompt is open or its answer
      is being acted on, and a key is learned only while the handler owns the phase. */
  lemma PromptsAreNotCutShort(steps: seq<Step>, hops: seq<Hop>, k: nat)
    requires IsRun(steps, hops) && k < |steps|
    ensures GivesUp(hops[k], steps[k]) ==> !Busy(hops[k])
    ensures Learns(hops[k], steps[k]) ==> hops[k].phase.Prompting? && !hops[k].timer.GaveUp?
  {
    RunKeeps(steps, hops, k);
  }

  /** After the timer gave up no prompt opens and no key is learned. */
  lemma NothingAfterGivingUp(steps: seq<Step>, hops: seq<Hop>, i: nat, j: nat)
    requires IsRun(steps, hops) && i < j < |steps| && GivesUp(hops[i], steps[i])
    ensures !OpensPrompt(hops[j], steps[j]) && !Learns(hops[j], steps[j])
  {
    AbandonedForGood(steps, hops, i + 1, j);
    RunKeeps(steps, hops, j);
  }

  // A full period after every prompt.

  /** The timer's check and its compare-and-swap: `i` is the last `Wake` before `k`. */
  ghost predicate CheckedAt(steps: seq<Step>, i: nat, k: nat) {
    i < k < |steps| && steps[i].Wake? && forall j | i < j < k :: !steps[j].Wake?
  }

  /** Whenever the timer is about to give up, it has checked. */
  lemma {:induction false} WasChecked(steps: seq<Step>, hops: seq<Hop>, k: nat) returns (i: nat)
    requires IsRun(steps, hops) && k < |steps| && hops[k].timer.Checked?
    ensures CheckedAt(steps, i, k)
    decreases k
  {
    if steps[k - 1].Wake? {
      i := k - 1;
    } else {
      i := WasChecked(steps, hops, k - 1);
    }
  }

  /** Between `j` and `k` the timer went to sleep for a whole period and woke up at its end. */
  ghost predicate FullPeriod(steps: seq<Step>, hops: seq<Hop>, j: nat, k: nat)
  {
    exists w: nat, v: nat :: j < w < v < k < |steps| && Restarts(steps, hops, w) && steps[v].Wake?
  }

  /** At `w` the timer finds that a prompt has finished and starts its period again. */
  ghost predicate Restarts(steps: seq<Step>, hops: seq<Hop>, w: nat)
  {
    w < |steps| && w + 1 < |hops| && steps[w].Wake? && hops[w].timer.Sleeping? && hops[w + 1].timer.Sleeping?
  }

  function Seen(timer: Timer, done: nat): nat {
    match timer
    case Sleeping(seen) => seen
    case Checked(seen) => seen
    case _ => done
  }

  /** The timer never knows of more prompts than finished. */
  lemma {:induction false} SeenIsBehind(steps: seq<Step>, hops: seq<Hop>, n: nat)
    requires IsRun(steps, hops) && n <= |steps|
    ensures Seen(hops[n].timer, hops[n].done) <= hops[n].done
    decreases n
  {
    if n > 0 {
      SeenIsBehind(steps, hops, n - 1);
    }
  }

  /** A prompt counted at `j` stays unseen until the timer starts a new period over it. */
  lemma {:induction false} UnseenUntilRestart(steps: seq<Step>, hops: seq<Hop>, j: nat, n: nat)
    requires IsRun(steps, hops) && j < n <= |steps| && steps[j].Count?
    requires forall w: nat | j < w < n :: !Restarts(steps, hops, w)
    ensures match hops[n].timer
            case Sleeping(seen) => seen < hops[n].done
            case Checked(seen) => seen < hops[n].done
            case _ => true
    decreases n
  {
    if n == j + 1 {
      SeenIsBehind(steps, hops, j);
    } else {
      UnseenUntilRestart(steps, hops, j, n - 1);
      assert !Restarts(steps, hops, n - 1);
    }
  }

  /** The timer checked at `i` and did nothing else before `k`. */
  lemma {:induction false} TimerBetween(steps: seq<Step>, hops: seq<Hop>, i: nat, k: nat)
    requires IsRun(steps, hops) && i < k <= |steps| && steps[i].Wake? && forall j | i < j < k :: !steps[j].Wake?
    ensures hops[k].timer.Checked? ==> hops[i].timer.Sleeping? && hops[i].timer.seen == hops[i].done
    decreases k
  {
    if i + 1 < k {
      TimerBetween(steps, hops, i, k - 1);
    }
  }

  /** "A full period after every prompt": when the timer gives up at `k`, having checked at `i`, a
      prompt that was counted at `j` has had its full period if and only if it was counted before
      the check. */
  lemma {:induction false} FullPeriodIffCountedBeforeCheck(steps: seq<Step>, hops: seq<Hop>, j: nat, i: nat, k: nat)
    requires IsRun(steps, hops) && CheckedAt(steps, i, k) && GivesUp(hops[k], steps[k])
    requires j < k && steps[j].Count?
    ensures FullPeriod(steps, hops, j, k) <==> j < i
  {
    TimerBetween(steps, hops, i, k);
    if j < i {
      if forall w: nat | j < w < i :: !Restarts(steps, hops, w) {
        UnseenUntilRestart(steps, hops, j, i);
      } else {
        var w: nat :| j < w < i && Restarts(steps, hops, w);
        assert FullPeriod(steps, hops, j, k);
      }
    }
  }

  /** A run in which it has not: the prompt is counted just after the timer looked. */
  lemma GivesUpRightAfterPrompt() returns (steps: seq<Step>, hops: seq<Hop>)
    ensures IsRun(steps, hops) && |steps| == 7 && GivesUp(hops[6], steps[6])
    ensures steps[4].Count? && !FullPeriod(steps, hops, 4, 6)
  {
    steps := [Claim, Answer(true), Decide(true), Wake, Count, Leave, GiveUp];
    var h1 := After(START, Claim);
    var h2 := After(h1, Answer(true));
    var h3 := After(h2, Decide(true));
    var h4 := After(h3, Wake);
    var h5 := After(h4, Count);
    var h6 := After(h5, Leave);
    hops := [START, h1, h2, h3, h4, h5, h6, After(h6, GiveUp)];
    FullPeriodIffCountedBeforeCheck(steps, hops, 4, 3, 6);
  }
}
