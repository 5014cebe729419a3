/** A host's probe connection: open, serve, wait, open again. */
module Hosts {
  import opened Wrappers
  import opened Backoffs

  type Message = int

  datatype Command = Retry | Send(m: Message) | Stop | Closed

  datatype Event =
    | Connecting // an open starts
    | NeedsUser(protocol: bool)
    | Up
    | Lost // the link of a served connection failed
    | Retrying(delay: nat)
    | Took(cmd: Command) // a command taken from the channel
    | Sent(m: Message)
    | Dropped(m: Message)

  datatype Entry = Entry(at: nat, what: Event)

  // What the environment does: when commands arrive and how every await ends.

  datatype Timed = Timed(after: nat, cmd: Command)

  datatype OpenResult = Problem | Failed | Linked(cmds: seq<Timed>, took: nat, hello: Greeting)

  datatype Greeting = Mismatch | NoHello | Hello(uptime: seq<Input>)

  /** Something that happens `after` the previous thing while a connection is served. */
  datatype Input =
    | Receive(after: nat)
    | LinkFails(after: nat) // receiving, or acknowledging what was received, fails
    | Command(after: nat, cmd: Command, delivered: bool)

  /** The link fails: on receiving, or on sending a message. */
  predicate Breaks(input: Input) { input.LinkFails? || (input.Command? && input.cmd.Send? && !input.delivered) }

  predicate Halts(cmd: Command) { cmd.Stop? || cmd.Closed? }

  predicate Quits(input: Input) { input.Command? && Halts(input.cmd) }

  /** When the n-th command arrives, from the start of a wait. */
  function Arrival(cmds: seq<Timed>, n: nat): nat
    requires n <= |cmds|
  {
    if n == 0 then 0 else Arrival(cmds, n - 1) + cmds[n - 1].after
  }

  /** A command taken and, if it is a message, whether it went out. */
  function Handled(cmd: Command, delivered: bool): seq<Event> {
    match cmd
    case Send(m) => [Took(cmd), if delivered then Sent(m) else Dropped(m)]
    case _ => [Took(cmd)]
  }

  /** What is taken and answered in the first `n` commands while no probe is up. */
  function Refusals(cmds: seq<Timed>, n: nat): seq<Event>
    requires n <= |cmds|
  {
    if n == 0 then [] else Refusals(cmds, n - 1) + Handled(cmds[n - 1].cmd, false)
  }

  /** What is taken and answered in the first `n` inputs of a served connection. */
  function Relayed(inputs: seq<Input>, n: nat): seq<Event>
    requires n <= |inputs|
  {
    if n == 0 then []
    else if inputs[n - 1].Command? then Relayed(inputs, n - 1) + Handled(inputs[n - 1].cmd, inputs[n - 1].delivered)
    else Relayed(inputs, n - 1)
  }

  /** How many commands are taken: up to the first that halts the task, that one included. */
  function UntilHalt(cmds: seq<Timed>): (n: nat)
    ensures n <= |cmds| && forall i | 0 <= i < n - 1 :: !Halts(cmds[i].cmd)
    ensures n < |cmds| ==> n > 0 && Halts(cmds[n - 1].cmd)
  {
    if cmds == [] || Halts(cmds[0].cmd) then Min(|cmds|, 1) else 1 + UntilHalt(cmds[1..])
  }

  predicate Halted(cmds: seq<Timed>) { exists i :: 0 <= i < |cmds| && Halts(cmds[i].cmd) }

  /** How many inputs are handled: up to the first that breaks the link or quits, that one included. */
  function UntilOver(inputs: seq<Input>): (n: nat)
    ensures n <= |inputs| && forall i | 0 <= i < n - 1 :: !Breaks(inputs[i]) && !Quits(inputs[i])
    ensures n < |inputs| ==> n > 0 && (Breaks(inputs[n - 1]) || Quits(inputs[n - 1]))
  {
    if inputs == [] || Breaks(inputs[0]) || Quits(inputs[0]) then Min(|inputs|, 1) else 1 + UntilOver(inputs[1..])
  }

  lemma UntilOverIs(inputs: seq<Input>, n: nat)
    requires n <= |inputs| && forall i | 0 <= i < n - 1 :: !Breaks(inputs[i]) && !Quits(inputs[i])
    requires n < |inputs| ==> n > 0 && (Breaks(inputs[n - 1]) || Quits(inputs[n - 1]))
    ensures UntilOver(inputs) == n
  {
  }

  /** The connection ends because its link fails. */
  predicate LosesLink(inputs: seq<Input>) { UntilOver(inputs) > 0 && Breaks(inputs[UntilOver(inputs) - 1]) }

  /** One pass of the loop: the commands during the open, its length and end, then the wait. */
  datatype Pass = Pass(cmds: seq<Timed>, took: nat, opening: OpenResult, settle: nat, wait: seq<Timed>, late: nat)

  /** The traffic of a pass in whose wait `waited` commands are taken. */
  function PassTraffic(pass: Pass, waited: nat): seq<Event>
    requires waited <= |pass.wait|
  {
    Refusals(pass.cmds, UntilHalt(pass.cmds)) +
    if Halted(pass.cmds) then []
    else if pass.opening.Linked? then LinkTraffic(pass, waited)
    else Refusals(pass.wait, waited)
  }

  function LinkTraffic(pass: Pass, waited: nat): seq<Event>
    requires pass.opening.Linked? && waited <= |pass.wait|
  {
    Refusals(pass.opening.cmds, UntilHalt(pass.opening.cmds)) +
    if Halted(pass.opening.cmds) then []
    else if pass.opening.hello.Hello? then UpTraffic(pass.opening.hello.uptime, pass.wait, waited)
    else Refusals(pass.wait, waited)
  }

  /** A connection that loses its link is followed by a wait, one told to stop is not. */
  function UpTraffic(uptime: seq<Input>, wait: seq<Timed>, waited: nat): seq<Event>
    requires waited <= |wait|
  {
    Relayed(uptime, UntilOver(uptime)) + if LosesLink(uptime) then Refusals(wait, waited) else []
  }

  // A reading of the log.

  /** The sum of the first `n` delays. */
  function Sum(n: nat): nat { if n == 0 then 0 else Sum(n - 1) + Min(FIRST * Pow2(n - 1), MAX) }

  /** Where the task is: free to open from a time on, opening, serving, failing, or stuck until a Retry. */
  datatype Phase = Ready(from: nat) | Opening | Serving(since: nat) | Failing | AwaitingUser

  /** What an open came to. */
  datatype Ending = Refused(protocol: bool) | Unreached | Reached

  /**
   What the log so far amounts to: its time, the phase, what every open came to, the opens and
   the delays since the last reset, whether neither a Retry nor a stable connection occurred, the
   commands taken with the answers to their messages, and the message that is still to be answered.
   */
  datatype Gauge =
    Gauge(at: nat, phase: Phase, ends: seq<Ending>, opens: nat, failures: nat, quiet: bool, traffic: seq<Event>, owed: Option<Message>)

  const START := Gauge(0, Ready(0), [], 0, 0, true, [], None)

  predicate IsTraffic(what: Event) { what.Took? || what.Sent? || what.Dropped? }

  function Owed(what: Event): Option<Message> {
    if what.Took? && what.cmd.Send? then Some(what.cmd.m) else None
  }

  predicate Answers(what: Event, m: Message) { what == Sent(m) || what == Dropped(m) }

  predicate InPhase(phase: Phase, e: Entry) {
    match e.what
    case Connecting => phase.Ready? && phase.from <= e.at
    case NeedsUser(_) => phase.Opening?
    case Up => phase.Opening?
    case Lost => phase.Serving?
    case Retrying(_) => phase.Opening? || phase.Failing?
    case Took(_) => true
    case Sent(_) => phase.Serving?
    case Dropped(_) => true
  }

  /** Whether `e` may be the next entry. */
  predicate Allowed(g: Gauge, e: Entry) {
    && g.at <= e.at
    && (if g.owed.Some? then Answers(e.what, g.owed.value) else !e.what.Sent? && !e.what.Dropped?)
    && InPhase(g.phase, e)
    && (e.what.Retrying? ==> e.what.delay == After(g.failures).next)
  }

  predicate Stable(phase: Phase, e: Entry) {
    e.what.Lost? && phase.Serving? && e.at >= phase.since + STABLE_AFTER
  }

  predicate Resets(phase: Phase, e: Entry) { e.what == NeedsUser(false) || Stable(phase, e) }

  function NextPhase(phase: Phase, e: Entry): Phase {
    match e.what
    case Connecting => Opening
    case NeedsUser(_) => AwaitingUser
    case Up => Serving(e.at)
    case Lost => Failing
    case Retrying(d) => Ready(e.at + d)
    case Took(Retry) => if phase.Ready? || phase.AwaitingUser? then Ready(e.at) else phase
    case _ => phase
  }

  function NextEnds(ends: seq<Ending>, phase: Phase, e: Entry): seq<Ending> {
    match e.what
    case NeedsUser(protocol) => ends + [Refused(protocol)]
    case Up => ends + [Reached]
    case Retrying(_) => if phase.Opening? then ends + [Unreached] else ends
    case _ => ends
  }

  function Next(g: Gauge, e: Entry): Gauge {
    Gauge(
      e.at,
      NextPhase(g.phase, e),
      NextEnds(g.ends, g.phase, e),
      if e.what.Connecting? then g.opens + 1 else g.opens,
      if Resets(g.phase, e) then 0 else if e.what.Retrying? then g.failures + 1 else g.failures,
      g.quiet && e.what != Took(Retry) && !Stable(g.phase, e),
      if IsTraffic(e.what) then g.traffic + [e.what] else g.traffic,
      Owed(e.what))
  }

  function Read(log: seq<Entry>): Option<Gauge> {
    if log == [] then Some(START)
    else
      var e := log[|log| - 1];
      match Read(log[..|log| - 1])
      case None => None
      case Some(g) => if Allowed(g, e) then Some(Next(g, e)) else None
  }

  lemma ReadSnoc(log: seq<Entry>, e: Entry)
    requires Read(log).Some? && Allowed(Read(log).value, e)
    ensures Read(log + [e]) == Some(Next(Read(log).value, e))
  {
    assert (log + [e])[..|log|] == log;
  }

  // The task.

  /** How a wait ends; Asleep: nothing ever ends it. */
  datatype Woken = Elapsed | Retried | Stopped | Asleep

  datatype Served = LinkLost | ToldToStop | StillUp

  /** The last thing that happened was being told to stop. */
  predicate ToldStop(log: seq<Entry>) {
    log != [] && (log[|log| - 1].what == Took(Stop) || log[|log| - 1].what == Took(Closed))
  }

  class Host {
    var now: nat
    var backoff: Backoff
    var log: seq<Entry>
    ghost var g: Gauge

    /** The log reads as `g`, and no message is waiting to be sent or dropped. */
    ghost predicate Valid()
      reads this
    {
      Read(log) == Some(g) && g.at <= now && g.owed.None?
    }

    constructor ()
      ensures Valid() && g == START && now == 0 && backoff == FRESH && log == []
    {
      now, backoff, log, g := 0, FRESH, [], START;
    }

    method Emit(what: Event)
      requires Read(log) == Some(g) && Allowed(g, Entry(now, what))
      modifies this`log, this`g
      ensures Read(log) == Some(g) && g == Next(old(g), Entry(now, what)) && log == old(log) + [Entry(now, what)]
    {
      hide Read, Next, Allowed;
      ReadSnoc(log, Entry(now, what));
      log := log + [Entry(now, what)];
      g := Next(g, Entry(now, what));
    }

    /** A command that arrives while no probe is running: whether it wakes or stops the task. */
    method IdleCommand(cmd: Command) returns (wake: Option<Woken>)
      requires Valid()
      modifies this`log, this`g
      ensures Valid()
      ensures wake == if cmd.Send? then None else if cmd.Retry? then Some(Retried) else Some(Stopped)
      ensures g == old(g).(at := now, quiet := old(g).quiet && !cmd.Retry?, traffic := old(g).traffic + Handled(cmd, false),
                           phase := if cmd.Retry? && (old(g).phase.Ready? || old(g).phase.AwaitingUser?) then Ready(now) else old(g).phase)
      ensures Halts(cmd) ==> ToldStop(log)
    {
      hide Read, Backoffs.After;
      Emit(Took(cmd));
      match cmd
      case Stop => wake := Some(Stopped);
      case Closed => wake := Some(Stopped);
      case Retry => wake := Some(Retried);
      case Send(m) =>
        Emit(Dropped(m));
        wake := None;
    }

    /** Take the commands that come before an awaited operation ends; false if one of them halts the task. */
    method Busy(cmds: seq<Timed>, took: nat) returns (done: bool)
      requires Valid() && g.phase.Opening?
      modifies this`now, this`log, this`g
      ensures Valid() && old(now) <= now
      ensures g == old(g).(at := g.at, quiet := g.quiet, traffic := g.traffic) && (g.quiet ==> old(g).quiet)
      ensures g.traffic == old(g).traffic + Refusals(cmds, UntilHalt(cmds))
      ensures done == !Halted(cmds) && (!done ==> ToldStop(log))
    {
      hide Read, Backoffs.After, Handled, Next, ToldStop;
      for i := 0 to |cmds|
        invariant Valid() && old(now) <= now
        invariant g == old(g).(at := g.at, quiet := g.quiet, traffic := old(g).traffic + Refusals(cmds, i))
        invariant g.quiet ==> old(g).quiet
        invariant forall j | 0 <= j < i :: !Halts(cmds[j].cmd)
      {
        now := now + cmds[i].after;
        var wake := IdleCommand(cmds[i].cmd);
        if wake == Some(Stopped) {
          return false;
        }
      }
      now := now + took;
      return true;
    }

    /** Wait for the delay, or for a Retry; without a delay only for a Retry. The first `n` commands are taken. */
    method Wait(delay: Option<nat>, cmds: seq<Timed>, late: nat) returns (woken: Woken, ghost n: nat)
      requires Valid() && g.phase == (if delay.Some? then Ready(now + delay.value) else AwaitingUser)
      modifies this`now, this`log, this`g
      ensures Valid() && old(now) <= now
      ensures woken.Elapsed? ==> delay.Some? && old(now) + delay.value <= now && g == old(g).(at := g.at, traffic := g.traffic)
      ensures woken.Retried? ==> g == old(g).(at := now, quiet := false, phase := Ready(now), traffic := g.traffic)
      ensures n <= |cmds| && g.traffic == old(g).traffic + Refusals(cmds, n)
      ensures forall i | 0 <= i < n - 1 :: cmds[i].cmd.Send?
      ensures if woken.Elapsed? || woken.Asleep? then n > 0 ==> cmds[n - 1].cmd.Send?
              else n > 0 && if woken.Stopped? then Halts(cmds[n - 1].cmd) else cmds[n - 1].cmd.Retry?
      ensures woken.Elapsed? && n < |cmds| ==> Arrival(cmds, n + 1) > delay.value
      ensures woken.Stopped? ==> ToldStop(log)
      ensures g.opens == old(g).opens && g.ends == old(g).ends
      ensures woken.Asleep? ==> g.phase.AwaitingUser? && n == |cmds|
    {
      hide Read, Backoffs.After, Handled, Next, ToldStop;
      var start := now;
      n := 0;
      for i := 0 to |cmds|
        invariant Valid() && start == old(now) && now == start + Arrival(cmds, i) && n == i
        invariant delay.Some? ==> now <= start + delay.value
        invariant g == old(g).(at := g.at, traffic := old(g).traffic + Refusals(cmds, i))
        invariant forall j | 0 <= j < i :: cmds[j].cmd.Send?
      {
        if delay.Some? && now + cmds[i].after > start + delay.value {
          now := start + delay.value + late;
          return Elapsed, n;
        }
        now := now + cmds[i].after;
        var wake := IdleCommand(cmds[i].cmd);
        n := i + 1;
        if wake.Some? {
          return wake.value, n;
        }
      }
      if delay.None? {
        return Asleep, n;
      }
      now := start + delay.value + late;
      return Elapsed, n;
    }

    /** A command that arrives while the probe is up; a message that cannot be sent is reported. */
    method UpCommand(cmd: Command, delivered: bool) returns (end: Option<Served>)
      requires Valid() && g.phase.Serving?
      modifies this`log, this`g
      ensures Valid()
      ensures g == old(g).(at := now, quiet := old(g).quiet && !cmd.Retry?, traffic := old(g).traffic + Handled(cmd, delivered))
      ensures cmd.Send? ==> log == old(log) + [Entry(now, Took(cmd)), Entry(now, if delivered then Sent(cmd.m) else Dropped(cmd.m))]
      ensures !cmd.Send? ==> log == old(log) + [Entry(now, Took(cmd))]
      ensures Halts(cmd) ==> ToldStop(log)
      ensures end == if cmd.Stop? || cmd.Closed? then Some(ToldToStop) else if cmd.Send? && !delivered then Some(LinkLost) else None
    {
      hide Read, Backoffs.After;
      Emit(Took(cmd));
      end := None;
      match cmd
      case Stop => end := Some(ToldToStop);
      case Closed => end := Some(ToldToStop);
      case Retry =>
      case Send(m) =>
        if !delivered {
          Emit(Dropped(m));
          end := Some(LinkLost);
        } else {
          Emit(Sent(m));
        }
    }

    /** Relay until the link fails or the task is told to stop. */
    method Serve(inputs: seq<Input>) returns (end: Served)
      requires Valid() && g.phase.Serving?
      modifies this`now, this`log, this`g
      ensures Valid() && old(now) <= now
      ensures g == old(g).(at := g.at, quiet := g.quiet, traffic := g.traffic) && (g.quiet ==> old(g).quiet)
      ensures g.traffic == old(g).traffic + Relayed(inputs, UntilOver(inputs))
      ensures end.ToldToStop? ==> ToldStop(log)
      ensures end.LinkLost? <==> LosesLink(inputs)
      ensures end.StillUp? <==> forall i | 0 <= i < |inputs| :: !Breaks(inputs[i]) && !Quits(inputs[i])
    {
      hide Read, Backoffs.After, Handled, Next, ToldStop, UntilOver;
      for i := 0 to |inputs|
        invariant Valid() && old(now) <= now
        invariant g == old(g).(at := g.at, quiet := g.quiet, traffic := old(g).traffic + Relayed(inputs, i))
        invariant g.quiet ==> old(g).quiet
        invariant forall j | 0 <= j < i :: !Breaks(inputs[j]) && !Quits(inputs[j])
      {
        var input := inputs[i];
        now := now + input.after;
        match input
        case Receive(_) =>
        case LinkFails(_) =>
          UntilOverIs(inputs, i + 1);
          return LinkLost;
        case Command(_, cmd, delivered) =>
          var over := UpCommand(cmd, delivered);
          if over.Some? {
            UntilOverIs(inputs, i + 1);
            return over.value;
          }
      }
      UntilOverIs(inputs, |inputs|);
      return StillUp;
    }

    /** The loop head: an open is due. */
    ghost predicate Head()
      reads this
    {
      && Valid()
      && g.phase.Ready? && g.phase.from <= now
      && backoff == After(g.failures)
    }

    /** An open is under way or has failed; its delay is still to come. */
    ghost predicate Pending()
      reads this
    {
      Valid() && backoff == After(g.failures)
    }

    /** Why the loop may end. */
    ghost predicate Over()
      reads this
    {
      Valid() && (ToldStop(log) || g.phase.AwaitingUser? || g.phase.Serving?)
    }

    /** Wait out the next delay. */
    method BackOff(pass: Pass) returns (again: bool, ghost waited: nat)
      requires Pending() && (g.phase.Opening? || g.phase.Failing?)
      modifies this
      ensures if again then Head() else Over()
      ensures g.opens == old(g).opens
      ensures g.ends == if old(g).phase.Opening? then old(g).ends + [Unreached] else old(g).ends
      ensures waited <= |pass.wait| && g.traffic == old(g).traffic + Refusals(pass.wait, waited)
    {
      hide Read, Refusals, ToldStop;
      var delay := backoff.next;
      backoff := backoff.Advanced();
      Emit(Retrying(delay));
      var woken;
      woken, waited := Wait(Some(delay), pass.wait, pass.late);
      again := woken.Elapsed? || woken.Retried?;
    }

    /** A problem only the user can solve: wait for a Retry. */
    method AwaitUser(protocol: bool, pass: Pass) returns (again: bool, ghost waited: nat)
      requires Pending() && g.phase.Opening?
      modifies this
      ensures if again then Head() else Over()
      ensures g.opens == old(g).opens && g.ends == old(g).ends + [Refused(protocol)]
      ensures waited <= |pass.wait| && g.traffic == old(g).traffic + Refusals(pass.wait, waited)
    {
      hide Read, Refusals, ToldStop;
      Emit(NeedsUser(protocol));
      var woken;
      woken, waited := Wait(None, pass.wait, pass.late);
      again := woken.Retried?;
      if again && !protocol {
        backoff := FRESH;
      }
    }

    /** Serve a greeted connection until it is lost; false if it is not. */
    method ServeUp(uptime: seq<Input>, settle: nat) returns (lost: bool)
      requires Pending() && g.phase.Opening?
      modifies this
      ensures if lost then Pending() && g.phase.Failing? else Over()
      ensures g.opens == old(g).opens && g.ends == old(g).ends + [Reached]
      ensures lost == LosesLink(uptime) && g.traffic == old(g).traffic + Relayed(uptime, UntilOver(uptime))
    {
      hide Read, Relayed, UntilOver, LosesLink, ToldStop;
      Emit(Up);
      var upSince := now;
      var end := Serve(uptime);
      if end != LinkLost {
        return false;
      }
      if now - upSince >= STABLE_AFTER {
        backoff := FRESH;
      }
      Emit(Lost);
      now := now + settle;
      return true;
    }

    /** Serve a greeted connection; after losing its link, wait out the next delay. */
    method ServeThenBackOff(uptime: seq<Input>, pass: Pass) returns (again: bool, ghost waited: nat)
      requires Pending() && g.phase.Opening?
      modifies this
      ensures if again then Head() else Over()
      ensures g.opens == old(g).opens && g.ends == old(g).ends + [Reached]
      ensures waited <= |pass.wait| && g.traffic == old(g).traffic + UpTraffic(uptime, pass.wait, waited)
    {
      hide Read, Backoffs.After, Refusals, Relayed, UntilOver, LosesLink;
      waited := 0;
      again := ServeUp(uptime, pass.settle);
      if again {
        again, waited := BackOff(pass);
      }
    }

    /** An open that led to a link: greet the probe, then serve it. */
    method Greet(pass: Pass) returns (again: bool, ghost waited: nat)
      requires pass.opening.Linked? && Pending() && g.phase.Opening?
      modifies this
      ensures if again then Head() else Over()
      ensures g.opens == old(g).opens
      ensures again ==> g.ends == old(g).ends + [EndingOf(pass.opening)]
      ensures !again ==> g.ends <= old(g).ends + [EndingOf(pass.opening)]
      ensures waited <= |pass.wait| && g.traffic == old(g).traffic + LinkTraffic(pass, waited)
    {
      hide Read, Backoffs.After, Refusals, UpTraffic, UntilHalt, Halted;
      waited := 0;
      again := Busy(pass.opening.cmds, pass.opening.took);
      if again {
        match pass.opening.hello {
          case Mismatch =>
            again, waited := AwaitUser(true, pass);
          case NoHello =>
            again, waited := BackOff(pass);
          case Hello(uptime) =>
            again, waited := ServeThenBackOff(uptime, pass);
        }
      }
    }

    /** One pass of the loop: false when the loop ends here. */
    method Attempt(pass: Pass) returns (again: bool, ghost waited: nat)
      requires Head()
      modifies this
      ensures if again then Head() else Over()
      ensures g.opens == old(g).opens + 1
      ensures again ==> g.ends == old(g).ends + [EndingOf(pass.opening)]
      ensures !again ==> g.ends <= old(g).ends + [EndingOf(pass.opening)]
      ensures waited <= |pass.wait| && g.traffic == old(g).traffic + PassTraffic(pass, waited)
    {
      hide Read, Backoffs.After, Refusals, LinkTraffic, UntilHalt, Halted;
      Emit(Connecting);
      waited := 0;
      again := Busy(pass.cmds, pass.took);
      if again {
        match pass.opening {
          case Problem =>
            again, waited := AwaitUser(false, pass);
          case Failed =>
            again, waited := BackOff(pass);
          case Linked(_, _, _) =>
            again, waited := Greet(pass);
        }
      }
    }

    /** The messages sent over the whole run are the ones delivered while a connection was served, in order. */
    method Run(script: seq<Pass>)
      requires Valid() && g == START && now == 0 && backoff == FRESH && log == []
      modifies this
      ensures Valid() && g.opens <= |script| && g.ends <= Endings(script)
      ensures Over() || (g.opens == |script| && g.ends == Endings(script))
      ensures SentIn(log) == RunDelivered(script, g.opens)
    {
      hide Read, PassTraffic, PassDelivered;
      for i := 0 to |script|
        invariant Head() && g.opens == i && g.ends == Endings(script[..i])
        invariant SentOf(g.traffic) == RunDelivered(script, i)
      {
        EndingsGrow(script, i);
        ghost var was := g.traffic;
        var again, waited := Attempt(script[i]);
        SentOfPass(was, script[i], waited);
        if !again {
          SentIsLogged(log);
          return;
        }
      }
      assert script[..|script|] == script;
      SentIsLogged(log);
    }
  }

  // The messages that go out.

  function SentOf(events: seq<Event>): seq<Message> {
    if events == [] then []
    else
      var e := events[|events| - 1];
      SentOf(events[..|events| - 1]) + if e.Sent? then [e.m] else []
  }

  function SentIn(log: seq<Entry>): seq<Message> {
    if log == [] then []
    else
      var e := log[|log| - 1].what;
      SentIn(log[..|log| - 1]) + if e.Sent? then [e.m] else []
  }

  /** The delivered messages among the first `n` inputs. */
  function Delivered(inputs: seq<Input>, n: nat): seq<Message>
    requires n <= |inputs|
  {
    if n == 0 then []
    else
      var input := inputs[n - 1];
      Delivered(inputs, n - 1) + if input.Command? && input.cmd.Send? && input.delivered then [input.cmd.m] else []
  }

  /** The messages a pass delivers: those of its connection, if it gets that far. */
  function PassDelivered(pass: Pass): seq<Message> {
    if Halted(pass.cmds) || !pass.opening.Linked? || Halted(pass.opening.cmds) || !pass.opening.hello.Hello? then []
    else Delivered(pass.opening.hello.uptime, UntilOver(pass.opening.hello.uptime))
  }

  function RunDelivered(script: seq<Pass>, n: nat): seq<Message>
    requires n <= |script|
  {
    if n == 0 then [] else RunDelivered(script, n - 1) + PassDelivered(script[n - 1])
  }

  lemma {:induction false} SentOfSum(a: seq<Event>, b: seq<Event>)
    ensures SentOf(a + b) == SentOf(a) + SentOf(b)
  {
    if b == [] {
      assert a + b == a;
    } else {
      var n := |b| - 1;
      SentOfSum(a, b[..n]);
      assert (a + b)[..|a| + n] == a + b[..n];
    }
  }

  lemma SentOfHandled(was: seq<Event>, cmd: Command, delivered: bool)
    ensures SentOf(was + Handled(cmd, delivered)) == SentOf(was) + if cmd.Send? && delivered then [cmd.m] else []
  {
    SentOfSum(was, Handled(cmd, delivered));
    assert Handled(cmd, delivered) == [Took(cmd)] + Handled(cmd, delivered)[1..];
    SentOfSum([Took(cmd)], Handled(cmd, delivered)[1..]);
  }

  lemma {:induction false} RefusalsSendNothing(cmds: seq<Timed>, n: nat)
    requires n <= |cmds|
    ensures SentOf(Refusals(cmds, n)) == []
  {
    hide Handled;
    if n > 0 {
      RefusalsSendNothing(cmds, n - 1);
      SentOfHandled(Refusals(cmds, n - 1), cmds[n - 1].cmd, false);
    }
  }

  /** What goes out on a served connection is what the link delivers, in order. */
  lemma {:induction false} SentIsDelivered(inputs: seq<Input>, n: nat)
    requires n <= |inputs|
    ensures SentOf(Relayed(inputs, n)) == Delivered(inputs, n)
  {
    hide Handled;
    if n > 0 {
      SentIsDelivered(inputs, n - 1);
      if inputs[n - 1].Command? {
        SentOfHandled(Relayed(inputs, n - 1), inputs[n - 1].cmd, inputs[n - 1].delivered);
      }
    }
  }

  lemma {:induction false} SentUp(uptime: seq<Input>, wait: seq<Timed>, waited: nat)
    requires waited <= |wait|
    ensures SentOf(UpTraffic(uptime, wait, waited)) == Delivered(uptime, UntilOver(uptime))
  {
    SentIsDelivered(uptime, UntilOver(uptime));
    RefusalsSendNothing(wait, waited);
    SentOfSum(Relayed(uptime, UntilOver(uptime)), if LosesLink(uptime) then Refusals(wait, waited) else []);
  }

  lemma {:induction false} SentOfPass(was: seq<Event>, pass: Pass, waited: nat)
    requires waited <= |pass.wait|
    ensures SentOf(was + PassTraffic(pass, waited)) == SentOf(was) + PassDelivered(pass)
  {
    hide SentOf, Refusals, UntilHalt, UntilOver, Delivered, UpTraffic, Halted;
    SentOfSum(was, PassTraffic(pass, waited));
    var opening := Refusals(pass.cmds, UntilHalt(pass.cmds));
    RefusalsSendNothing(pass.cmds, UntilHalt(pass.cmds));
    RefusalsSendNothing(pass.wait, waited);
    if Halted(pass.cmds) {
      assert PassTraffic(pass, waited) == opening;
    } else if !pass.opening.Linked? {
      SentOfSum(opening, Refusals(pass.wait, waited));
    } else {
      SentOfSum(opening, LinkTraffic(pass, waited));
      var greeting := Refusals(pass.opening.cmds, UntilHalt(pass.opening.cmds));
      RefusalsSendNothing(pass.opening.cmds, UntilHalt(pass.opening.cmds));
      if Halted(pass.opening.cmds) {
        assert LinkTraffic(pass, waited) == greeting;
      } else if pass.opening.hello.Hello? {
        SentOfSum(greeting, UpTraffic(pass.opening.hello.uptime, pass.wait, waited));
        SentUp(pass.opening.hello.uptime, pass.wait, waited);
      } else {
        SentOfSum(greeting, Refusals(pass.wait, waited));
      }
    }
  }

  lemma {:induction false} SentIsLogged(log: seq<Entry>)
    requires Read(log).Some?
    ensures SentOf(Read(log).value.traffic) == SentIn(log)
  {
    if log != [] {
      var n := |log| - 1;
      SentIsLogged(log[..n]);
      SentOfSum(Read(log[..n]).value.traffic, [log[n].what]);
    }
  }

  /** Every command among the inputs is taken in its place, and a message is answered at once. */
  lemma {:induction false} EachCommandRelayed(inputs: seq<Input>, i: nat, n: nat)
    requires i < n <= |inputs| && inputs[i].Command?
    ensures Relayed(inputs, i) + [Took(inputs[i].cmd)] <= Relayed(inputs, n)
    ensures inputs[i].cmd.Send? ==>
      Relayed(inputs, i) + [Took(inputs[i].cmd), if inputs[i].delivered then Sent(inputs[i].cmd.m) else Dropped(inputs[i].cmd.m)]
      <= Relayed(inputs, n)
    decreases n
  {
    if i < n - 1 {
      EachCommandRelayed(inputs, i, n - 1);
    }
  }

  /** Without a probe every command is taken in its place, and a message is reported dropped at once. */
  lemma {:induction false} EachCommandRefused(cmds: seq<Timed>, i: nat, n: nat)
    requires i < n <= |cmds|
    ensures Refusals(cmds, i) + [Took(cmds[i].cmd)] <= Refusals(cmds, n)
    ensures cmds[i].cmd.Send? ==> Refusals(cmds, i) + [Took(cmds[i].cmd), Dropped(cmds[i].cmd.m)] <= Refusals(cmds, n)
    decreases n
  {
    if i < n - 1 {
      EachCommandRefused(cmds, i, n - 1);
    }
  }

  /** A served connection loses its link exactly if an input breaks it before any command to stop. */
  lemma LosesLinkIff(inputs: seq<Input>)
    ensures LosesLink(inputs) <==> exists i :: 0 <= i < |inputs| && Breaks(inputs[i]) && forall j | 0 <= j < i :: !Quits(inputs[j])
  {
    var n := UntilOver(inputs);
    if LosesLink(inputs) {
      assert Breaks(inputs[n - 1]);
    } else if i :| 0 <= i < |inputs| && Breaks(inputs[i]) && forall j | 0 <= j < i :: !Quits(inputs[j]) {
      assert n <= i + 1;
      assert Quits(inputs[n - 1]);
    }
  }

  function EndingOf(opening: OpenResult): Ending {
    match opening
    case Problem => Refused(false)
    case Failed => Unreached
    case Linked(_, _, Mismatch) => Refused(true)
    case Linked(_, _, NoHello) => Unreached
    case Linked(_, _, Hello(_)) => Reached
  }

  function Endings(script: seq<Pass>): seq<Ending> {
    seq(|script|, i requires 0 <= i < |script| => EndingOf(script[i].opening))
  }

  lemma EndingsGrow(script: seq<Pass>, i: nat)
    requires i < |script|
    ensures Endings(script[..i + 1]) == Endings(script[..i]) + [EndingOf(script[i].opening)]
    ensures Endings(script[..i + 1]) <= Endings(script)
  {
  }

  // What a readable log guarantees.

  lemma {:induction false} Entrywise(log: seq<Entry>, i: nat)
    requires Read(log).Some? && i < |log|
    ensures Read(log[..i]).Some? && Allowed(Read(log[..i]).value, log[i])
    ensures Read(log[..i + 1]) == Some(Next(Read(log[..i]).value, log[i]))
    decreases |log|
  {
    var n := |log| - 1;
    if i < n {
      Entrywise(log[..n], i);
      assert log[..n][..i] == log[..i] && log[..n][..i + 1] == log[..i + 1];
    } else {
      assert log[..i + 1] == log;
    }
  }

  /** The state before the i-th entry. */
  function Before(log: seq<Entry>, i: nat): Gauge
    requires Read(log).Some? && i <= |log|
  {
    ReadPrefix(log, i);
    Read(log[..i]).value
  }

  lemma ReadPrefix(log: seq<Entry>, i: nat)
    requires Read(log).Some? && i <= |log|
    ensures Read(log[..i]).Some?
  {
    if i < |log| {
      Entrywise(log, i);
    } else {
      assert log[..i] == log;
    }
  }

  lemma {:induction false} Advance(log: seq<Entry>, i: nat)
    requires Read(log).Some? && i < |log|
    ensures Allowed(Before(log, i), log[i]) && Before(log, i + 1) == Next(Before(log, i), log[i])
  {
    Entrywise(log, i);
  }

  predicate RetryAt(log: seq<Entry>, i: nat) { i < |log| && log[i].what == Took(Retry) }

  /** A lost connection that was up for STABLE_AFTER. */
  ghost predicate StableAt(log: seq<Entry>, i: nat) {
    && i < |log| && log[i].what.Lost?
    && exists u: nat ::
      && u < i && log[u].what.Up? && (forall k: nat | u < k < i :: !log[k].what.Up?)
      && log[u].at + STABLE_AFTER <= log[i].at
  }

  ghost predicate ResetAt(log: seq<Entry>, i: nat) { i < |log| && (log[i].what == NeedsUser(false) || StableAt(log, i)) }

  /** While serving, the phase knows when the connection came up. */
  lemma {:induction false} ServingSince(log: seq<Entry>, i: nat) returns (u: nat)
    requires Read(log).Some? && i <= |log| && Before(log, i).phase.Serving?
    ensures u < i && log[u].what.Up? && (forall k: nat | u < k < i :: !log[k].what.Up?)
    ensures log[u].at == Before(log, i).phase.since
    decreases i
  {
    assert i > 0 by {
      assert log[..0] == [];
    }
    Advance(log, i - 1);
    if log[i - 1].what.Up? {
      u := i - 1;
    } else {
      u := ServingSince(log, i - 1);
    }
  }

  lemma {:induction false} StableIff(log: seq<Entry>, i: nat)
    requires Read(log).Some? && i < |log|
    ensures Stable(Before(log, i).phase, log[i]) <==> StableAt(log, i)
  {
    if log[i].what.Lost? {
      Advance(log, i);
      var u := ServingSince(log, i);
      if StableAt(log, i) {
        var v: nat :|
          && v < i && log[v].what.Up? && (forall k: nat | v < k < i :: !log[k].what.Up?)
          && log[v].at + STABLE_AFTER <= log[i].at;
        assert u == v;
      }
    }
  }

  function Retries(log: seq<Entry>, lo: nat, hi: nat): nat
    requires lo <= hi <= |log|
  {
    if lo == hi then 0 else Retries(log, lo, hi - 1) + if log[hi - 1].what.Retrying? then 1 else 0
  }

  lemma {:induction false} FailuresSince(log: seq<Entry>, lo: nat, hi: nat)
    requires Read(log).Some? && lo <= hi <= |log|
    requires lo == 0 || ResetAt(log, lo - 1)
    requires forall i: nat | lo <= i < hi :: !ResetAt(log, i)
    ensures Before(log, hi).failures == Retries(log, lo, hi)
    decreases hi
  {
    if hi == 0 {
      assert log[..0] == [];
    } else {
      Advance(log, hi - 1);
      StableIff(log, hi - 1);
      assert ResetAt(log, hi - 1) <==> Resets(Before(log, hi - 1).phase, log[hi - 1]);
      if lo < hi {
        FailuresSince(log, lo, hi - 1);
      }
    }
  }

  /** The k-th delay after a reset, or after the start, is 2^k seconds, a minute at most. */
  lemma {:induction false} KthDelay(log: seq<Entry>, lo: nat, j: nat)
    requires Read(log).Some? && lo <= j < |log| && log[j].what.Retrying?
    requires lo == 0 || ResetAt(log, lo - 1)
    requires forall i: nat | lo <= i < j :: !ResetAt(log, i)
    ensures log[j].what.delay == Min(FIRST * Pow2(Retries(log, lo, j)), MAX)
  {
    Advance(log, j);
    FailuresSince(log, lo, j);
    DelayIsCappedPowerOfTwo(Retries(log, lo, j));
  }

  function Opens(log: seq<Entry>, hi: nat): nat
    requires hi <= |log|
  {
    if hi == 0 then 0 else Opens(log, hi - 1) + if log[hi - 1].what.Connecting? then 1 else 0
  }

  lemma {:induction false} QuietOpens(log: seq<Entry>, j: nat)
    requires Read(log).Some? && j <= |log|
    ensures Before(log, j).opens == Opens(log, j)
    ensures (forall i: nat | i < j :: !RetryAt(log, i) && !StableAt(log, i)) ==> Before(log, j).quiet
    decreases j
  {
    if j == 0 {
      assert log[..0] == [];
    } else {
      Advance(log, j - 1);
      StableIff(log, j - 1);
      QuietOpens(log, j - 1);
    }
  }

  /** While neither a Retry nor a stable connection occurred, every open but one under way has had its delay. */
  predicate OnSchedule(g: Gauge) {
    if g.phase.Ready? then g.failures == g.opens && Sum(g.opens) <= g.phase.from
    else if g.phase.AwaitingUser? then true
    else g.failures + 1 == g.opens && Sum(g.failures) <= g.at
  }

  lemma StaysOnSchedule(g: Gauge, e: Entry)
    requires OnSchedule(g) && Allowed(g, e) && Next(g, e).quiet
    ensures OnSchedule(Next(g, e))
  {
    if e.what.Retrying? {
      DelayIsCappedPowerOfTwo(g.failures);
    }
  }

  lemma {:induction false} QuietIsOnSchedule(log: seq<Entry>, j: nat)
    requires Read(log).Some? && j <= |log| && Before(log, j).quiet
    ensures OnSchedule(Before(log, j))
    decreases j
  {
    if j == 0 {
      assert log[..0] == [];
    } else {
      Advance(log, j - 1);
      QuietIsOnSchedule(log, j - 1);
      StaysOnSchedule(Before(log, j - 1), log[j - 1]);
    }
  }

  /** Without a Retry and a stable connection, an open never starts before the sum of all earlier delays. */
  lemma {:induction false} OpenNotBefore(log: seq<Entry>, j: nat)
    requires Read(log).Some? && j < |log| && log[j].what.Connecting?
    requires forall i: nat | i < j :: !RetryAt(log, i) && !StableAt(log, i)
    ensures log[j].at >= Sum(Opens(log, j))
  {
    Advance(log, j);
    QuietOpens(log, j);
    QuietIsOnSchedule(log, j);
  }

  /** Until a Retry is taken, the task keeps waiting: for the user, or for the time it may open again. */
  lemma {:induction false} KeepsWaiting(log: seq<Entry>, i: nat, j: nat)
    requires Read(log).Some? && i < j <= |log|
    requires log[i].what.NeedsUser? || log[i].what.Retrying?
    requires forall k: nat | i < k < j :: !RetryAt(log, k) && !log[k].what.Connecting?
    ensures Before(log, j).phase == if log[i].what.NeedsUser? then AwaitingUser else Ready(log[i].at + log[i].what.delay)
    decreases j
  {
    Advance(log, j - 1);
    if i < j - 1 {
      KeepsWaiting(log, i, j - 1);
    }
  }

  /** A problem that needs the user is never followed by an open unless a Retry was taken in between. */
  lemma {:induction false} NoAutomaticOpen(log: seq<Entry>, i: nat, j: nat)
    requires Read(log).Some? && i < j < |log| && log[i].what.NeedsUser? && log[j].what.Connecting?
    ensures exists k: nat :: i < k < j && RetryAt(log, k)
    decreases j
  {
    if forall k: nat | i < k < j :: !RetryAt(log, k) {
      if k: nat :| i < k < j && log[k].what.Connecting? {
        NoAutomaticOpen(log, i, k);
      } else {
        KeepsWaiting(log, i, j);
        Advance(log, j);
      }
    }
  }

  /** The next open after a failure waits for its delay, or for a Retry. */
  lemma {:induction false} OpenAfterDelay(log: seq<Entry>, i: nat, j: nat)
    requires Read(log).Some? && i < j < |log| && log[i].what.Retrying? && log[j].what.Connecting?
    requires forall k: nat | i < k < j :: !RetryAt(log, k) && !log[k].what.Connecting?
    ensures log[j].at >= log[i].at + log[i].what.delay
  {
    KeepsWaiting(log, i, j);
    Advance(log, j);
  }

  /** Every message taken is at once sent or reported dropped, and nothing else ever is. */
  lemma {:induction false} EachSendAnswered(log: seq<Entry>, i: nat, m: Message)
    requires Read(log).Some? && Read(log).value.owed.None? && i < |log|
    ensures log[i].what == Took(Send(m)) <==> i + 1 < |log| && Answers(log[i + 1].what, m)
  {
    Advance(log, i);
    if i + 1 < |log| {
      Advance(log, i + 1);
    } else {
      assert log[..i + 1] == log;
    }
  }
}
