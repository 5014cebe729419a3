/**
 The terminal task of one host: it owns the terminal connection, the open
 terminals and their PTYs, and keeps handling commands while a connect or an
 attach is under way.
 */
module Terminals {
  import opened Wrappers
  import opened Backoffs

  /** So many quick ends in a row end a terminal. */
  const MAX_QUICK_ENDS: nat := 3

  datatype OpenError = Retry(reason: string) | NeedsUser(problem: string)

  function ReasonOf(e: OpenError): string {
    match e
    case Retry(m) => m
    case NeedsUser(p) => p
  }

  datatype Spec = Spec(session: string, create: bool, size: nat)

  datatype Cmd =
    | Open(spec: Spec, reply: nat)
    | Input(id: nat, data: string)
    | Resize(id: nat, size: nat)
    | Close(id: nat)
    | RetryNow
    | Stop
    | HangUp // the command channel closed

  /** What the task sends to a PTY. */
  datatype PtyMsg = Data(data: string) | NewSize(size: nat) | Shut

  /** What a PTY's forwarder delivers; `Ended` carries the transport's `alive` answer. */
  datatype PtyOut = Bytes(data: string) | Exit(status: Option<nat>) | Ended(alive: bool)

  /** What the task sends to a terminal's owner, tagged with the PTY it is about. */
  datatype TermEvent =
    | Attached(pty: nat)
    | Output(pty: nat, data: string)
    | Detached(reason: string)
    | Exited(pty: nat, status: Option<nat>)

  /** Terminal connection state as reported to the monitor. */
  datatype Conn = ConnUp | Retrying(retryIn: nat, reason: string) | WaitsForUser(problem: string)

  datatype Answer = Opened(id: nat) | Failed(error: OpenError)

  datatype Slot = Slot(spec: Spec, pty: Option<nat>, generation: nat, attachedAt: nat, quickEnds: nat)

  datatype Link = Idle | Up | Busy | Down(at: Option<nat>, error: OpenError)

  /** A PTY that was attached: its forwarder's tag, what it was told and whether
      its sender was dropped without a `Shut`. `size` is the last size it was told. */
  datatype Pty = Pty(id: nat, generation: nat, size: nat, sent: seq<PtyMsg>, dropped: bool) {
    predicate Closed() { sent != [] && sent[|sent| - 1].Shut? }
    predicate Live() { !dropped && !Closed() }
    /** `Shut` is the last thing a PTY hears. */
    predicate ShutIsLast() { forall i | 0 <= i < |sent| - 1 :: !sent[i].Shut? }
  }

  /** One suspension point: the commands handled while waiting, then the outcome. */
  datatype Await = Await(cmds: seq<Cmd>, elapsed: nat, outcome: Result<(), OpenError>)

  /** What the select at the loop head yields. */
  datatype Head = Command(cmd: Cmd) | FromPty(pty: nat, out: PtyOut) | Timer

  /** One select: how long it waits and what it yields. */
  datatype Yield = Yield(after: nat, head: Head)

  // ---- the event stream of one terminal ----

  /** `b` may come directly after `a`: output and exit only while attached and only
      from the PTY of the latest attach; nothing after an exit. */
  predicate Follows(a: TermEvent, b: TermEvent) {
    match a
    case Attached(p) => b.Detached? || ((b.Output? || b.Exited?) && b.pty == p)
    case Output(p, _) => b.Detached? || ((b.Output? || b.Exited?) && b.pty == p)
    case Detached(_) => b.Detached? || b.Attached?
    case Exited(_, _) => false
  }

  predicate Fits(s: seq<TermEvent>) {
    && (s != [] ==> s[0].Attached?)
    && forall i | 0 <= i < |s| - 1 :: Follows(s[i], s[i + 1])
  }

  /** The stream ends while attached to `p`. */
  predicate EndsAttached(s: seq<TermEvent>, p: nat) {
    && s != []
    && var e := s[|s| - 1]; (e.Attached? || e.Output?) && e.pty == p
  }

  predicate EndsDetached(s: seq<TermEvent>) { s != [] && s[|s| - 1].Detached? }

  /** The stream's last event agrees with whether the terminal has a PTY. */
  predicate EndsAs(s: seq<TermEvent>, pty: Option<nat>) {
    match pty
    case Some(p) => EndsAttached(s, p)
    case None => EndsDetached(s)
  }

  // ---- opens and their answers ----

  function Replies(pending: seq<(Spec, nat)>): seq<nat> { seq(|pending|, i requires 0 <= i < |pending| => pending[i].1) }

  function Tokens(answered: seq<(nat, Answer)>): seq<nat> { seq(|answered|, i requires 0 <= i < |answered| => answered[i].0) }

  // ---- terminals, PTYs and events together ----

  /** The terminals, every PTY ever attached (numbered in that order), the events
      sent to each terminal and the next terminal id. */
  datatype World = World(slots: map<nat, Slot>, ptys: seq<Pty>, streams: map<nat, seq<TermEvent>>, nextId: nat) {
    function Stream(id: nat): seq<TermEvent> { if id in streams then streams[id] else [] }

    predicate Holds(id: nat) { id in slots && slots[id].pty.Some? && slots[id].pty.value < |ptys| }

    function Send(id: nat, ev: TermEvent): World { this.(streams := streams[id := Stream(id) + [ev]]) }

    function Tell(p: nat, msg: PtyMsg): World
      requires p < |ptys|
    {
      this.(ptys := ptys[p := ptys[p].(sent := ptys[p].sent + [msg],
                                       size := if msg.NewSize? then msg.size else ptys[p].size)])
    }

    /** Drop the sender of `id`'s PTY, if it has one. */
    function DropPty(id: nat): World
      requires id in slots
    {
      if Holds(id) then this.(ptys := ptys[slots[id].pty.value := ptys[slots[id].pty.value].(dropped := true)]) else this
    }

    // The things that happen to terminals.

    function Typed(id: nat, data: string): World {
      if Holds(id) then Tell(slots[id].pty.value, Data(data)) else this
    }

    function Resized(id: nat, size: nat): World {
      if id !in slots then this else
        var w := this.(slots := slots[id := slots[id].(spec := slots[id].spec.(size := size))]);
        if Holds(id) then w.Tell(slots[id].pty.value, NewSize(size)) else w
    }

    function Closed(id: nat): World {
      if id !in slots then this else
        (if Holds(id) then Tell(slots[id].pty.value, Shut) else this).(slots := slots - {id})
    }

    function Lost(id: nat, reason: string): World
      requires id in slots
    {
      DropPty(id).(slots := slots[id := slots[id].(pty := None)]).Send(id, Detached(reason))
    }

    function Counted(id: nat, quickEnds: nat): World
      requires id in slots
    {
      this.(slots := slots[id := slots[id].(quickEnds := quickEnds)])
    }

    function Ended(id: nat, status: Option<nat>): World
      requires Holds(id)
    {
      DropPty(id).(slots := slots - {id}).Send(id, Exited(slots[id].pty.value, status))
    }

    function Spawned(id: nat, generation: nat, size: nat): World {
      this.(ptys := ptys + [Pty(id, generation, size, [], false)])
    }

    /** The PTY an attach returned goes to the terminal, or is closed if that is gone. */
    function Bound(id: nat, generation: nat, p: nat, now: nat): World
      requires p < |ptys|
    {
      if id in slots
      then this.(slots := slots[id := slots[id].(pty := Some(p), generation := generation, attachedAt := now)])
               .Send(id, Attached(p))
      else Tell(p, Shut)
    }

    function Inserted(id: nat, spec: Spec, p: nat, now: nat): World {
      this.(slots := slots[id := Slot(spec, Some(p), 0, now, 0)]).Send(id, Attached(p))
    }

    // Invariants.

    /** Every terminal's events fit the grammar and end as its slot says. */
    ghost predicate StreamsOk() {
      && (forall id | id in streams :: id < nextId && Fits(streams[id]))
      && (forall id | id in slots :: id in streams && EndsAs(streams[id], slots[id].pty))
    }

    /** A slot's PTY is live and carries the slot's tag. */
    ghost predicate HeldOk() {
      forall id | id in slots && slots[id].pty.Some? :: HasLivePty(id, slots[id])
    }

    ghost predicate HasLivePty(id: nat, slot: Slot)
      requires slot.pty.Some?
    {
      var p := slot.pty.value;
      p < |ptys| && ptys[p].id == id && ptys[p].generation == slot.generation && ptys[p].Live()
    }

    /** A live PTY is held by the terminal it was attached for, except the one
        an attach has just returned. */
    ghost predicate NoneLost(inFlight: Option<nat>) {
      forall p | 0 <= p < |ptys| ::
        && ptys[p].ShutIsLast()
        && !(ptys[p].Closed() && ptys[p].dropped)
        && (ptys[p].Live() && Some(p) != inFlight ==>
              ptys[p].id in slots && slots[ptys[p].id].pty == Some(p))
    }

    /** No two forwarders share a tag, and tags never run ahead of their slot. */
    ghost predicate TagsOk(inFlight: Option<nat>) {
      && (forall p, q | 0 <= p < q < |ptys| ::
            !(ptys[p].id == ptys[q].id && ptys[p].generation == ptys[q].generation))
      && (forall p | 0 <= p < |ptys| ::
            && ptys[p].id < nextId
            && (ptys[p].id in slots && Some(p) != inFlight ==>
                  ptys[p].generation <= slots[ptys[p].id].generation))
    }

    ghost predicate Ok(inFlight: Option<nat>) {
      StreamsOk() && HeldOk() && NoneLost(inFlight) && TagsOk(inFlight)
    }

    ghost predicate AllAttached() { forall id | id in slots :: slots[id].pty.Some? }

    ghost predicate AllDetached() { forall id | id in slots :: slots[id].pty.None? }

    // Each of these things keeps the invariant.

    /** Tags stay unique when forwarders keep theirs and terminals only go away. */
    lemma TagsKept(w: World)
      requires TagsOk(None) && w.nextId == nextId && |w.ptys| == |ptys|
      requires forall p | 0 <= p < |ptys| :: w.ptys[p].id == ptys[p].id && w.ptys[p].generation == ptys[p].generation
      requires forall id | id in w.slots :: id in slots && w.slots[id].generation == slots[id].generation
      ensures w.TagsOk(None)
    {
    }

    /** A held PTY that is told something else than `Shut` stays held. */
    lemma ToldKeeps(w: World, id: nat, msg: PtyMsg)
      requires HeldOk() && NoneLost(None) && !msg.Shut?
      requires w.ptys == (if Holds(id) then Tell(slots[id].pty.value, msg) else this).ptys
      requires w.slots.Keys == slots.Keys
      requires forall k | k in slots :: w.slots[k].pty == slots[k].pty && w.slots[k].generation == slots[k].generation
      ensures w.HeldOk() && w.NoneLost(None)
    {
      forall p | 0 <= p < |ptys|
        ensures w.ptys[p].id == ptys[p].id && w.ptys[p].generation == ptys[p].generation
        ensures w.ptys[p].Live() == ptys[p].Live() && w.ptys[p].ShutIsLast()
      {
      }
    }

    /** A terminal that lets go of its PTY leaves it closed or dropped. */
    lemma ReleasedKeeps(w: World, id: nat)
      requires HeldOk() && NoneLost(None) && id in slots
      requires w.ptys == DropPty(id).ptys || w.ptys == (if Holds(id) then Tell(slots[id].pty.value, Shut) else this).ptys
      requires forall k | k != id :: (k in w.slots <==> k in slots) && (k in slots ==> w.slots[k] == slots[k])
      requires id in w.slots ==> w.slots[id].pty.None?
      ensures w.HeldOk() && w.NoneLost(None)
    {
      forall p | 0 <= p < |ptys|
        ensures w.ptys[p] == ptys[p] || (slots[id].pty == Some(p) && !w.ptys[p].Live() && w.ptys[p].ShutIsLast()
                                         && !(w.ptys[p].Closed() && w.ptys[p].dropped))
      {
      }
      forall k | k in w.slots && w.slots[k].pty.Some?
        ensures w.HasLivePty(k, w.slots[k])
      {
        assert k in slots && HasLivePty(k, slots[k]);
        assert slots[id].pty != slots[k].pty by {
          assert slots[id].pty.Some? ==> HasLivePty(id, slots[id]);
        }
      }
    }

    /** One more event for a terminal, which then is as that event says. */
    lemma ExtendedKeeps(w: World, id: nat, ev: TermEvent)
      requires StreamsOk() && w.nextId == nextId && id in streams && streams[id] != []
      requires w.streams == streams[id := streams[id] + [ev]]
      requires Follows(streams[id][|streams[id]| - 1], ev)
      requires forall k | k in w.slots :: k in slots && (k != id ==> w.slots[k] == slots[k])
      requires id in w.slots ==> EndsAs([ev], w.slots[id].pty)
      ensures w.StreamsOk()
    {
    }

    lemma TypedKeeps(id: nat, data: string)
      requires Ok(None)
      ensures Typed(id, data).Ok(None)
    {
      ToldKeeps(Typed(id, data), id, Data(data));
      TagsKept(Typed(id, data));
    }

    lemma ResizedKeeps(id: nat, size: nat)
      requires Ok(None)
      ensures Resized(id, size).Ok(None)
    {
      if id in slots {
        ToldKeeps(Resized(id, size), id, NewSize(size));
        TagsKept(Resized(id, size));
      }
    }

    lemma ClosedKeeps(id: nat)
      requires Ok(None)
      ensures Closed(id).Ok(None)
    {
      if id in slots {
        ReleasedKeeps(Closed(id), id);
        TagsKept(Closed(id));
      }
    }

    lemma LostKeeps(id: nat, reason: string)
      requires Ok(None) && id in slots
      ensures Lost(id, reason).Ok(None)
    {
      ReleasedKeeps(Lost(id, reason), id);
      TagsKept(Lost(id, reason));
      assert EndsAs(streams[id], slots[id].pty);
      ExtendedKeeps(Lost(id, reason), id, Detached(reason));
    }

    lemma EndedKeeps(id: nat, status: Option<nat>)
      requires Ok(None) && Holds(id)
      ensures Ended(id, status).Ok(None)
    {
      ReleasedKeeps(Ended(id, status), id);
      TagsKept(Ended(id, status));
      assert EndsAs(streams[id], slots[id].pty);
      ExtendedKeeps(Ended(id, status), id, Exited(slots[id].pty.value, status));
    }

    lemma CountedKeeps(id: nat, quickEnds: nat)
      requires Ok(None) && id in slots
      ensures Counted(id, quickEnds).Ok(None)
    {
      TagsKept(Counted(id, quickEnds));
    }

    /** A tag is fresh when its id is, or when it is ahead of its slot's generation. */
    ghost predicate FreshTag(id: nat, generation: nat) {
      id < nextId && forall p | 0 <= p < |ptys| :: !(ptys[p].id == id && ptys[p].generation >= generation)
    }

    lemma SpawnedKeeps(id: nat, generation: nat, size: nat)
      requires Ok(None) && FreshTag(id, generation)
      ensures Spawned(id, generation, size).Ok(Some(|ptys|))
    {
    }

    /** The PTY just attached is in the hands of a terminal that had none. */
    lemma TakenKeeps(w: World, id: nat, p: nat)
      requires HeldOk() && NoneLost(Some(p)) && TagsOk(Some(p)) && p < |ptys| && ptys[p].Live() && ptys[p].id == id
      requires w.ptys == ptys && w.nextId == nextId
      requires id in w.slots && w.slots[id].pty == Some(p) && w.slots[id].generation == ptys[p].generation
      requires forall k | k != id :: (k in w.slots <==> k in slots) && (k in slots ==> w.slots[k] == slots[k])
      requires id in slots ==> slots[id].pty.None?
      requires forall q | 0 <= q < |ptys| && ptys[q].id == id :: ptys[q].generation <= ptys[p].generation
      ensures w.HeldOk() && w.NoneLost(None) && w.TagsOk(None)
    {
    }

    /** Closing a PTY whose terminal is gone accounts for it. */
    lemma OrphanClosed(id: nat, p: nat)
      requires HeldOk() && NoneLost(Some(p)) && TagsOk(Some(p)) && p < |ptys| && ptys[p].Live() && ptys[p].id == id
      requires id !in slots
      ensures Tell(p, Shut).HeldOk() && Tell(p, Shut).NoneLost(None) && Tell(p, Shut).TagsOk(None)
    {
      assert Tell(p, Shut).ptys[p].Closed() && Tell(p, Shut).ptys[p].ShutIsLast();
    }

    lemma BoundKeeps(id: nat, generation: nat, p: nat, now: nat)
      requires Ok(Some(p)) && p < |ptys| && ptys[p].Live() && ptys[p].id == id && ptys[p].generation == generation
      requires id in slots ==> slots[id].pty.None? && slots[id].generation < generation
      ensures Bound(id, generation, p, now).Ok(None)
    {
      var w := Bound(id, generation, p, now);
      if id in slots {
        TakenKeeps(w, id, p);
        assert EndsAs(streams[id], slots[id].pty);
        ExtendedKeeps(w, id, Attached(p));
      } else {
        OrphanClosed(id, p);
      }
    }

    lemma InsertedKeeps(id: nat, spec: Spec, p: nat, now: nat)
      requires Ok(Some(p)) && p < |ptys| && ptys[p].Live() && ptys[p].id == id && ptys[p].generation == 0
      requires id !in slots && id < nextId && id !in streams
      requires forall q | 0 <= q < |ptys| && q != p :: ptys[q].id != id
      ensures Inserted(id, spec, p, now).Ok(None)
    {
      TakenKeeps(Inserted(id, spec, p, now), id, p);
    }

    lemma NumberedKeeps()
      requires Ok(None)
      ensures this.(nextId := nextId + 1).Ok(None)
      ensures this.(nextId := nextId + 1).FreshTag(nextId, 0) && nextId !in slots && nextId !in streams
    {
    }

    /** The next generation of a terminal is a fresh tag. */
    lemma NextTagIsFresh(id: nat)
      requires Ok(None) && id in slots
      ensures FreshTag(id, slots[id].generation + 1)
    {
    }

    /** A tag that matches a terminal's current attach names its PTY. */
    lemma TagNamesPty(id: nat, p: nat)
      requires Ok(None) && p < |ptys| && id in slots && slots[id].pty.Some?
      requires ptys[p].id == id && ptys[p].generation == slots[id].generation
      ensures slots[id].pty == Some(p)
    {
      assert HasLivePty(id, slots[id]);
    }

    /** `id` is a terminal for `spec` that was attached and heard nothing else yet. */
    predicate IsNew(id: nat, spec: Spec) {
      && id in slots && slots[id].spec == spec && slots[id].pty.Some? && slots[id].quickEnds == 0
      && id in streams && streams[id] == [Attached(slots[id].pty.value)]
    }

    /** The forwarder of `p` belongs to a terminal's current attach. */
    predicate Current(p: nat)
      requires p < |ptys|
    {
      ptys[p].id in slots && slots[ptys[p].id].generation == ptys[p].generation && slots[ptys[p].id].pty.Some?
    }

    /** What a terminal holds is a PTY of its current attach. */
    lemma HeldPty(id: nat)
      requires Ok(None) && id in slots && slots[id].pty.Some?
      ensures Holds(id) && Current(slots[id].pty.value) && ptys[slots[id].pty.value].id == id
    {
      assert HasLivePty(id, slots[id]);
    }

    /** While closing: only terminals in `todo` still have a live PTY. */
    ghost predicate OpenOnlyIn(todo: set<nat>) {
      && todo <= slots.Keys
      && (forall id | id in todo && slots[id].pty.Some? :: HasLivePty(id, slots[id]))
      && (forall p | 0 <= p < |ptys| ::
            ptys[p].ShutIsLast() && (ptys[p].Live() ==> ptys[p].id in todo && slots[ptys[p].id].pty == Some(p)))
    }

    lemma ShutKeeps(todo: set<nat>, id: nat)
      requires OpenOnlyIn(todo) && id in todo
      ensures slots[id].pty.Some? ==> slots[id].pty.value < |ptys|
      ensures (if slots[id].pty.Some? then Tell(slots[id].pty.value, Shut) else this).OpenOnlyIn(todo - {id})
    {
      if slots[id].pty.Some? {
        assert HasLivePty(id, slots[id]);
        var p := slots[id].pty.value;
        assert Tell(p, Shut).ptys[p].Closed() && Tell(p, Shut).ptys[p].ShutIsLast();
      }
    }

    /** What an await may do to terminals and PTYs: terminals are only resized or
        closed, and known forwarders keep their tags. */
    ghost predicate Waited(w: World) {
      && w.streams == streams && w.nextId == nextId && |ptys| <= |w.ptys|
      && (forall id | id in w.slots :: id in slots && w.slots[id].(spec := slots[id].spec) == slots[id])
      && (forall p | 0 <= p < |ptys| :: w.ptys[p].id == ptys[p].id && w.ptys[p].generation == ptys[p].generation)
    }

    // What commands do to terminals and PTYs alone.

    function AfterLocal(cmd: Cmd): World {
      match cmd
      case Input(id, data) => Typed(id, data)
      case Resize(id, size) => Resized(id, size)
      case Close(id) => Closed(id)
      case _ => this
    }

    function AfterAll(cmds: seq<Cmd>): World
    {
      if cmds == [] then this else AfterAll(cmds[..|cmds| - 1]).AfterLocal(cmds[|cmds| - 1])
    }

    lemma AfterLocalWaits(cmd: Cmd)
      ensures Waited(AfterLocal(cmd)) && |AfterLocal(cmd).ptys| == |ptys|
    {
    }

    lemma AfterLocalKeeps(cmd: Cmd)
      requires Ok(None)
      ensures AfterLocal(cmd).Ok(None)
    {
      match cmd
      case Input(id, data) => TypedKeeps(id, data);
      case Resize(id, size) => ResizedKeeps(id, size);
      case Close(id) => ClosedKeeps(id);
      case _ =>
    }

    lemma {:induction false} AfterAllSize(cmds: seq<Cmd>, id: nat)
      requires id in AfterAll(cmds).slots
      ensures id in slots && AfterAll(cmds).slots[id].spec.size == LastSize(cmds, id, slots[id].spec.size)
      decreases |cmds|
    {
      if cmds != [] {
        AfterAll(cmds[..|cmds| - 1]).AfterLocalWaits(cmds[|cmds| - 1]);
        AfterAllSize(cmds[..|cmds| - 1], id);
      }
    }

    /** Over any commands a PTY that a terminal holds hears exactly that terminal's inputs, resizes and
        close, in order, and every other PTY hears nothing; terminals go away exactly by a close. */
    lemma {:induction false} PtyHears(cmds: seq<Cmd>, p: nat)
      requires Ok(None) && p < |ptys|
      ensures
        var w, id := AfterAll(cmds), ptys[p].id;
        && |w.ptys| == |ptys|
        && w.ptys[p].sent == ptys[p].sent + if id in slots && slots[id].pty == Some(p) then Hears(cmds, id) else []
      ensures forall id :: id in AfterAll(cmds).slots <==> id in slots && Close(id) !in cmds
      decreases |cmds|
    {
      hide Ok, Waited, AfterLocal;
      AfterAllKeeps(cmds);
      if cmds != [] {
        var before, cmd := cmds[..|cmds| - 1], cmds[|cmds| - 1];
        PtyHears(before, p);
        AfterAllKeeps(before);
        AfterAllHolds(before, p);
        AfterAll(before).LocalIsHeard(cmd, p);
        assert cmds == before + [cmd];
      }
    }

    /** Waiting moves no PTY from one terminal to another. */
    lemma {:induction false} AfterAllHolds(cmds: seq<Cmd>, p: nat)
      requires Ok(None) && p < |ptys|
      ensures
        var w := AfterAll(cmds);
        && |w.ptys| == |ptys| && w.ptys[p].id == ptys[p].id
        && forall id | id in w.slots :: id in slots && w.slots[id].pty == slots[id].pty
    {
      hide Ok;
      AfterAllKeeps(cmds);
    }

    /** What one command does to one PTY, and to the terminals. */
    lemma {:induction false} LocalIsHeard(cmd: Cmd, p: nat)
      requires Ok(None) && p < |ptys|
      ensures
        var w, id := AfterLocal(cmd), ptys[p].id;
        var heard :=
          if id !in slots || slots[id].pty != Some(p) then []
          else if cmd.Input? && cmd.id == id then [Data(cmd.data)]
          else if cmd.Resize? && cmd.id == id then [NewSize(cmd.size)]
          else if cmd == Close(id) then [Shut]
          else [];
        |w.ptys| == |ptys| && w.ptys[p].sent == ptys[p].sent + heard && w.ptys[p].dropped == ptys[p].dropped
      ensures forall id :: id in AfterLocal(cmd).slots <==> id in slots && cmd != Close(id)
      ensures forall k | k in AfterLocal(cmd).slots && k in slots ::
        AfterLocal(cmd).slots[k] ==
        if cmd.Resize? && cmd.id == k then slots[k].(spec := slots[k].spec.(size := cmd.size)) else slots[k]
      ensures AfterLocal(cmd).streams == streams && AfterLocal(cmd).nextId == nextId
    {
      hide StreamsOk, NoneLost, TagsOk;
      if (cmd.Input? || cmd.Resize? || cmd.Close?) && cmd.id in slots && slots[cmd.id].pty.Some? {
        assert HasLivePty(cmd.id, slots[cmd.id]);
      }
    }

    // What else happens to a terminal, field by field.

    lemma LostTells(id: nat, reason: string)
      requires Ok(None) && id in slots
      ensures
        var w := Lost(id, reason);
        && w.slots == slots[id := slots[id].(pty := None)] && w.nextId == nextId
        && w.streams == streams[id := streams[id] + [Detached(reason)]]
        && |w.ptys| == |ptys|
        && forall p | 0 <= p < |ptys| :: w.ptys[p] == if slots[id].pty == Some(p) then ptys[p].(dropped := true) else ptys[p]
    {
    }

    lemma EndedTells(id: nat, status: Option<nat>)
      requires Ok(None) && Holds(id)
      ensures
        var w := Ended(id, status);
        && w.slots == slots - {id} && w.nextId == nextId
        && w.streams == streams[id := streams[id] + [Exited(slots[id].pty.value, status)]]
        && |w.ptys| == |ptys|
        && forall p | 0 <= p < |ptys| :: w.ptys[p] == if slots[id].pty == Some(p) then ptys[p].(dropped := true) else ptys[p]
    {
    }

    /** A quick end is counted, and the count starts anew after a stable attach. */
    lemma CountedTells(id: nat, quickEnds: nat)
      requires id in slots
      ensures
        var w := Counted(id, quickEnds);
        && w.slots.Keys == slots.Keys && w.slots[id].quickEnds == quickEnds && w.slots[id].(quickEnds := slots[id].quickEnds) == slots[id]
        && (forall k | k in slots && k != id :: w.slots[k] == slots[k]) && w.(slots := slots) == this
    {
    }

    /** A PTY that an attach returned: told nothing yet, then held and announced, or closed. */
    lemma BoundTells(id: nat, generation: nat, size: nat, now: nat)
      ensures
        var p, w := |ptys|, Spawned(id, generation, size).Bound(id, generation, |ptys|, now);
        && |w.ptys| == p + 1 && w.ptys[..p] == ptys && w.nextId == nextId
        && if id in slots
           then
             && w.ptys[p] == Pty(id, generation, size, [], false)
             && w.slots == slots[id := slots[id].(pty := Some(p), generation := generation, attachedAt := now)]
             && w.streams == streams[id := Stream(id) + [Attached(p)]]
           else w.ptys[p] == Pty(id, generation, size, [Shut], false) && w.slots == slots && w.streams == streams
    {
    }

    /** What attaching `id` again leads to when `cmds` are handled meanwhile. */
    function Reattached(id: nat, cmds: seq<Cmd>, now: nat): World
      requires id in slots && |AfterAll(cmds).ptys| == |ptys|
    {
      var generation := slots[id].generation + 1;
      AfterAll(cmds).Spawned(id, generation, slots[id].spec.size).Bound(id, generation, |ptys|, now)
    }

    /** A terminal attached again has a PTY of its own size if and only if the last resize handled
        meanwhile, if any, was to the size it had before. */
    lemma {:induction false} SizesAgreeIff(id: nat, cmds: seq<Cmd>, now: nat)
      requires id in slots && |AfterAll(cmds).ptys| == |ptys|
      ensures
        var w := Reattached(id, cmds, now);
        && |w.ptys| == |ptys| + 1
        && (id in w.slots <==> id in AfterAll(cmds).slots)
        && (id in w.slots ==>
              && w.slots[id].pty == Some(|ptys|)
              && (w.slots[id].spec.size == w.ptys[|ptys|].size <==>
                  LastSize(cmds, id, slots[id].spec.size) == slots[id].spec.size))
    {
      if id in AfterAll(cmds).slots {
        AfterAllSize(cmds, id);
      }
    }

    lemma {:induction false} AfterAllKeeps(cmds: seq<Cmd>)
      requires Ok(None)
      ensures AfterAll(cmds).Ok(None) && Waited(AfterAll(cmds)) && |AfterAll(cmds).ptys| == |ptys|
      decreases |cmds|
    {
      if cmds != [] {
        AfterAllKeeps(cmds[..|cmds| - 1]);
        AfterAll(cmds[..|cmds| - 1]).AfterLocalKeeps(cmds[|cmds| - 1]);
        AfterAll(cmds[..|cmds| - 1]).AfterLocalWaits(cmds[|cmds| - 1]);
      }
    }
  }

  /** What the PTY of terminal `id` hears of `cmds`: nothing after its close. */
  function Hears(cmds: seq<Cmd>, id: nat): seq<PtyMsg> {
    if cmds == [] then []
    else
      var before, cmd := cmds[..|cmds| - 1], cmds[|cmds| - 1];
      Hears(before, id) +
      if Close(id) in before then []
      else if cmd.Input? && cmd.id == id then [Data(cmd.data)]
      else if cmd.Resize? && cmd.id == id then [NewSize(cmd.size)]
      else if cmd == Close(id) then [Shut]
      else []
  }

  /** The size of terminal `id` after `cmds`: that of the last resize, if any. */
  function LastSize(cmds: seq<Cmd>, id: nat, size: nat): nat {
    if cmds == [] then size
    else
      var cmd := cmds[|cmds| - 1];
      if cmd.Resize? && cmd.id == id then cmd.size else LastSize(cmds[..|cmds| - 1], id, size)
  }

  /** A terminal's events once every terminal but those in `todo` was told of its detach. */
  function Told(w: World, reason: string, id: nat, todo: set<nat>): seq<TermEvent> {
    if id in w.slots && id !in todo then w.Stream(id) + [Detached(reason)] else w.Stream(id)
  }

  /** Only this much of the task matters to what a step comes to. */
  datatype State = State(w: World, link: Link, backoff: Backoff, awaited: nat, answered: seq<(nat, Answer)>)

  /** Every terminal of `was` but those in `todo` has lost its PTY and been told so. */
  ghost predicate AllTold(was: World, w: World, reason: string, todo: set<nat>) {
    && w.slots.Keys == was.slots.Keys && |w.ptys| == |was.ptys| && w.nextId == was.nextId
    && (forall id | id in w.slots :: w.slots[id] == if id in todo then was.slots[id] else was.slots[id].(pty := None))
    && forall id :: w.Stream(id) == Told(was, reason, id, todo)
  }

  lemma TellOne(was: World, w: World, reason: string, todo: set<nat>, id: nat)
    requires AllTold(was, w, reason, todo) && id in todo && todo <= was.slots.Keys
    ensures AllTold(was, w.Lost(id, reason), reason, todo - {id})
  {
    var v := w.Lost(id, reason);
    forall k
      ensures v.Stream(k) == Told(was, reason, k, todo - {id})
    {
      assert w.Stream(k) == Told(was, reason, k, todo);
    }
  }

  predicate Ends(cmd: Cmd) { cmd.Stop? || cmd.HangUp? }

  /** The commands an await handles: those before the first that ends the task. */
  function Handled(cmds: seq<Cmd>): seq<Cmd> {
    if cmds == [] || Ends(cmds[0]) then [] else [cmds[0]] + Handled(cmds[1..])
  }

  function Opens(cmds: seq<Cmd>): seq<(Spec, nat)>
  {
    if cmds == [] then []
    else Opens(cmds[..|cmds| - 1]) +
         (if cmds[|cmds| - 1].Open? then [(cmds[|cmds| - 1].spec, cmds[|cmds| - 1].reply)] else [])
  }

  /** Every open among the commands is queued, in order. */
  lemma {:induction false} OpenIsQueued(cmds: seq<Cmd>, i: nat)
    requires i < |cmds| && cmds[i].Open?
    ensures |Opens(cmds[..i])| < |Opens(cmds)| && Opens(cmds)[|Opens(cmds[..i])|] == (cmds[i].spec, cmds[i].reply)
    decreases |cmds|
  {
    if i < |cmds| - 1 {
      OpenIsQueued(cmds[..|cmds| - 1], i);
      assert cmds[..|cmds| - 1][..i] == cmds[..i];
    }
  }

  lemma {:induction false} HandledPrefix(cmds: seq<Cmd>, n: nat)
    requires n <= |cmds| && forall i | 0 <= i < n :: !Ends(cmds[i])
    requires n == |cmds| || Ends(cmds[n])
    ensures Handled(cmds) == cmds[..n]
    decreases n
  {
    if n != 0 {
      HandledPrefix(cmds[1..], n - 1);
    }
  }

  // ---- what the invariants mean ----

  /** Between two steps a PTY ever attached is held by exactly one terminal, or was
      closed, or belongs to an attach that ended; never two of these. */
  lemma EveryPtyAccountedFor(w: World, p: nat)
    requires w.Ok(None) && p < |w.ptys|
    ensures (exists id :: id in w.slots && w.slots[id].pty == Some(p)) <==> w.ptys[p].Live()
    ensures forall a, b | a in w.slots && b in w.slots && w.slots[a].pty == Some(p) && w.slots[b].pty == Some(p) :: a == b
    ensures !(w.ptys[p].Closed() && w.ptys[p].dropped)
  {
    forall a | a in w.slots && w.slots[a].pty == Some(p)
      ensures w.ptys[p].Live() && w.ptys[p].id == a
    {
      assert w.HasLivePty(a, w.slots[a]);
    }
  }

  /** Output comes from the PTY of the latest attach: nothing but its output lies between. */
  lemma {:induction false} OutputIsFromLatestAttach(s: seq<TermEvent>, i: nat) returns (j: nat)
    requires Fits(s) && i < |s| && (s[i].Output? || s[i].Exited?)
    ensures j < i && s[j] == Attached(s[i].pty)
    ensures forall k | j < k < i :: s[k].Output? && s[k].pty == s[i].pty
    decreases i
  {
    assert Follows(s[i - 1], s[i]);
    if s[i - 1].Attached? {
      j := i - 1;
    } else {
      j := OutputIsFromLatestAttach(s, i - 1);
    }
  }

  /** Nothing follows an exit, and a terminal is attached again only after a detach. */
  lemma StreamShape(s: seq<TermEvent>, i: nat)
    requires Fits(s) && i < |s|
    ensures s[i].Exited? ==> i == |s| - 1
    ensures s[i].Attached? ==> i == 0 || s[i - 1].Detached?
    ensures s[0].Attached? && (s[i].Detached? ==> i > 0)
  {
    assert i > 0 ==> Follows(s[i - 1], s[i]);
    assert i < |s| - 1 ==> Follows(s[i], s[i + 1]);
  }

  class Terms {
    const awaits: nat -> Await
    var awaited: nat
    var now: nat

    var link: Link
    /** The terminals (`slots`, `nextId`) and what was sent to them and their PTYs. */
    var w: World
    var pending: seq<(Spec, nat)>
    var backoff: Backoff
    var upSince: Option<nat>

    // What the task has received and answered so far.
    var conn: seq<Option<Conn>>
    var taken: seq<nat>
    var answered: seq<(nat, Answer)>
    /** How often `Attach` found the connection down. */
    var refused: nat

    constructor (awaits: nat -> Await)
      ensures AtHead() && refused == 0 && w == World(map[], [], map[], 1) && pending == []
      ensures taken == [] && answered == [] && this.awaits == awaits
    {
      this.awaits := awaits;
      awaited, now := 0, 0;
      link, pending, backoff, upSince := Idle, [], FRESH, None;
      w := World(map[], [], map[], 1);
      conn, taken, answered, refused := [], [], [], 0;
    }

    // ---- invariants ----

    /** Opens were answered in the order they were taken; `current` is being opened. */
    ghost predicate Ordered(current: seq<nat>)
      reads `taken, `answered, `pending
    {
      taken == Tokens(answered) + current + Replies(pending)
    }

    /** What each state of the connection means between two loop iterations. */
    ghost predicate LinkOk()
      reads `link, `w, `upSince
    {
      match link
      case Idle => w.slots == map[] && upSince.None?
      case Up => w.slots != map[] && w.AllAttached() && upSince.Some?
      case Busy => false
      case Down(at, error) => w.slots != map[] && w.AllDetached() && upSince.None? && (at.Some? <==> error.Retry?)
    }

    /** The monitor was last told the state the connection is in. */
    ghost predicate Reported()
      reads `link, `conn
    {
      match link
      case Idle => conn == [] || conn[|conn| - 1] == None
      case Up => conn != [] && conn[|conn| - 1] == Some(ConnUp)
      case Busy => true
      case Down(_, Retry(m)) => conn != [] && conn[|conn| - 1].Some? &&
        conn[|conn| - 1].value.Retrying? && conn[|conn| - 1].value.reason == m
      case Down(_, NeedsUser(p)) => conn != [] && conn[|conn| - 1] == Some(WaitsForUser(p))
    }

    /** Holds between two steps of the task, apart from the open under way. */
    ghost predicate Settled(current: seq<nat>)
      reads this
    {
      w.Ok(None) && Ordered(current) && LinkOk() && Reported()
    }

    /** Holds at every loop head. */
    ghost predicate AtHead()
      reads this
    {
      Settled([])
    }

    /** After the task ended: every terminal's events fit, every PTY was closed or its
        attach had ended, and opens were answered in the order they were taken. */
    ghost predicate Finished()
      reads this
    {
      && (forall id :: Fits(w.Stream(id)))
      && (forall p | 0 <= p < |w.ptys| :: !w.ptys[p].Live() && w.ptys[p].ShutIsLast())
      && Tokens(answered) <= taken
    }

    // ---- what a step comes to ----

    ghost function Here(): State
      reads `w, `link, `backoff, `awaited, `answered
    {
      State(w, link, backoff, awaited, answered)
    }

    /** How a reconnect ends: stopped, down again with the next delay or until the user acts, or
        with the terminals attached unless one of their attaches failed. */
    ghost predicate Reconnected(was: State, end: State, clock: nat, go: bool) {
      var k := was.awaited;
      end.awaited > k &&
      if StopsAt(k) then !go
      else
        match awaits(k).outcome
        case Err(Retry(m)) =>
          go && (end.w.slots != map[] ==>
                   end.link == Down(Some(clock + was.backoff.next), Retry(m)) && end.backoff == was.backoff.Advanced())
        case Err(NeedsUser(p)) => go && (end.w.slots != map[] ==> end.link == Down(None, NeedsUser(p)))
        case Ok(_) => if go then end.link.Down? ==> FailedIn(k + 1, end.awaited, end.link.error) else StoppedIn(k + 1, end.awaited)
    }

    /** How attaching `id` again during wait `k` ends. */
    ghost predicate Resumed(was: World, id: nat, k: nat, end: State, clock: nat, go: bool) {
      var waited := was.AfterAll(HandledAt(k));
      if StopsAt(k) then !go
      else if FailsAt(k) then
        && go && end.w.slots.Keys == waited.slots.Keys
        && (end.w.slots != map[] ==> end.link.Down? && end.link.error == Retry(ReasonOf(awaits(k).outcome.error)))
      else go && id in was.slots && |waited.ptys| == |was.ptys| && end.w == was.Reattached(id, HandledAt(k), clock)
    }

    /** What becomes of a terminal whose channel ended at `at`: the third quick end in a row exits it;
        else it is told of the detach and attached again, or the connection is lost over that. */
    ghost predicate Reopened(was: State, id: nat, at: nat, end: State, clock: nat, go: bool) {
      was.w.Holds(id) &&
      var slot := was.w.slots[id];
      var quickEnds := if at - slot.attachedAt < STABLE_AFTER then slot.quickEnds + 1 else 0;
      if quickEnds >= MAX_QUICK_ENDS then go && end.w == was.w.Ended(id, None)
      else Resumed(was.w.Counted(id, quickEnds).Lost(id, "terminal channel closed"), id, was.awaited, end, clock, go)
    }

    /** What `p` delivered reached its terminal; nothing happens for an earlier attach. */
    ghost predicate Delivered(was: State, p: nat, out: PtyOut, at: nat, end: State, clock: nat, go: bool) {
      p < |was.w.ptys| ==>
        var id := was.w.ptys[p].id;
        if !was.w.Current(p) then go && end == was
        else
          match out
          case Bytes(d) =>
            go && id in was.w.streams && end.w == was.w.(streams := was.w.streams[id := was.w.streams[id] + [Output(p, d)]])
          case Exit(status) => was.w.Holds(id) && go && end.w == was.w.Ended(id, status)
          case Ended(true) => Reopened(was, id, at, end, clock, go)
          case Ended(false) => go && end.link.Down? && AllTold(was.w, end.w, "connection lost", {})
    }

    /** One more open was answered, with the next terminal or because something failed. */
    ghost predicate Replied(was: State, spec: Spec, reply: nat, end: State) {
      && |end.answered| == |was.answered| + 1
      && end.answered[..|was.answered|] == was.answered
      && var (token, answer) := end.answered[|was.answered|];
      && token == reply
      && match answer
         case Opened(id) => end.w.IsNew(id, spec) && id == was.w.nextId
         case Failed(e) => FailedIn(was.awaited, end.awaited, e)
    }

    /** The command did what it is for. */
    ghost predicate Obeyed(was: State, cmd: Cmd, end: State, clock: nat, go: bool) {
      match cmd
      case Stop | HangUp => !go && end == was
      case Open(spec, reply) => go ==> Replied(was, spec, reply, end)
      case RetryNow => if was.link.Down? then Reconnected(was, end, clock, go) else go && end == was
      case _ => go && end.w == was.w.AfterLocal(cmd)
    }

    /** What the select yielded at `at` was done; the timer of a lost connection reconnects. */
    ghost predicate Yielded(was: State, head: Head, at: nat, end: State, clock: nat, go: bool) {
      match head
      case Command(cmd) => Obeyed(was, cmd, end, clock, go)
      case FromPty(p, out) => Delivered(was, p, out, at, end, clock, go)
      case Timer =>
        if was.link.Down? && was.link.at.Some? then clock >= was.link.at.value && Reconnected(was, end, clock, go)
        else go && end == was
    }

    // ---- commands and waiting ----

    /** The commands handled in the k-th wait. */
    ghost function HandledAt(k: nat): seq<Cmd> { Handled(awaits(k).cmds) }

    /** The k-th wait is told to stop. */
    ghost predicate StopsAt(k: nat) { HandledAt(k) != awaits(k).cmds }

    /** The connect or attach of the k-th wait fails. */
    ghost predicate FailsAt(k: nat) { awaits(k).outcome.Err? }

    ghost predicate StoppedIn(lo: nat, hi: nat) { exists k: nat :: lo <= k < hi && StopsAt(k) }

    /** ... for the reason that `e` gives. */
    ghost predicate FailsFor(k: nat, e: OpenError) { FailsAt(k) && ReasonOf(awaits(k).outcome.error) == ReasonOf(e) }

    ghost predicate FailedIn(lo: nat, hi: nat, e: OpenError) { exists k: nat :: lo <= k < hi && FailsFor(k, e) }

    lemma SameReason(lo: nat, hi: nat, e: OpenError, f: OpenError)
      requires FailedIn(lo, hi, e) && ReasonOf(e) == ReasonOf(f)
      ensures FailedIn(lo, hi, f)
    {
      var k: nat :| lo <= k < hi && FailsFor(k, e);
      assert FailsFor(k, f);
    }

    lemma OneStop(k: nat)
      requires StopsAt(k)
      ensures StoppedIn(k, k + 1)
    {
    }

    lemma StoppedLonger(lo: nat, hi: nat)
      requires StoppedIn(lo + 1, hi)
      ensures StoppedIn(lo, hi)
    {
    }

    lemma FailedLonger(lo: nat, hi: nat, e: OpenError)
      requires FailedIn(lo + 1, hi, e)
      ensures FailedIn(lo, hi, e)
    {
    }

    lemma OneFailure(k: nat, e: OpenError)
      requires FailsFor(k, e)
      ensures FailedIn(k, k + 1, e)
    {
    }

    /** What a command does without any connection, also inside a wait. */
    method Local(cmd: Cmd, ghost current: seq<nat>)
      requires w.Ok(None) && Ordered(current)
      modifies `w, `pending, `taken
      ensures w == old(w).AfterLocal(cmd) && w.Ok(None) && Ordered(current)
      ensures pending == old(pending) + Opens([cmd])
      ensures if cmd.Open? then pending == old(pending) + [(cmd.spec, cmd.reply)] && taken == old(taken) + [cmd.reply]
              else pending == old(pending) && taken == old(taken)
    {
      w.AfterLocalKeeps(cmd);
      match cmd
      case Input(id, data) =>
        if w.Holds(id) {
          w := w.Tell(w.slots[id].pty.value, Data(data));
        }
      case Resize(id, size) =>
        if id in w.slots {
          var slot := w.slots[id];
          w := w.(slots := w.slots[id := slot.(spec := slot.spec.(size := size))]);
          if slot.pty.Some? {
            w := w.Tell(slot.pty.value, NewSize(size));
          }
        }
      case Close(id) =>
        if id in w.slots {
          var slot := w.slots[id];
          w := w.(slots := w.slots - {id});
          if slot.pty.Some? {
            w := w.Tell(slot.pty.value, Shut);
          }
        }
      case Open(spec, reply) =>
        pending := pending + [(spec, reply)];
        taken := taken + [reply];
      case RetryNow | Stop | HangUp =>
    }

    /** Handle commands up to the first that ends the task. */
    method HandleAll(cmds: seq<Cmd>, ghost current: seq<nat>) returns (stopped: bool)
      requires w.Ok(None) && Ordered(current)
      modifies `w, `pending, `taken
      ensures w == old(w).AfterAll(Handled(cmds)) && w.Ok(None) && Ordered(current)
      ensures pending == old(pending) + Opens(Handled(cmds))
      ensures stopped <==> Handled(cmds) != cmds
    {
      hide World.Ok;
      var i := 0;
      while i < |cmds| && !Ends(cmds[i])
        invariant 0 <= i <= |cmds| && forall j | 0 <= j < i :: !Ends(cmds[j])
        invariant w.Ok(None) && Ordered(current)
        invariant w == old(w).AfterAll(cmds[..i])
        invariant pending == old(pending) + Opens(cmds[..i])
      {
        assert cmds[..i + 1][..i] == cmds[..i];
        Local(cmds[i], current);
        i := i + 1;
      }
      HandledPrefix(cmds, i);
      stopped := i < |cmds|;
    }

    /** Wait for a connect or an attach while handling commands; `None` when the task is to end. */
    method Busy(ghost current: seq<nat>) returns (out: Option<Result<(), OpenError>>)
      requires w.Ok(None) && Ordered(current)
      modifies `w, `pending, `taken, `awaited, `now
      ensures w == old(w).AfterAll(HandledAt(old(awaited)))
      ensures pending == old(pending) + Opens(HandledAt(old(awaited)))
      ensures w.Ok(None) && Ordered(current) && old(w).Waited(w) && |w.ptys| == |old(w).ptys|
      ensures now == old(now) + awaits(old(awaited)).elapsed && awaited == old(awaited) + 1
      ensures out == if StopsAt(old(awaited)) then None else Some(awaits(old(awaited)).outcome)
    {
      hide World.Ok;
      var a := awaits(awaited);
      awaited, now := awaited + 1, now + a.elapsed;
      w.AfterAllKeeps(Handled(a.cmds));
      var stopped := HandleAll(a.cmds, current);
      out := if stopped then None else Some(a.outcome);
    }

    /** A new PTY over the connection that is up;
        `None` when the task ends during the wait. */
    method Attach(id: nat, generation: nat, spec: Spec, ghost current: seq<nat>)
      returns (r: Option<Result<nat, OpenError>>)
      requires w.Ok(None) && Ordered(current) && w.FreshTag(id, generation)
      modifies `link, `refused, `w, `pending, `taken, `awaited, `now
      ensures old(link) != Up ==> refused == old(refused) + 1 && link == old(link) && w == old(w) &&
                                  r == Some(Err(Retry("terminal connection is down")))
      ensures old(link) == Up ==> refused == old(refused)
      ensures old(link) == Up && r.Some? ==> link == Up
      ensures now >= old(now)
      ensures old(link) == Up ==> awaited == old(awaited) + 1 && (r.None? <==> StopsAt(old(awaited)))
      ensures old(link) == Up && r.Some? ==> (r.value.Err? <==> FailsAt(old(awaited)))
      ensures old(link) == Up && r.Some? && r.value.Err? ==> awaits(old(awaited)).outcome == Err(r.value.error)
      ensures Ordered(current) && old(w).Waited(w)
      ensures old(link) == Up ==>
        var waited := old(w).AfterAll(HandledAt(old(awaited)));
        |waited.ptys| == |old(w).ptys| &&
        w == if r.Some? && r.value.Ok? then waited.Spawned(id, generation, spec.size) else waited
      ensures !(r.Some? && r.value.Ok?) ==> w.Ok(None) && |w.ptys| == |old(w).ptys|
      ensures r.Some? && r.value.Ok? ==>
        var p := r.value.value;
        w.Ok(Some(p)) && p == |old(w).ptys| && |w.ptys| == p + 1 && w.ptys[p] == Pty(id, generation, spec.size, [], false)
    {
      hide World.Ok;
      if link != Up {
        refused := refused + 1;
        return Some(Err(Retry("terminal connection is down")));
      }
      link := Link.Busy;
      var out := Busy(current);
      if out.None? {
        return None;
      }
      link := Up;
      if out.value.Err? {
        return Some(Err(out.value.error));
      }
      w.SpawnedKeeps(id, generation, spec.size);
      r := Some(Ok(|w.ptys|));
      w := w.Spawned(id, generation, spec.size);
    }

    /** Connect; `None` when the task ends during the wait. */
    method Connect(ghost current: seq<nat>) returns (r: Option<Result<(), OpenError>>)
      requires w.Ok(None) && Ordered(current)
      modifies `link, `upSince, `conn, `w, `pending, `taken, `awaited, `now
      ensures w.Ok(None) && Ordered(current) && old(w).Waited(w)
      ensures r == Some(Ok(())) ==> link == Up && upSince == Some(now) && conn == old(conn) + [Some(ConnUp)]
      ensures r != Some(Ok(())) ==> link == old(link) && upSince == old(upSince) && conn == old(conn)
      ensures (old(w).AllDetached() ==> w.AllDetached()) && w.nextId == old(w).nextId
      ensures awaited == old(awaited) + 1 && now >= old(now)
      ensures r == if StopsAt(old(awaited)) then None else Some(awaits(old(awaited)).outcome)
    {
      hide World.Ok;
      r := Busy(current);
      if r == Some(Ok(())) {
        link, upSince, conn := Up, Some(now), conn + [Some(ConnUp)];
      }
    }

    /** A connection that no terminal uses is given up. */
    method IdleIfEmpty()
      modifies `link, `upSince, `backoff, `conn
      ensures if w.slots == map[] && !old(link).Idle? && !old(link).Busy?
              then link == Idle && upSince == None && backoff == FRESH && conn == old(conn) + [None]
              else link == old(link) && upSince == old(upSince) && backoff == old(backoff) && conn == old(conn)
    {
      if w.slots == map[] && !link.Idle? && !link.Busy? {
        link, upSince, backoff, conn := Idle, None, FRESH, conn + [None];
      }
    }

    // ---- losing the connection ----

    method Detach(id: nat, reason: string)
      requires w.Ok(None) && id in w.slots
      modifies `w
      ensures w == old(w).Lost(id, reason) && w.Ok(None)
    {
      hide World.Ok;
      w.LostKeeps(id, reason);
      w := w.DropPty(id);
      w := w.(slots := w.slots[id := w.slots[id].(pty := None)]);
      w := w.Send(id, Detached(reason));
    }

    /** Detach every terminal. */
    method DetachAll(reason: string)
      requires w.Ok(None)
      modifies `w
      ensures w.Ok(None) && w.AllDetached() && AllTold(old(w), w, reason, {})
    {
      hide World.Ok;
      var todo := w.slots.Keys;
      while todo != {}
        invariant w.Ok(None) && todo <= w.slots.Keys && AllTold(old(w), w, reason, todo)
        decreases |todo|
      {
        var id :| id in todo;
        TellOne(old(w), w, reason, todo, id);
        Detach(id, reason);
        todo := todo - {id};
      }
    }

    /** The link is down; with no terminal left it is idle instead. */
    method GoDown(at: Option<nat>, error: OpenError, state: Conn, ghost current: seq<nat>)
      requires w.Ok(None) && Ordered(current) && w.AllDetached() && upSince.None?
      requires match error
               case Retry(m) => at.Some? && state.Retrying? && state.reason == m
               case NeedsUser(p) => at.None? && state == WaitsForUser(p)
      modifies `link, `upSince, `backoff, `conn
      ensures Settled(current)
      ensures w.slots != map[] ==> link == Down(at, error) && backoff == old(backoff) && conn == old(conn) + [Some(state)]
    {
      hide World.Ok;
      link := Down(at, error);
      if w.slots == map[] {
        IdleIfEmpty();
      } else {
        conn := conn + [Some(state)];
      }
    }

    /** All terminals are without a connection; the next try is due after the next delay. */
    method Lost(reason: string, ghost current: seq<nat>)
      requires w.Ok(None) && Ordered(current)
      modifies `link, `upSince, `backoff, `conn, `w
      ensures Settled(current) && AllTold(old(w), w, reason, {})
      ensures w.slots != map[] ==>
        var was := if old(upSince).Some? && now - old(upSince).value >= STABLE_AFTER then FRESH else old(backoff);
        && link == Down(Some(now + was.next), Retry(reason)) && backoff == was.Advanced()
        && conn == old(conn) + [Some(Retrying(was.next, reason))]
    {
      hide World.Ok;
      DetachAll(reason);
      if upSince.Some? && now - upSince.value >= STABLE_AFTER {
        backoff := FRESH;
      }
      upSince := None;
      var retryIn := backoff.next;
      backoff := backoff.Advanced();
      GoDown(Some(now + retryIn), Retry(reason), Retrying(retryIn, reason), current);
    }

    // ---- opening and reattaching ----

    /** The connection is up and every terminal is attached; there may be none. */
    ghost predicate Ready(current: seq<nat>)
      reads this
    {
      w.Ok(None) && Ordered(current) && link == Up && w.AllAttached() && upSince.Some? && Reported()
    }

    /** With the connection up, drop it if no terminal is left. */
    method KeepOrIdle(ghost current: seq<nat>)
      requires Ready(current)
      modifies `link, `upSince, `backoff, `conn
      ensures Settled(current) && !link.Down?
    {
      hide World.Ok;
      IdleIfEmpty();
    }

    /** What follows attaching again: keep the connection, or lose it over the error. */
    method Conclude(r: Result<(), OpenError>, ghost current: seq<nat>)
      requires w.Ok(None) && Ordered(current) && link == Up && upSince.Some? && Reported()
      requires r.Ok? ==> w.AllAttached()
      modifies `link, `upSince, `backoff, `conn, `w
      ensures Settled(current) && w.nextId == old(w).nextId && w.slots.Keys == old(w).slots.Keys
      ensures if r.Ok? then !link.Down? && w == old(w) else w.slots != map[] ==> link.Down? && link.error == Retry(ReasonOf(r.error))
      ensures r.Err? && link.Down? ==> link.error == Retry(ReasonOf(r.error))
    {
      hide World.Ok;
      if r.Err? {
        Lost(ReasonOf(r.error), current);
      } else {
        KeepOrIdle(current);
      }
    }

    /** Give the PTY an attach returned to its terminal, or close it if that is gone. */
    method Settle(id: nat, generation: nat, p: nat)
      requires w.Ok(Some(p)) && p < |w.ptys| && w.ptys[p].Live()
      requires w.ptys[p].id == id && w.ptys[p].generation == generation
      requires id in w.slots ==> w.slots[id].pty.None? && w.slots[id].generation < generation
      modifies `w
      ensures w == old(w).Bound(id, generation, p, now) && w.Ok(None)
    {
      hide World.Ok;
      w.BoundKeeps(id, generation, p, now);
      if id in w.slots {
        w := w.(slots := w.slots[id := w.slots[id].(pty := Some(p), generation := generation, attachedAt := now)]);
        w := w.Send(id, Attached(p));
      } else {
        w := w.Tell(p, Shut);
      }
    }

    /** Attach a detached terminal again. The PTY starts with the size the terminal had
        before the wait; a resize handled meanwhile only reaches the slot (`SizesAgreeIff`). */
    method Reattach(id: nat, ghost current: seq<nat>) returns (r: Option<Result<(), OpenError>>)
      requires w.Ok(None) && Ordered(current) && link == Up && id in w.slots && w.slots[id].pty.None?
      modifies `link, `refused, `w, `pending, `taken, `awaited, `now
      ensures w.Ok(None) && Ordered(current) && refused == old(refused)
      ensures r.Some? ==> link == Up
      ensures awaited == old(awaited) + 1 && now >= old(now) && (r.None? <==> StopsAt(old(awaited)))
      ensures r.Some? ==> (r.value.Err? <==> FailsAt(old(awaited)))
      ensures r.Some? && r.value.Err? ==> awaits(old(awaited)).outcome == Err(r.value.error)
      ensures forall k | k in w.slots :: k in old(w).slots && (k != id ==> w.slots[k].pty == old(w).slots[k].pty)
      ensures w.nextId == old(w).nextId && |old(w).AfterAll(HandledAt(old(awaited))).ptys| == |old(w).ptys|
      ensures w == if r == Some(Ok(())) then old(w).Reattached(id, HandledAt(old(awaited)), now)
                   else old(w).AfterAll(HandledAt(old(awaited)))
      ensures r == Some(Ok(())) && id in w.slots ==> w.slots[id].pty.Some?
    {
      hide World.Ok;
      var spec, generation := w.slots[id].spec, w.slots[id].generation + 1;
      w.NextTagIsFresh(id);
      var a := Attach(id, generation, spec, current);
      match a {
        case None => return None;
        case Some(Err(e)) => return Some(Err(e));
        case Some(Ok(p)) =>
          Settle(id, generation, p);
          return Some(Ok(()));
      }
    }

    /** Attach every terminal again over the new connection. */
    method ReattachAll(ghost current: seq<nat>) returns (r: Option<Result<(), OpenError>>)
      requires w.Ok(None) && Ordered(current) && link == Up && w.AllDetached()
      modifies `link, `refused, `w, `pending, `taken, `awaited, `now
      ensures w.Ok(None) && Ordered(current) && refused == old(refused)
      ensures r.Some? ==> link == Up
      ensures r == Some(Ok(())) ==> w.AllAttached()
      ensures awaited >= old(awaited) && (r.None? ==> StoppedIn(old(awaited), awaited))
      ensures r.Some? && r.value.Err? ==> FailedIn(old(awaited), awaited, r.value.error)
      ensures w.nextId == old(w).nextId && now >= old(now)
    {
      hide World.Ok;
      var todo := w.slots.Keys;
      while todo != {}
        invariant w.Ok(None) && Ordered(current) && link == Up && refused == old(refused) && awaited >= old(awaited)
        invariant w.nextId == old(w).nextId && now >= old(now)
        invariant forall k | k in w.slots :: w.slots[k].pty.None? <==> k in todo
        decreases |todo|
      {
        var id :| id in todo;
        todo := todo - {id};
        if id in w.slots {
          ghost var k := awaited;
          var a := Reattach(id, current);
          if a != Some(Ok(())) {
            assert a.Some? && a.value.Err? ==> FailsFor(k, a.value.error);
            return a;
          }
        }
      }
      return Some(Ok(()));
    }

    /** Attach every terminal again, or lose the connection over the first that fails. */
    method Resume(ghost current: seq<nat>) returns (go: bool)
      requires w.Ok(None) && Ordered(current) && link == Up && w.AllDetached() && upSince.Some? && Reported()
      modifies `link, `refused, `upSince, `backoff, `conn, `w, `pending, `taken, `awaited, `now
      ensures w.Ok(None) && Ordered(current) && refused == old(refused)
      ensures if go then Settled(current) else StoppedIn(old(awaited), awaited)
      ensures awaited >= old(awaited) && (go && link.Down? ==> FailedIn(old(awaited), awaited, link.error))
      ensures w.nextId == old(w).nextId && now >= old(now)
    {
      hide World.Ok, FailedIn, World.AllAttached, World.AllDetached;
      var r := ReattachAll(current);
      if r.None? {
        return false;
      }
      assert r.value.Ok? ==> r.value.value == ();
      Conclude(r.value, current);
      if link.Down? {
        SameReason(old(awaited), awaited, r.value.error, link.error);
      }
      return true;
    }

    /** The connect failed: wait for the next delay, or for the user. */
    method StayDown(error: OpenError, ghost current: seq<nat>)
      requires w.Ok(None) && Ordered(current) && w.AllDetached() && upSince.None?
      modifies `link, `upSince, `backoff, `conn
      ensures Settled(current)
      ensures w.slots != map[] ==>
        match error
        case Retry(m) =>
          && link == Down(Some(now + old(backoff).next), error) && backoff == old(backoff).Advanced()
          && conn == old(conn) + [Some(Retrying(old(backoff).next, m))]
        case NeedsUser(p) => link == Down(None, error) && conn == old(conn) + [Some(WaitsForUser(p))]
    {
      hide World.Ok, World.AllDetached, LinkOk, Reported, Ordered;
      match error {
        case Retry(reason) =>
          var retryIn := backoff.next;
          backoff := backoff.Advanced();
          GoDown(Some(now + retryIn), error, Retrying(retryIn, reason), current);
        case NeedsUser(p) =>
          GoDown(None, error, WaitsForUser(p), current);
      }
    }

    /** Try to get out of `Down`; false when the task is to end. */
    method Reconnect(ghost current: seq<nat>) returns (go: bool)
      requires Settled(current) && link.Down?
      modifies `link, `refused, `upSince, `backoff, `conn, `w, `pending, `taken, `awaited, `now
      ensures w.Ok(None) && Ordered(current) && refused == old(refused) && w.nextId == old(w).nextId && now >= old(now)
      ensures if go then Settled(current) else StoppedIn(old(awaited), awaited)
      ensures awaited > old(awaited) && (go && link.Down? ==> FailedIn(old(awaited), awaited, link.error))
      ensures Reconnected(old(Here()), Here(), now, go)
    {
      hide World.Ok, World.Waited, World.AllDetached, World.AllAttached, FailedIn, StoppedIn;
      assert w.AllDetached() && upSince.None?;
      hide LinkOk, Ordered;
      ghost var k := awaited;
      var c := Connect(current);
      match c {
        case None =>
          OneStop(k);
          go := false;
        case Some(Err(error)) =>
          OneFailure(k, error);
          StayDown(error, current);
          go := true;
        case Some(Ok(unit)) =>
          assert unit == ();
          go := Resume(current);
          if !go {
            StoppedLonger(k, awaited);
          } else if link.Down? {
            FailedLonger(k, awaited, link.error);
          }
      }
    }

    /** Bring the connection up for a new terminal: `None` when the task is to end, or the error. */
    method Prepare(ghost current: seq<nat>) returns (r: Option<Result<(), OpenError>>)
      requires Settled(current)
      modifies `link, `refused, `upSince, `backoff, `conn, `w, `pending, `taken, `awaited, `now
      ensures w.Ok(None) && Ordered(current) && refused == old(refused)
      ensures r == Some(Ok(())) ==> Ready(current)
      ensures r.Some? && r.value.Err? ==> Settled(current) && FailedIn(old(awaited), awaited, r.value.error)
      ensures awaited >= old(awaited) && (r.None? ==> StoppedIn(old(awaited), awaited))
      ensures w.nextId == old(w).nextId
    {
      hide World.Ok;
      if link.Down? {
        // First bring back the terminals that are detached.
        var go := Reconnect(current);
        if !go {
          return None;
        }
        if link.Down? {
          return Some(Err(link.error));
        }
      }
      if link.Idle? {
        ghost var k := awaited;
        r := Connect(current);
        assert r.None? ==> StopsAt(k);
        assert r.Some? && r.value.Err? ==> FailsFor(k, r.value.error);
        if r.Some? && r.value.Err? {
          link, conn := Idle, conn + [None];
        }
      } else {
        r := Some(Ok(()));
      }
    }

    /** Open a terminal; `None` when the task ends during the wait. */
    method OpenTerminal(spec: Spec, ghost current: seq<nat>) returns (r: Option<Answer>)
      requires Settled(current)
      modifies `link, `refused, `upSince, `backoff, `conn, `w, `pending, `taken, `awaited, `now
      ensures w.Ok(None) && Ordered(current) && refused == old(refused)
      ensures r.Some? ==> Settled(current)
      ensures r.Some? && r.value.Opened? ==> w.IsNew(r.value.id, spec) && r.value.id == old(w).nextId
      ensures awaited >= old(awaited)
      ensures r.Some? && r.value.Failed? ==> FailedIn(old(awaited), awaited, r.value.error)
      ensures r.None? ==> StoppedIn(old(awaited), awaited)
    {
      hide World.Ok;
      var up := Prepare(current);
      if up.None? {
        return None;
      }
      if up.value.Err? {
        return Some(Failed(up.value.error));
      }
      assert up.value.value == ();
      ghost var k := awaited;
      r := AttachNew(spec, current);
      assert r.None? ==> StopsAt(k);
      assert r.Some? && r.value.Failed? ==> FailsFor(k, r.value.error);
    }

    method Insert(id: nat, spec: Spec, p: nat)
      requires w.Ok(Some(p)) && p < |w.ptys| && w.ptys[p].Live() && w.ptys[p].id == id && w.ptys[p].generation == 0
      requires id !in w.slots && id < w.nextId && id !in w.streams
      requires forall q | 0 <= q < |w.ptys| && q != p :: w.ptys[q].id != id
      modifies `w
      ensures w.Ok(None) && w.IsNew(id, spec) && w.slots != map[]
      ensures old(w).AllAttached() ==> w.AllAttached()
      ensures w.slots == old(w).slots[id := Slot(spec, Some(p), 0, now, 0)] && w.streams == old(w).streams[id := old(w).Stream(id) + [Attached(p)]]
    {
      hide World.Ok;
      w.InsertedKeeps(id, spec, p, now);
      w := w.(slots := w.slots[id := Slot(spec, Some(p), 0, now, 0)]);
      w := w.Send(id, Attached(p));
    }

    /** Attach over the connection under a new id. */
    method AttachFresh(spec: Spec, ghost current: seq<nat>) returns (id: nat, a: Option<Result<nat, OpenError>>)
      requires w.Ok(None) && Ordered(current) && link == Up
      modifies `link, `refused, `w, `pending, `taken, `awaited, `now
      ensures Ordered(current) && refused == old(refused) && (a.Some? ==> link == Up)
      ensures awaited == old(awaited) + 1 && (a.None? <==> StopsAt(old(awaited))) && id == old(w).nextId
      ensures a.Some? ==> (a.value.Err? <==> FailsAt(old(awaited)))
      ensures a.Some? && a.value.Err? ==> awaits(old(awaited)).outcome == Err(a.value.error)
      ensures old(w).AllAttached() ==> w.AllAttached()
      ensures !(a.Some? && a.value.Ok?) ==> w.Ok(None)
      ensures a.Some? && a.value.Ok? ==>
        var p := a.value.value;
        && w.Ok(Some(p)) && p < |w.ptys| && w.ptys[p].Live() && w.ptys[p].id == id && w.ptys[p].generation == 0
        && id !in w.slots && id < w.nextId && id !in w.streams
        && forall q | 0 <= q < |w.ptys| && q != p :: w.ptys[q].id != id
    {
      hide World.Ok;
      id := w.nextId;
      w.NumberedKeeps();
      w := w.(nextId := id + 1);
      a := Attach(id, 0, spec, current);
    }

    method AttachNew(spec: Spec, ghost current: seq<nat>) returns (r: Option<Answer>)
      requires Ready(current)
      modifies `link, `refused, `upSince, `backoff, `conn, `w, `pending, `taken, `awaited, `now
      ensures w.Ok(None) && Ordered(current) && refused == old(refused)
      ensures r.Some? ==> Settled(current)
      ensures r.Some? && r.value.Opened? ==> w.IsNew(r.value.id, spec) && r.value.id == old(w).nextId
      ensures awaited == old(awaited) + 1
      ensures r.Some? && r.value.Failed? ==> awaits(old(awaited)).outcome == Err(r.value.error)
      ensures r.None? ==> StopsAt(old(awaited))
    {
      hide World.Ok;
      var id, a := AttachFresh(spec, current);
      match a {
        case None =>
          r := None;
        case Some(Ok(p)) =>
          Insert(id, spec, p);
          r := Some(Opened(id));
        case Some(Err(e)) =>
          KeepOrIdle(current);
          r := Some(Failed(e));
      }
    }

    /** A channel ended but the transport is alive: try the terminal again, unless this keeps
        happening right after attaching. */
    method ChannelEnded(id: nat) returns (go: bool)
      requires AtHead() && link == Up && w.Holds(id)
      modifies `link, `refused, `upSince, `backoff, `conn, `w, `pending, `taken, `awaited, `now
      ensures w.Ok(None) && Ordered([]) && refused == old(refused)
      ensures awaited >= old(awaited) && if go then AtHead() else StoppedIn(old(awaited), awaited)
      ensures Reopened(old(Here()), id, old(now), Here(), now, go)
    {
      hide World.Ok, Resumed, World.Ended, World.Lost, World.Counted;
      var slot := w.slots[id];
      var quickEnds := if now - slot.attachedAt < STABLE_AFTER then slot.quickEnds + 1 else 0;
      if quickEnds >= MAX_QUICK_ENDS {
        Finish(id, None);
        return true;
      }
      go := TryAgain(id, quickEnds);
    }

    /** Detach one terminal and attach it again. */
    method TryAgain(id: nat, quickEnds: nat) returns (go: bool)
      requires AtHead() && link == Up && w.Holds(id)
      modifies `link, `refused, `upSince, `backoff, `conn, `w, `pending, `taken, `awaited, `now
      ensures w.Ok(None) && Ordered([]) && refused == old(refused)
      ensures awaited >= old(awaited) && if go then AtHead() else StoppedIn(old(awaited), awaited)
      ensures Resumed(old(w).Counted(id, quickEnds).Lost(id, "terminal channel closed"), id, old(awaited), Here(), now, go)
    {
      hide World.Ok, Resumed, World.Lost, World.Counted;
      DetachEnded(id, quickEnds);
      go := ResumeOne(id);
    }

    /** Attach one terminal again, or lose the connection if that fails. */
    method ResumeOne(id: nat) returns (go: bool)
      requires w.Ok(None) && Ordered([]) && link == Up && upSince.Some? && Reported()
      requires id in w.slots && forall k | k in w.slots :: w.slots[k].pty.None? <==> k == id
      modifies `link, `refused, `upSince, `backoff, `conn, `w, `pending, `taken, `awaited, `now
      ensures w.Ok(None) && Ordered([]) && refused == old(refused)
      ensures if go then AtHead() else StoppedIn(old(awaited), awaited)
      ensures awaited > old(awaited) && (go && link.Down? ==> FailedIn(old(awaited), awaited, link.error))
      ensures Resumed(old(w), id, old(awaited), Here(), now, go)
    {
      hide World.Ok, World.AfterAll, World.Reattached, FailedIn;
      ghost var k := awaited;
      var r := Reattach(id, []);
      assert r.None? ==> StopsAt(k);
      if r.None? {
        return false;
      }
      assert r.value.Ok? ==> r.value.value == ();
      Conclude(r.value, []);
      if link.Down? {
        OneFailure(k, link.error);
      }
      return true;
    }

    method DetachEnded(id: nat, quickEnds: nat)
      requires w.Ok(None) && id in w.slots && w.AllAttached()
      modifies `w
      ensures w.Ok(None) && w.slots.Keys == old(w).slots.Keys
      ensures w == old(w).Counted(id, quickEnds).Lost(id, "terminal channel closed")
      ensures forall k | k in w.slots :: w.slots[k].pty.None? <==> k == id
    {
      hide World.Ok;
      w.CountedKeeps(id, quickEnds);
      w := w.Counted(id, quickEnds);
      Detach(id, "terminal channel closed");
    }

    /** The terminal is finished: tell its owner and forget it. */
    method Finish(id: nat, status: Option<nat>)
      requires AtHead() && link == Up && w.Holds(id)
      modifies `link, `upSince, `backoff, `conn, `w
      ensures AtHead() && w == old(w).Ended(id, status)
    {
      hide World.Ok;
      Remove(id, status);
      KeepOrIdle([]);
    }

    method Remove(id: nat, status: Option<nat>)
      requires w.Ok(None) && w.Holds(id)
      modifies `w
      ensures w == old(w).Ended(id, status) && w.Ok(None)
      ensures old(w).AllAttached() ==> w.AllAttached()
    {
      hide World.Ok;
      w.EndedKeeps(id, status);
      var p := w.slots[id].pty.value;
      w := w.DropPty(id);
      w := w.(slots := w.slots - {id});
      w := w.Send(id, Exited(p, status));
    }

    /** Output of the PTY `p`, tagged by its forwarder; false when the task is to end. */
    method FromForwarder(p: nat, out: PtyOut) returns (go: bool)
      requires AtHead() && p < |w.ptys|
      modifies `link, `refused, `upSince, `backoff, `conn, `w, `pending, `taken, `awaited, `now
      ensures w.Ok(None) && Ordered([]) && refused == old(refused)
      ensures awaited >= old(awaited) && if go then AtHead() else StoppedIn(old(awaited), awaited)
      ensures Delivered(old(Here()), p, out, old(now), Here(), now, go)
    {
      if !w.Current(p) {
        return true;
      }
      w.TagNamesPty(w.ptys[p].id, p);
      go := Deliver(p, out);
    }

    /** Output of the PTY that a terminal is attached to. */
    method Deliver(p: nat, out: PtyOut) returns (go: bool)
      requires AtHead() && p < |w.ptys| && w.Current(p) && w.slots[w.ptys[p].id].pty == Some(p)
      modifies `link, `refused, `upSince, `backoff, `conn, `w, `pending, `taken, `awaited, `now
      ensures w.Ok(None) && Ordered([]) && refused == old(refused)
      ensures awaited >= old(awaited) && if go then AtHead() else StoppedIn(old(awaited), awaited)
      ensures Delivered(old(Here()), p, out, old(now), Here(), now, go)
    {
      hide World.Ok, Reopened;
      var id := w.ptys[p].id;
      match out {
        case Bytes(d) =>
          Forward(id, p, d);
          go := true;
        case Exit(status) =>
          Finish(id, status);
          go := true;
        case Ended(alive) =>
          go := Closing(id, alive);
      }
    }

    /** A channel closed: alone, or because the connection is gone. */
    method Closing(id: nat, alive: bool) returns (go: bool)
      requires AtHead() && link == Up && w.Holds(id)
      modifies `link, `refused, `upSince, `backoff, `conn, `w, `pending, `taken, `awaited, `now
      ensures w.Ok(None) && Ordered([]) && refused == old(refused)
      ensures awaited >= old(awaited) && if go then AtHead() else StoppedIn(old(awaited), awaited)
      ensures if alive then Reopened(old(Here()), id, old(now), Here(), now, go)
              else go && link.Down? && AllTold(old(w), w, "connection lost", {})
    {
      hide World.Ok, Reopened;
      if alive {
        go := ChannelEnded(id);
      } else {
        Lost("connection lost", []);
        go := true;
      }
    }

    method Forward(id: nat, p: nat, d: string)
      requires AtHead() && id in w.slots && w.slots[id].pty == Some(p)
      modifies `w
      ensures AtHead() && id in old(w).streams
      ensures w == old(w).(streams := old(w).streams[id := old(w).streams[id] + [Output(p, d)]])
    {
      assert EndsAs(w.streams[id], w.slots[id].pty);
      w.ExtendedKeeps(w.Send(id, Output(p, d)), id, Output(p, d));
      w := w.Send(id, Output(p, d));
    }

    method Reply(reply: nat, answer: Answer)
      requires Settled([reply])
      modifies `answered
      ensures AtHead() && answered == old(answered) + [(reply, answer)]
    {
      hide World.Ok;
      answered := answered + [(reply, answer)];
      assert Tokens(answered) == Tokens(old(answered)) + [reply];
    }

    /** One command taken at a loop head; false for one that ends the task. */
    method Command(cmd: Cmd) returns (go: bool)
      requires AtHead() && pending == []
      modifies this
      ensures w.Ok(None) && Tokens(answered) <= taken && refused == old(refused)
      ensures if go then AtHead() else Ends(cmd) || StoppedIn(old(awaited), awaited)
      ensures awaited >= old(awaited) && |answered| >= |old(answered)| && Obeyed(old(Here()), cmd, Here(), now, go)
    {
      hide World.Ok, Reconnected, Replied;
      match cmd {
        case Stop | HangUp =>
          go := false;
        case Open(spec, reply) =>
          taken := taken + [reply];
          go := Answered(spec, reply);
        case RetryNow =>
          go := true;
          if link.Down? {
            go := Reconnect([]);
          }
        case _ =>
          LocalAtHead(cmd);
          go := true;
      }
    }

    method LocalAtHead(cmd: Cmd)
      requires AtHead()
      modifies `link, `upSince, `backoff, `conn, `w, `pending, `taken
      ensures AtHead() && w == old(w).AfterLocal(cmd)
    {
      hide World.Ok;
      w.AfterLocalWaits(cmd);
      Local(cmd, []);
      IdleIfEmpty();
    }

    /** Open a terminal and answer the request; false when the task is to end. */
    method Answered(spec: Spec, reply: nat) returns (go: bool)
      requires Settled([reply])
      modifies this
      ensures w.Ok(None) && Tokens(answered) <= taken && refused == old(refused)
      ensures if go then AtHead() && Replied(old(Here()), spec, reply, Here()) else StoppedIn(old(awaited), awaited)
      ensures awaited >= old(awaited) && |answered| >= |old(answered)|
    {
      hide World.Ok;
      var r := OpenTerminal(spec, [reply]);
      if r.None? {
        return false;
      }
      Reply(reply, r.value);
      return true;
    }

    /** No PTY outlives the task. */
    method CloseAll()
      requires w.Ok(None) && Tokens(answered) <= taken
      modifies `w
      ensures Finished()
      ensures w.streams == old(w).streams && |w.ptys| == |old(w).ptys|
    {
      var todo := w.slots.Keys;
      while todo != {}
        invariant w.OpenOnlyIn(todo) && w.streams == old(w).streams && |w.ptys| == |old(w).ptys|
        decreases |todo|
      {
        var id :| id in todo;
        w.ShutKeeps(todo, id);
        if w.slots[id].pty.Some? {
          w := w.Tell(w.slots[id].pty.value, Shut);
        }
        todo := todo - {id};
      }
    }

    /** The task, for any number of loop iterations; `turn` counts what the select yielded. It
        ends only when told to, and every iteration takes from the select or answers an open. */
    method Run(heads: nat -> Yield, steps: nat) returns (stopped: bool, turn: nat)
      requires AtHead()
      modifies this
      ensures if stopped then Finished() else AtHead()
      ensures refused == old(refused)
      ensures stopped ==> StoppedIn(old(awaited), awaited) || exists k: nat :: k < turn && EndsTask(heads(k).head)
      ensures !stopped ==> turn + |answered| >= |old(answered)| + steps
    {
      hide World.Ok, Reported, LinkOk, Yielded;
      turn := 0;
      for k := 0 to steps
        invariant AtHead() && refused == old(refused) && awaited >= old(awaited)
        invariant turn + |answered| >= |old(answered)| + k
      {
        var next := heads(turn);
        if pending == [] {
          turn := turn + 1;
        }
        var go := Step(next);
        if !go {
          CloseAll();
          return true, turn;
        }
      }
      return false, turn;
    }

    /** One loop iteration: a waiting open first, else what the select yields. */
    method Step(next: Yield) returns (go: bool)
      requires AtHead()
      modifies this
      ensures w.Ok(None) && Tokens(answered) <= taken && refused == old(refused)
      ensures awaited >= old(awaited) && |answered| >= |old(answered)|
      ensures if go then AtHead() else
          StoppedIn(old(awaited), awaited) || (old(pending) == [] && EndsTask(next.head))
      ensures if old(pending) == [] then Yielded(old(Here()), next.head, old(now) + next.after, Here(), now, go)
              else go ==> Replied(old(Here()), old(pending)[0].0, old(pending)[0].1, Here())
    {
      hide World.Ok, Reported, LinkOk, Yielded, Replied;
      if pending != [] {
        var (spec, reply) := pending[0];
        assert Replies(pending) == [reply] + Replies(pending[1..]);
        pending := pending[1..];
        go := Answered(spec, reply);
      } else {
        now := now + next.after;
        go := Select(next.head);
      }
    }

    method Select(head: Head) returns (go: bool)
      requires AtHead() && pending == []
      modifies this
      ensures w.Ok(None) && Tokens(answered) <= taken && refused == old(refused)
      ensures awaited >= old(awaited) && |answered| >= |old(answered)|
      ensures if go then AtHead() else StoppedIn(old(awaited), awaited) || EndsTask(head)
      ensures Yielded(old(Here()), head, old(now), Here(), now, go)
    {
      hide World.Ok, Reported, Reopened, Reconnected, Replied;
      match head {
        case Command(cmd) =>
          go := Command(cmd);
        case FromPty(p, out) =>
          go := true;
          if p < |w.ptys| {
            go := FromForwarder(p, out);
          }
        case Timer =>
          go := true;
          if link.Down? && link.at.Some? && w.slots != map[] {
            now := if now < link.at.value then link.at.value else now;
            go := Reconnect([]);
          }
      }
    }
  }

  /** What the select yielded is an order to end the task. */
  predicate EndsTask(head: Head) { head.Command? && Ends(head.cmd) }

  /** The whole task: whatever commands arrive, at a loop head or inside any wait, the
      loop-head invariant holds after every number of iterations, an attach never finds
      the connection down, and a task that ended leaves no PTY open. */
  method RunTerms(awaits: nat -> Await, heads: nat -> Yield, steps: nat) returns (t: Terms, stopped: bool, turn: nat)
    ensures if stopped then t.Finished() else t.AtHead()
    ensures t.refused == 0
    ensures !stopped ==> turn + |t.answered| >= steps
  {
    t := new Terms(awaits);
    stopped, turn := t.Run(heads, steps);
  }

  // ---- a resize that is lost ----

  /** In every wait of this task terminal 1 is resized, and every connect and attach succeeds. */
  ghost predicate ResizesMeanwhile(t: Terms, size: nat) {
    forall k: nat :: t.awaits(k) == Await([Resize(1, size)], 0, Ok(()))
  }

  lemma NothingGoesWrong(t: Terms, size: nat, lo: nat, hi: nat)
    requires ResizesMeanwhile(t, size)
    ensures forall k: nat :: t.HandledAt(k) == [Resize(1, size)] && !t.StopsAt(k) && !t.FailsAt(k)
    ensures !t.StoppedIn(lo, hi) && forall e :: !t.FailedIn(lo, hi, e)
  {
    HandledPrefix([Resize(1, size)], 1);
    forall k: nat
      ensures t.HandledAt(k) == [Resize(1, size)] && !t.StopsAt(k) && !t.FailsAt(k)
    {
      assert t.awaits(k).cmds == [Resize(1, size)];
    }
  }

  /** A new task opens terminal 1 with the size it asked for. */
  method OpenFirst(size: nat, other: nat) returns (t: Terms)
    ensures fresh(t) && t.AtHead() && ResizesMeanwhile(t, other) && t.w.IsNew(1, Spec("main", true, size))
  {
    hide World.Ok, Terms.LinkOk, Terms.Reported, Terms.Ordered, World.IsNew, Terms.StoppedIn, Terms.FailedIn;
    t := new Terms(_ => Await([Resize(1, other)], 0, Ok(())));
    assert ResizesMeanwhile(t, other);
    ghost var k := t.awaited;
    var go := t.Command(Open(Spec("main", true, size), 0));
    NothingGoesWrong(t, other, k, t.awaited);
  }

  /** A run in which a resize is lost: it is handled while its terminal is being attached again, so
      the terminal and its new PTY disagree about the size. */
  method ResizeDuringAttachIsLost(size: nat, other: nat) returns (t: Terms)
    ensures t.AtHead() && t.w.Holds(1)
    ensures t.w.slots[1].spec.size == other && t.w.ptys[t.w.slots[1].pty.value].size == size
  {
    hide World.Ok, World.AfterAll, World.Reattached, Terms.LinkOk, Terms.Reported, Terms.Ordered, Terms.StoppedIn, Terms.FailedIn;
    t := OpenFirst(size, other);
    t.w.HeldPty(1);
    ghost var was, k, at := t.w, t.awaited, t.now;
    var go := t.FromForwarder(t.w.slots[1].pty.value, Ended(true));
    NothingGoesWrong(t, other, k, t.awaited);
    ghost var quickEnds := if at - was.slots[1].attachedAt < STABLE_AFTER then 1 else 0;
    ResizedMeanwhile(was.Counted(1, quickEnds).Lost(1, "terminal channel closed"), size, other, t.now);
  }

  lemma ResizedMeanwhile(w: World, size: nat, other: nat, now: nat)
    requires 1 in w.slots && w.slots[1].spec.size == size && w.slots[1].pty.None?
    ensures
      var cmds := [Resize(1, other)];
      && |w.AfterAll(cmds).ptys| == |w.ptys|
      && var v := w.Reattached(1, cmds, now);
      v.Holds(1) && v.slots[1].spec.size == other && v.ptys[v.slots[1].pty.value].size == size
  {
    var cmds := [Resize(1, other)];
    assert cmds[..0] == [];
    assert w.AfterAll([]) == w;
    assert w.AfterAll(cmds) == w.Resized(1, other);
  }
}
