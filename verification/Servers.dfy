/**
 The probe's server: it relays spool records, polls zellij for sessions and panes and
 scrapes screens, and it sends the app only what changed.
 */
module Servers {
  import opened Wrappers
  import Trackers
  import Seqs
  import opened Panes

  datatype SessionInfo = SessionInfo(name: string, exited: bool)

  datatype PaneInfo = PaneInfo(id: nat, title: string, exited: bool)

  datatype PaneRef = PaneRef(session: string, id: nat)

  /** What failed; only the first of several failures in a row is reported. */
  datatype Scope = SessionList | PaneList(session: string) | Dump(pane: PaneRef)

  datatype Msg =
    | Sessions(sessions: seq<SessionInfo>)
    | PanesOf(session: string, panes: seq<PaneInfo>)
    | AgentEvent(pane: PaneRef, agent: string, source: Trackers.Source, state: Trackers.AgentState, offset: Option<nat>)
    | Failure(scope: Scope)

  type PaneLists = map<string, seq<PaneInfo>>

  predicate IsLive(sessions: seq<SessionInfo>, name: string) { SessionInfo(name, false) in sessions }

  // ---- one poll ----

  datatype Poll = Poll(lists: PaneLists, failing: set<Scope>, out: seq<Msg>)

  /** Listing one live session's panes; `a` is zellij's answer, `None` for an error. */
  function Next(p: Poll, name: string, a: Option<seq<PaneInfo>>, known: PaneLists): Poll {
    match a
    case Some(panes) =>
      Poll(p.lists[name := panes], p.failing - {PaneList(name)},
           if name in known && known[name] == panes then p.out else p.out + [PanesOf(name, panes)])
    case None =>
      Poll(if name in known then p.lists[name := known[name]] else p.lists,
           p.failing + {PaneList(name)},
           if PaneList(name) in p.failing then p.out else p.out + [Failure(PaneList(name))])
  }

  /** The poll after the first `k` sessions; `answer(i)` is about the i-th. */
  function Listed(sessions: seq<SessionInfo>, answer: nat -> Option<seq<PaneInfo>>, known: PaneLists, failing: set<Scope>, k: nat): Poll
    requires k <= |sessions|
  {
    if k == 0 then Poll(map[], failing, []) else
      var p := Listed(sessions, answer, known, failing, k - 1);
      if sessions[k - 1].exited then p else Next(p, sessions[k - 1].name, answer(k - 1), known)
  }

  // ---- what the app makes of it ----

  /** The app's view of one host. */
  datatype View = View(sessions: seq<SessionInfo>, panes: PaneLists) {
    function After(msg: Msg): View {
      match msg
      case Sessions(ss) => View(ss, map name | name in panes && IsLive(ss, name) :: panes[name])
      case PanesOf(name, ps) => View(sessions, panes[name := ps])
      case _ => this
    }

    function AfterAll(msgs: seq<Msg>): View {
      if msgs == [] then this else AfterAll(msgs[..|msgs| - 1]).After(msgs[|msgs| - 1])
    }
  }

  /** The view shows the server's sessions and pane lists; any other pane list it has
      belongs to a live session whose listing has not succeeded yet. */
  ghost predicate Agrees(sessions: Option<seq<SessionInfo>>, panes: PaneLists, view: View) {
    match sessions
    case None => panes == map[]
    case Some(ss) =>
      && view.sessions == ss
      && (forall name | name in panes :: name in view.panes && view.panes[name] == panes[name])
      && (forall name | name in view.panes :: IsLive(ss, name))
  }

  ghost predicate DistinctLive(sessions: seq<SessionInfo>) {
    forall i, j | 0 <= i < j < |sessions| && !sessions[i].exited && !sessions[j].exited :: sessions[i].name != sessions[j].name
  }

  lemma {:induction false} AfterAllSnoc(view: View, msgs: seq<Msg>, msg: Msg)
    ensures view.AfterAll(msgs + [msg]) == view.AfterAll(msgs).After(msg)
  {
    assert (msgs + [msg])[..|msgs|] == msgs;
  }

  /** A pane list reaches the view exactly when it differs from the known one. */
  lemma {:induction false} NextShown(p: Poll, name: string, a: Option<seq<PaneInfo>>, known: PaneLists, view: View)
    ensures view.AfterAll(Next(p, name, a, known).out) ==
      if a.Some? && !(name in known && known[name] == a.value)
      then View(view.AfterAll(p.out).sessions, view.AfterAll(p.out).panes[name := a.value])
      else view.AfterAll(p.out)
  {
    AfterAllSnoc(view, p.out, Failure(PaneList(name)));
    if a.Some? {
      AfterAllSnoc(view, p.out, PanesOf(name, a.value));
    }
  }

  /** The view shows the pane lists of the first `k` sessions and still the known lists
      of the others. */
  ghost predicate Caught(sessions: seq<SessionInfo>, known: PaneLists, k: nat, lists: PaneLists, view: View)
    requires k <= |sessions|
  {
    && (forall name | name in lists :: name in view.panes && view.panes[name] == lists[name])
    && (forall name | name in view.panes :: IsLive(sessions, name))
    && (forall j | k <= j < |sessions| && !sessions[j].exited && sessions[j].name in known ::
          sessions[j].name in view.panes && view.panes[sessions[j].name] == known[sessions[j].name])
  }

  lemma {:induction false} NextCatchesUp(sessions: seq<SessionInfo>, known: PaneLists, k: nat, p: Poll, a: Option<seq<PaneInfo>>, view: View)
    requires DistinctLive(sessions) && k < |sessions| && !sessions[k].exited && Caught(sessions, known, k, p.lists, view.AfterAll(p.out))
    ensures var q := Next(p, sessions[k].name, a, known);
      Caught(sessions, known, k + 1, q.lists, view.AfterAll(q.out)) && view.AfterAll(q.out).sessions == view.AfterAll(p.out).sessions
  {
    var name := sessions[k].name;
    assert sessions[k] == SessionInfo(name, false);
    NextShown(p, name, a, known, view);
  }

  lemma {:induction false} ListedCatchesUp(sessions: seq<SessionInfo>, answer: nat -> Option<seq<PaneInfo>>, known: PaneLists,
                                           failing: set<Scope>, view: View, k: nat)
    requires DistinctLive(sessions) && k <= |sessions|
    requires forall name | name in view.panes :: IsLive(sessions, name)
    requires forall name | name in known && IsLive(sessions, name) :: name in view.panes && view.panes[name] == known[name]
    ensures var p := Listed(sessions, answer, known, failing, k);
      Caught(sessions, known, k, p.lists, view.AfterAll(p.out)) && view.AfterAll(p.out).sessions == view.sessions
    decreases k
  {
    if k == 0 {
      assert forall j | 0 <= j < |sessions| && !sessions[j].exited :: sessions[j] == SessionInfo(sessions[j].name, false);
    } else {
      ListedCatchesUp(sessions, answer, known, failing, view, k - 1);
      if !sessions[k - 1].exited {
        NextCatchesUp(sessions, known, k - 1, Listed(sessions, answer, known, failing, k - 1), answer(k - 1), view);
      }
    }
  }

  /** The messages of one poll: the session list if it changed, then the pane lists. */
  function PollOf(was: Option<seq<SessionInfo>>, sessions: seq<SessionInfo>, answer: nat -> Option<seq<PaneInfo>>,
                  known: PaneLists, failing: set<Scope>): Poll
  {
    var p := Listed(sessions, answer, known, failing - {SessionList}, |sessions|);
    p.(out := (if was == Some(sessions) then [] else [Sessions(sessions)]) + p.out)
  }

  lemma {:induction false} AfterAllSplit(view: View, a: seq<Msg>, b: seq<Msg>)
    ensures view.AfterAll(a + b) == view.AfterAll(a).AfterAll(b)
    decreases |b|
  {
    if b == [] {
      assert a + b == a;
    } else {
      AfterAllSplit(view, a, b[..|b| - 1]);
      assert (a + b)[..|a + b| - 1] == a + b[..|b| - 1];
    }
  }

  /** However zellij answers, the changes a poll sends bring any view that agreed, and any
      view at all after a fresh start, to agree with the server again. */
  lemma {:induction false} PollAgrees(was: Option<seq<SessionInfo>>, sessions: seq<SessionInfo>, answer: nat -> Option<seq<PaneInfo>>,
                                      known: PaneLists, failing: set<Scope>, view: View)
    requires Agrees(was, known, view) && DistinctLive(sessions)
    ensures var p := PollOf(was, sessions, answer, known, failing); Agrees(Some(sessions), p.lists, view.AfterAll(p.out))
  {
    var p := Listed(sessions, answer, known, failing - {SessionList}, |sessions|);
    var first := if was == Some(sessions) then [] else [Sessions(sessions)];
    var mid := view.AfterAll(first);
    assert mid == if was == Some(sessions) then view else view.After(Sessions(sessions)) by {
      AfterAllSnoc(view, [], Sessions(sessions));
      assert [] + [Sessions(sessions)] == [Sessions(sessions)];
    }
    AfterAllSplit(view, first, p.out);
    ListedCatchesUp(sessions, answer, known, failing - {SessionList}, mid, |sessions|);
  }

  // ---- two live sessions of one name ----

  /** Zellij's answers that mislead the view: `second` for the session at `i` only. */
  function Misleading(sessions: seq<SessionInfo>, i: nat, first: seq<PaneInfo>, second: seq<PaneInfo>): nat -> Option<seq<PaneInfo>> {
    (j: nat) => if j == i then Some(second)
                else if i < |sessions| && j < |sessions| && sessions[j].name == sessions[i].name then Some(first)
                else None
  }

  lemma {:induction false} MisledView(sessions: seq<SessionInfo>, i: nat, first: seq<PaneInfo>, second: seq<PaneInfo>, view: View, k: nat)
    requires i < |sessions| && !sessions[i].exited && first != second && k <= |sessions|
    requires sessions[i].name in view.panes && view.panes[sessions[i].name] == first
    ensures var p := Listed(sessions, Misleading(sessions, i, first, second), map[sessions[i].name := first], {}, k);
      Misled(sessions, i, first, second, k, p.lists, view.AfterAll(p.out))
    decreases k
  {
    hide Next;
    if k > 0 {
      MisledView(sessions, i, first, second, view, k - 1);
      if !sessions[k - 1].exited {
        var known := map[sessions[i].name := first];
        var p := Listed(sessions, Misleading(sessions, i, first, second), known, {}, k - 1);
        MisledNext(sessions, i, first, second, view, k - 1, p);
      }
    }
  }

  /** From the session at `i` on the view shows `second`, while a later session of that
      name sets the server's list back to `first`. */
  ghost predicate Misled(sessions: seq<SessionInfo>, i: nat, first: seq<PaneInfo>, second: seq<PaneInfo>, k: nat, lists: PaneLists, view: View)
    requires i < |sessions| && k <= |sessions|
  {
    var name := sessions[i].name;
    && name in view.panes && view.panes[name] == (if k <= i then first else second)
    && forall j | i < j < k && !sessions[j].exited && sessions[j].name == name :: name in lists && lists[name] == first
  }

  lemma {:induction false} MisledNext(sessions: seq<SessionInfo>, i: nat, first: seq<PaneInfo>, second: seq<PaneInfo>, view: View, k: nat, p: Poll)
    requires i < |sessions| && k < |sessions| && !sessions[k].exited && first != second
    requires Misled(sessions, i, first, second, k, p.lists, view.AfterAll(p.out))
    ensures var q := Next(p, sessions[k].name, Misleading(sessions, i, first, second)(k), map[sessions[i].name := first]);
      Misled(sessions, i, first, second, k + 1, q.lists, view.AfterAll(q.out))
  {
    var name := sessions[k].name;
    var a := Misleading(sessions, i, first, second)(k);
    NextShown(p, name, a, map[sessions[i].name := first], view);
    assert a == if k == i then Some(second) else if name == sessions[i].name then Some(first) else None;
  }

  /** The changes rebuild the whole exactly for session lists without two live sessions of
      one name: with two, some answers leave the view wrong. */
  lemma DuplicateNamesMislead(sessions: seq<SessionInfo>, i: nat, j: nat, first: seq<PaneInfo>, second: seq<PaneInfo>)
    requires i < j < |sessions| && !sessions[i].exited && !sessions[j].exited && sessions[i].name == sessions[j].name
    requires first != second
    ensures var known := map[sessions[i].name := first];
      var view := View(sessions, known);
      var p := PollOf(Some(sessions), sessions, Misleading(sessions, i, first, second), known, {});
      Agrees(Some(sessions), known, view) && !Agrees(Some(sessions), p.lists, view.AfterAll(p.out))
  {
    var known := map[sessions[i].name := first];
    var view := View(sessions, known);
    assert sessions[i] == SessionInfo(sessions[i].name, false);
    MisledView(sessions, i, first, second, view, |sessions|);
    var p := Listed(sessions, Misleading(sessions, i, first, second), known, {}, |sessions|);
    assert {} - {SessionList} == {};
    assert [] + p.out == p.out;
  }

  // ---- the server ----

  /** A spool record: its cursor, pane and agent, and the state its hook maps to, if any. */
  datatype SpoolRecord = SpoolRecord(cursor: nat, pane: PaneRef, agent: string, mapped: Option<Trackers.AgentState>) {
    predicate IsExit() { mapped == Some(Trackers.Exited) }
  }

  predicate Exists(lists: PaneLists, pane: PaneRef) {
    pane.session in lists && exists i :: 0 <= i < |lists[pane.session]| && lists[pane.session][i].id == pane.id
  }

  /** The failures whose session or pane is still there; the others would be reported afresh. */
  function StillFailing(p: Poll, sessions: seq<SessionInfo>): set<Scope> {
    set s | s in p.failing &&
      match s
      case PaneList(name) => IsLive(sessions, name)
      case Dump(pane) => Exists(p.lists, pane)
      case SessionList => true
  }

  function Messages(pane: PaneRef, events: seq<Emitted>): seq<Msg> {
    seq(|events|, i requires 0 <= i < |events| => AgentEvent(pane, events[i].agent, Trackers.Scrape, events[i].state, None))
  }

  class Server {
    var sessions: Option<seq<SessionInfo>>
    var panes: PaneLists
    var agents: map<PaneRef, Binding>
    var exitHold: set<PaneRef>
    var failing: set<Scope>
    /** What happened to each pane so far. */
    ghost var history: PaneRef -> seq<PaneStep>

    constructor ()
      ensures Valid() && sessions == None && panes == map[]
    {
      sessions, panes, agents, exitHold, failing := None, map[], map[], {}, {};
      history := (_: PaneRef) => [];
    }

    ghost function StateOf(pane: PaneRef): PaneState
      reads `agents, `exitHold
    {
      PaneState(if pane in agents then Some(agents[pane]) else None, pane in exitHold)
    }

    /** Every pane is in the state its own history leads to. */
    ghost predicate Valid()
      reads `agents, `exitHold, `history
    {
      forall pane :: StateOf(pane) == At(history(pane), |history(pane)|)
    }

    ghost method Note(pane: PaneRef, step: PaneStep, before: PaneState)
      requires before == At(history(pane), |history(pane)|) && StateOf(pane) == After(before, step).0
      requires forall p | p != pane :: StateOf(p) == At(history(p), |history(p)|)
      modifies `history
      ensures Valid() && OneStep(old(history), history, pane, step)
      ensures Events(history(pane), |history(pane)| - 1) == After(before, step).1
    {
      AtSnoc(history(pane), step);
      var h := history;
      history := (p: PaneRef) => if p == pane then h(p) + [step] else h(p);
    }

    /** One spool record: it binds its pane, or holds it back after an exit. */
    method Relay(rec: SpoolRecord) returns (out: seq<Msg>)
      requires Valid()
      modifies `agents, `exitHold, `history
      ensures Valid() && OneStep(old(history), history, rec.pane, HookRecord(rec.agent, rec.IsExit()))
      ensures out == if rec.mapped.None? then []
                     else [AgentEvent(rec.pane, rec.agent, Trackers.Hook, rec.mapped.value, Some(rec.cursor))]
    {
      ghost var before := StateOf(rec.pane);
      if rec.mapped == Some(Trackers.Exited) {
        agents := agents - {rec.pane};
        exitHold := exitHold + {rec.pane};
      } else {
        agents := agents[rec.pane := Binding(rec.agent, true, 0)];
        exitHold := exitHold - {rec.pane};
      }
      Note(rec.pane, HookRecord(rec.agent, rec.IsExit()), before);
      out := if rec.mapped.None? then []
             else [AgentEvent(rec.pane, rec.agent, Trackers.Hook, rec.mapped.value, Some(rec.cursor))];
    }

    /** One pane's screen: what scraping says about it is what its history calls for. */
    method ScrapePane(pane: PaneRef, dump: Option<Look>) returns (out: seq<Msg>)
      requires Valid()
      modifies `agents, `exitHold, `failing, `history
      ensures Valid() && OneStep(old(history), history, pane, Scraped(dump))
      ensures AllSent(out, old(history), history) && OnlyScrapes(out)
      ensures out == if dump.Some? then Messages(pane, Events(history(pane), |history(pane)| - 1))
                     else if Dump(pane) in old(failing) then [] else [Failure(Dump(pane))]
      ensures failing == if dump.Some? then old(failing) - {Dump(pane)} else old(failing) + {Dump(pane)}
    {
      ghost var before := StateOf(pane);
      if dump.None? {
        out := if Dump(pane) in failing then [] else [Failure(Dump(pane))];
        failing := failing + {Dump(pane)};
      } else {
        failing := failing - {Dump(pane)};
        out := Look(pane, dump.value);
      }
      Note(pane, Scraped(dump), before);
      ScrapeSent(pane, dump, out, old(history), history);
    }

    method Look(pane: PaneRef, look: Look) returns (out: seq<Msg>)
      modifies `agents, `exitHold
      ensures StateOf(pane) == AfterLook(old(StateOf(pane)), look).0
      ensures forall p | p != pane :: StateOf(p) == old(StateOf(p))
      ensures out == Messages(pane, AfterLook(old(StateOf(pane)), look).1)
    {
      out := [];
      var agent;
      if pane in agents {
        var b := agents[pane];
        if !b.fromHook {
          if look.found == Some(b.agent) || look.matches(b.agent) {
            agents := agents[pane := b.(misses := 0)];
          } else if b.misses + 1 < MISSES_TO_EXIT {
            agents := agents[pane := b.(misses := b.misses + 1)];
            return;
          } else {
            agents := agents - {pane};
            return [AgentEvent(pane, b.agent, Trackers.Scrape, Trackers.Exited, None)];
          }
        }
        agent := b.agent;
      } else {
        if look.found.None? {
          exitHold := exitHold - {pane};
          return;
        }
        if pane in exitHold {
          return;
        }
        agent := look.found.value;
        agents := agents[pane := Binding(agent, false, 0)];
        out := [AgentEvent(pane, agent, Trackers.Scrape, Trackers.Unknown, None)];
      }
      if look.observed(agent).Some? {
        out := out + [AgentEvent(pane, agent, Trackers.Scrape, look.observed(agent).value, None)];
      }
    }

    /** Every spool record read, in order. */
    method DrainSpool(records: seq<SpoolRecord>) returns (out: seq<Msg>)
      requires Valid()
      modifies `agents, `exitHold, `history
      ensures Valid() && AllSent(out, old(history), history) && NoLists(out)
      ensures out == HookMessages(records) && Went(old(history), history, Hooks(records))
    {
      out := [];
      NothingSent(history);
      for i := 0 to |records|
        invariant Valid() && AllSent(out, old(history), history) && NoLists(out)
        invariant out == HookMessages(records[..i]) && Went(old(history), history, Hooks(records[..i]))
      {
        ghost var before := history;
        var msgs := Relay(records[i]);
        HookSent(records[i], before, history);
        AllSentCat(out, msgs, old(history), before, history);
        assert records[..i + 1] == records[..i] + [records[i]];
        HookWent(records[..i], records[i], old(history), before, history);
        out := out + msgs;
      }
      assert records[..|records|] == records;
    }

    /** Every pane that has not exited, session by session. `dump(pane, i)` is its screen. */
    method ScrapePanes(dump: (PaneRef, nat) -> Option<Look>) returns (out: seq<Msg>)
      requires Valid()
      modifies `agents, `exitHold, `failing, `history
      ensures Valid() && AllSent(out, old(history), history) && OnlyScrapes(out)
      ensures Went(old(history), history, Scrapes(panes, dump, {}))
    {
      out := [];
      NothingSent(history);
      var todo := panes.Keys;
      assert forall p :: Scrapes(panes, dump, todo)(p) == [];
      while todo != {}
        invariant Valid() && todo <= panes.Keys && AllSent(out, old(history), history) && OnlyScrapes(out)
        invariant Went(old(history), history, Scrapes(panes, dump, todo))
        decreases |todo|
      {
        var session :| session in todo;
        ghost var before := history;
        var msgs := ScrapeSession(session, panes[session], dump);
        AllSentCat(out, msgs, old(history), before, history);
        SessionWent(panes, dump, todo, session, old(history), before, history);
        out := out + msgs;
        todo := todo - {session};
      }
    }

    method ScrapeSession(session: string, list: seq<PaneInfo>, dump: (PaneRef, nat) -> Option<Look>) returns (out: seq<Msg>)
      requires Valid()
      modifies `agents, `exitHold, `failing, `history
      ensures Valid() && AllSent(out, old(history), history) && OnlyScrapes(out)
      ensures Went(old(history), history, SessionScrapes(session, list, dump, |list|))
    {
      out := [];
      NothingSent(history);
      for i := 0 to |list|
        invariant Valid() && AllSent(out, old(history), history) && OnlyScrapes(out)
        invariant Went(old(history), history, SessionScrapes(session, list, dump, i))
      {
        ghost var before := history;
        if list[i].exited {
          ScrapeWent(session, list, dump, i, old(history), before, history);
        } else {
          var pane := PaneRef(session, list[i].id);
          var msgs := ScrapePane(pane, dump(pane, i));
          AllSentCat(out, msgs, old(history), before, history);
          ScrapeWent(session, list, dump, i, old(history), before, history);
          out := out + msgs;
        }
      }
    }

    /** Poll zellij: `list` is its session list, `None` for an error. */
    method PollPanes(list: Option<seq<SessionInfo>>, answer: nat -> Option<seq<PaneInfo>>) returns (out: seq<Msg>)
      requires Valid()
      modifies `sessions, `panes, `agents, `exitHold, `failing, `history
      ensures Valid()
      ensures list.None? ==> sessions == old(sessions) && panes == old(panes) && history == old(history) &&
                             failing == old(failing) + {SessionList} &&
                             out == if SessionList in old(failing) then [] else [Failure(SessionList)]
      ensures list.Some? ==>
        var p := PollOf(old(sessions), list.value, answer, old(panes), old(failing));
        && sessions == list && panes == p.lists && out == p.out && failing == StillFailing(p, list.value)
        && forall pane :: history(pane) == old(history)(pane) + [Polled(Exists(panes, pane))]
    {
      if list.None? {
        out := if SessionList in failing then [] else [Failure(SessionList)];
        failing := failing + {SessionList};
        return;
      }
      failing := failing - {SessionList};
      out := if sessions == list then [] else [Sessions(list.value)];
      sessions := list;
      var p := ListPanes(list.value, answer);
      out := out + p.out;
      failing := StillFailing(p, list.value);
      Forget(p.lists);
      panes := p.lists;
    }

    method ListPanes(list: seq<SessionInfo>, answer: nat -> Option<seq<PaneInfo>>) returns (poll: Poll)
      ensures poll == Listed(list, answer, panes, failing, |list|)
    {
      poll := Poll(map[], failing, []);
      for k := 0 to |list|
        invariant poll == Listed(list, answer, panes, failing, k)
      {
        var s := list[k];
        if !s.exited {
          match answer(k) {
            case Some(ps) =>
              var out := if s.name in panes && panes[s.name] == ps then poll.out else poll.out + [PanesOf(s.name, ps)];
              poll := Poll(poll.lists[s.name := ps], poll.failing - {PaneList(s.name)}, out);
            case None =>
              var out := if PaneList(s.name) in poll.failing then poll.out else poll.out + [Failure(PaneList(s.name))];
              var lists := if s.name in panes then poll.lists[s.name := panes[s.name]] else poll.lists;
              poll := Poll(lists, poll.failing + {PaneList(s.name)}, out);
          }
        }
      }
    }

    /** Forget the panes that are no longer listed. */
    method Forget(lists: PaneLists)
      requires Valid()
      modifies `agents, `exitHold, `history
      ensures Valid()
      ensures forall pane :: history(pane) == old(history)(pane) + [Polled(Exists(lists, pane))]
    {
      agents := map pane | pane in agents && Exists(lists, pane) :: agents[pane];
      exitHold := set pane | pane in exitHold && Exists(lists, pane);
      ghost var h := history;
      history := (pane: PaneRef) => h(pane) + [Polled(Exists(lists, pane))];
      forall pane
        ensures StateOf(pane) == At(history(pane), |history(pane)|)
      {
        AtSnoc(h(pane), Polled(Exists(lists, pane)));
      }
    }

    /** One scheduling step. `poll` and `scrape` are given when they are due. */
    method Tick(records: seq<SpoolRecord>, poll: Option<(Option<seq<SessionInfo>>, nat -> Option<seq<PaneInfo>>)>,
                scrape: Option<(PaneRef, nat) -> Option<Look>>, ghost view: View) returns (out: seq<Msg>)
      requires Valid()
      modifies this
      ensures Valid() && AllSent(out, old(history), history) && HooksIn(out) == HookMessages(records)
      ensures forall p ::
        history(p) ==
        old(history)(p) + HookSteps(records, p) +
        (if poll.Some? && poll.value.0.Some? then [Polled(Exists(panes, p))] else []) +
        (if scrape.Some? then ScrapesOf(panes, scrape.value, p) else [])
      ensures old(Agrees(sessions, panes, view)) && (poll.Some? && poll.value.0.Some? ==> DistinctLive(poll.value.0.value))
              ==> Agrees(sessions, panes, view.AfterAll(out))
    {
      out := DrainSpool(records);
      NoListsNoChange(view, out);
      HooksOnly(records);
      ghost var h0, h1 := old(history), history;
      ghost var polled := poll.Some? && poll.value.0.Some?;
      if poll.Some? {
        var msgs := PollAndReport(poll.value.0, poll.value.1, view);
        Append(out, msgs, view, h0, h1, history);
        out := out + msgs;
      }
      ghost var h2 := history;
      if scrape.Some? {
        var msgs := ScrapePanes(scrape.value);
        NoListsNoChange(view.AfterAll(out), msgs);
        NoHooksIn(msgs);
        Append(out, msgs, view, h0, h2, history);
        out := out + msgs;
      }
      WentAll(h0, h1, h2, history, records, polled, panes, scrape);
    }

    /** A poll, and what it means for a view and for the panes' histories. */
    method PollAndReport(list: Option<seq<SessionInfo>>, answer: nat -> Option<seq<PaneInfo>>, ghost view: View) returns (out: seq<Msg>)
      requires Valid()
      modifies `sessions, `panes, `agents, `exitHold, `failing, `history
      ensures Valid() && AllSent(out, old(history), history) && HooksIn(out) == []
      ensures Went(old(history), history, Polls(list.Some?, panes))
      ensures old(Agrees(sessions, panes, view)) && (list.Some? ==> DistinctLive(list.value))
              ==> Agrees(sessions, panes, view.AfterAll(out))
    {
      ghost var was, lists, failed, before := sessions, panes, failing, history;
      out := PollPanes(list, answer);
      if list.Some? {
        if Agrees(was, lists, view) && DistinctLive(list.value) {
          PollAgrees(was, list.value, answer, lists, failed, view);
        }
        PolledHasNoEvents(was, list.value, answer, lists, failed);
      } else {
        NoListsNoChange(view, out);
      }
      PollSent(out, before, history);
    }
  }

  // ---- messages and histories ----

  function HookMessage(rec: SpoolRecord): seq<Msg> {
    if rec.mapped.None? then []
    else [AgentEvent(rec.pane, rec.agent, Trackers.Hook, rec.mapped.value, Some(rec.cursor))]
  }

  function HookMessages(records: seq<SpoolRecord>): seq<Msg> {
    if records == [] then [] else HookMessages(records[..|records| - 1]) + HookMessage(records[|records| - 1])
  }

  /** What the records mean for one pane. */
  function HookSteps(records: seq<SpoolRecord>, pane: PaneRef): seq<PaneStep> {
    if records == [] then []
    else
      var rec := records[|records| - 1];
      HookSteps(records[..|records| - 1], pane) + if rec.pane == pane then [HookRecord(rec.agent, rec.IsExit())] else []
  }

  /** What scraping the first `n` panes of a list means for one pane. */
  function ScrapeSteps(list: seq<PaneInfo>, dump: (PaneRef, nat) -> Option<Look>, pane: PaneRef, n: nat): seq<PaneStep>
    requires n <= |list|
  {
    if n == 0 then []
    else
      ScrapeSteps(list, dump, pane, n - 1) +
      if list[n - 1].id == pane.id && !list[n - 1].exited then [Scraped(dump(pane, n - 1))] else []
  }

  function ScrapesOf(lists: PaneLists, dump: (PaneRef, nat) -> Option<Look>, pane: PaneRef): seq<PaneStep> {
    if pane.session in lists then ScrapeSteps(lists[pane.session], dump, pane, |lists[pane.session]|) else []
  }

  /** Every record that maps to a state is sent in its place, with its cursor. */
  lemma {:induction false} EachRecordSent(records: seq<SpoolRecord>, i: nat)
    requires i < |records|
    ensures var rec := records[i];
      if rec.mapped.Some?
      then HookMessages(records[..i]) + [AgentEvent(rec.pane, rec.agent, Trackers.Hook, rec.mapped.value, Some(rec.cursor))] <= HookMessages(records)
      else HookMessages(records[..i]) == HookMessages(records[..i + 1])
    decreases |records|
  {
    var n := |records| - 1;
    if i < n {
      EachRecordSent(records[..n], i);
      assert records[..n][..i] == records[..i] && records[..n][..i + 1] == records[..i + 1];
    } else {
      assert records[..i + 1] == records;
    }
  }

  /** Every record is a step of its own pane, in its place: a binding, or an exit. */
  lemma {:induction false} EachRecordIsAStep(records: seq<SpoolRecord>, i: nat)
    requires i < |records|
    ensures var rec := records[i];
      HookSteps(records[..i], rec.pane) + [HookRecord(rec.agent, rec.mapped == Some(Trackers.Exited))] <= HookSteps(records, rec.pane)
    ensures forall pane | pane != records[i].pane :: HookSteps(records[..i + 1], pane) == HookSteps(records[..i], pane)
    decreases |records|
  {
    var n := |records| - 1;
    assert records[..i + 1][..i] == records[..i];
    if i < n {
      EachRecordIsAStep(records[..n], i);
      assert records[..n][..i] == records[..i];
    }
  }

  /** Every pane that has not exited is scraped in its place. */
  lemma {:induction false} EachPaneScraped(lists: PaneLists, dump: (PaneRef, nat) -> Option<Look>, pane: PaneRef, i: nat, n: nat)
    requires pane.session in lists && i < n <= |lists[pane.session]|
    ensures n == |lists[pane.session]| ==> ScrapesOf(lists, dump, pane) == ScrapeSteps(lists[pane.session], dump, pane, n)
    ensures var info := lists[pane.session][i];
      ScrapeSteps(lists[pane.session], dump, pane, i) + (if info.id == pane.id && !info.exited then [Scraped(dump(pane, i))] else [])
      <= ScrapeSteps(lists[pane.session], dump, pane, n)
    decreases n
  {
    if i < n - 1 {
      EachPaneScraped(lists, dump, pane, i, n - 1);
    }
  }

  /** What scraping told the app about one pane. */
  function SentAbout(out: seq<Msg>, pane: PaneRef): seq<Emitted> {
    if out == [] then []
    else
      var m := out[|out| - 1];
      var before := SentAbout(out[..|out| - 1], pane);
      if m.AgentEvent? && m.source.Scrape? && m.pane == pane then before + [Emitted(m.agent, m.state)] else before
  }

  /** What a pane's history calls for at step `n`. */
  function EventsAt(h: seq<PaneStep>): nat -> seq<Emitted> { (n: nat) => if n < |h| then Events(h, n) else [] }

  /** What a pane's history calls for from step `lo` on. */
  function Due(h: seq<PaneStep>, lo: nat): seq<Emitted> { Seqs.Cat(EventsAt(h), lo, |h|) }

  /** Scraping told the app about every pane exactly what its history calls for. */
  ghost predicate AllSent(out: seq<Msg>, before: PaneRef -> seq<PaneStep>, after: PaneRef -> seq<PaneStep>) {
    forall p :: before(p) <= after(p) && SentAbout(out, p) == Due(after(p), |before(p)|)
  }

  lemma NothingSent(h: PaneRef -> seq<PaneStep>)
    ensures AllSent([], h, h)
  {
  }

  lemma {:induction false} SentAboutCat(a: seq<Msg>, b: seq<Msg>, pane: PaneRef)
    ensures SentAbout(a + b, pane) == SentAbout(a, pane) + SentAbout(b, pane)
    decreases |b|
  {
    if b == [] {
      assert a + b == a;
    } else {
      SentAboutCat(a, b[..|b| - 1], pane);
      assert (a + b)[..|a + b| - 1] == a + b[..|b| - 1];
    }
  }

  lemma {:induction false} DueSplit(h: seq<PaneStep>, g: seq<PaneStep>, lo: nat)
    requires lo <= |h| && h <= g
    ensures Due(g, lo) == Due(h, lo) + Due(g, |h|)
  {
    forall n: nat | lo <= n < |h|
      ensures EventsAt(g)(n) == EventsAt(h)(n)
    {
      EventsStable(h, g, n);
    }
    Seqs.CatSame(EventsAt(h), EventsAt(g), lo, |h|);
    Seqs.CatSplit(EventsAt(g), lo, |h|, |g|);
  }

  lemma {:induction false} DueLast(h: seq<PaneStep>)
    requires h != []
    ensures Due(h, |h| - 1) == Events(h, |h| - 1)
  {
    var n := |h| - 1;
    Seqs.CatSnoc(EventsAt(h), n, n);
    assert Seqs.Cat(EventsAt(h), n, n) == [];
    assert [] + Events(h, n) == Events(h, n);
  }

  lemma {:induction false} AllSentCat(a: seq<Msg>, b: seq<Msg>, h: PaneRef -> seq<PaneStep>, m: PaneRef -> seq<PaneStep>, g: PaneRef -> seq<PaneStep>)
    requires AllSent(a, h, m) && AllSent(b, m, g)
    ensures AllSent(a + b, h, g)
  {
    forall p
      ensures h(p) <= g(p) && SentAbout(a + b, p) == Due(g(p), |h(p)|)
    {
      SentAboutCat(a, b, p);
      DueSplit(m(p), g(p), |h(p)|);
    }
  }

  /** Messages after messages. */
  lemma {:induction false} Append(a: seq<Msg>, b: seq<Msg>, view: View, h: PaneRef -> seq<PaneStep>, m: PaneRef -> seq<PaneStep>, g: PaneRef -> seq<PaneStep>)
    requires AllSent(a, h, m) && AllSent(b, m, g)
    ensures AllSent(a + b, h, g) && HooksIn(a + b) == HooksIn(a) + HooksIn(b)
    ensures view.AfterAll(a + b) == view.AfterAll(a).AfterAll(b)
  {
    AllSentCat(a, b, h, m, g);
    HooksInCat(a, b);
    AfterAllSplit(view, a, b);
  }

  // Steps of all panes.

  /** Only `pane` made a step. */
  ghost predicate OneStep(before: PaneRef -> seq<PaneStep>, after: PaneRef -> seq<PaneStep>, pane: PaneRef, step: PaneStep) {
    forall p :: after(p) == if p == pane then before(p) + [step] else before(p)
  }

  /** Every pane's history went on by `more`. */
  ghost predicate Went(before: PaneRef -> seq<PaneStep>, after: PaneRef -> seq<PaneStep>, more: PaneRef -> seq<PaneStep>) {
    forall p :: after(p) == before(p) + more(p)
  }

  function Hooks(records: seq<SpoolRecord>): PaneRef -> seq<PaneStep> { (p: PaneRef) => HookSteps(records, p) }

  function Polls(listed: bool, lists: PaneLists): PaneRef -> seq<PaneStep> {
    (p: PaneRef) => if listed then [Polled(Exists(lists, p))] else []
  }

  function SessionScrapes(session: string, list: seq<PaneInfo>, dump: (PaneRef, nat) -> Option<Look>, n: nat): PaneRef -> seq<PaneStep>
    requires n <= |list|
  {
    (p: PaneRef) => if p.session == session then ScrapeSteps(list, dump, p, n) else []
  }

  /** The scrapes of every pane but those of the sessions in `todo`. */
  function Scrapes(lists: PaneLists, dump: (PaneRef, nat) -> Option<Look>, todo: set<string>): PaneRef -> seq<PaneStep> {
    (p: PaneRef) => if p.session in todo then [] else ScrapesOf(lists, dump, p)
  }

  /** Records, then a poll if one succeeded, then a scrape if it is due. */
  lemma WentAll(h0: PaneRef -> seq<PaneStep>, h1: PaneRef -> seq<PaneStep>, h2: PaneRef -> seq<PaneStep>, h3: PaneRef -> seq<PaneStep>,
                records: seq<SpoolRecord>, polled: bool, lists: PaneLists, scrape: Option<(PaneRef, nat) -> Option<Look>>)
    requires Went(h0, h1, Hooks(records)) && Went(h1, h2, Polls(polled, lists))
    requires if scrape.Some? then Went(h2, h3, Scrapes(lists, scrape.value, {})) else h3 == h2
    ensures forall p ::
      h3(p) ==
      h0(p) + HookSteps(records, p) + (if polled then [Polled(Exists(lists, p))] else []) +
      (if scrape.Some? then ScrapesOf(lists, scrape.value, p) else [])
  {
    forall p
      ensures h3(p) == h0(p) + HookSteps(records, p) + (if polled then [Polled(Exists(lists, p))] else []) +
        (if scrape.Some? then ScrapesOf(lists, scrape.value, p) else [])
    {
      assert h1(p) == h0(p) + HookSteps(records, p);
      assert h2(p) == h1(p) + if polled then [Polled(Exists(lists, p))] else [];
      assert h3(p) == h2(p) + if scrape.Some? then ScrapesOf(lists, scrape.value, p) else [];
    }
  }

  lemma HookWent(records: seq<SpoolRecord>, rec: SpoolRecord, h: PaneRef -> seq<PaneStep>, m: PaneRef -> seq<PaneStep>, g: PaneRef -> seq<PaneStep>)
    requires Went(h, m, Hooks(records))
    requires OneStep(m, g, rec.pane, HookRecord(rec.agent, rec.IsExit()))
    ensures Went(h, g, Hooks(records + [rec])) && HookMessages(records + [rec]) == HookMessages(records) + HookMessage(rec)
  {
    assert (records + [rec])[..|records|] == records;
    forall p
      ensures g(p) == h(p) + Hooks(records + [rec])(p)
    {
      assert m(p) == h(p) + Hooks(records)(p);
    }
  }

  lemma ScrapeWent(session: string, list: seq<PaneInfo>, dump: (PaneRef, nat) -> Option<Look>, i: nat,
                   h: PaneRef -> seq<PaneStep>, m: PaneRef -> seq<PaneStep>, g: PaneRef -> seq<PaneStep>)
    requires i < |list| && Went(h, m, SessionScrapes(session, list, dump, i))
    requires
      var pane := PaneRef(session, list[i].id);
      if list[i].exited then g == m else OneStep(m, g, pane, Scraped(dump(pane, i)))
    ensures Went(h, g, SessionScrapes(session, list, dump, i + 1))
  {
    forall p
      ensures g(p) == h(p) + SessionScrapes(session, list, dump, i + 1)(p)
    {
      assert m(p) == h(p) + SessionScrapes(session, list, dump, i)(p);
      assert p == PaneRef(session, list[i].id) <==> p.session == session && p.id == list[i].id;
    }
  }

  lemma SessionWent(lists: PaneLists, dump: (PaneRef, nat) -> Option<Look>, todo: set<string>, session: string,
                    h: PaneRef -> seq<PaneStep>, m: PaneRef -> seq<PaneStep>, g: PaneRef -> seq<PaneStep>)
    requires session in lists && session in todo && Went(h, m, Scrapes(lists, dump, todo))
    requires Went(m, g, SessionScrapes(session, lists[session], dump, |lists[session]|))
    ensures Went(h, g, Scrapes(lists, dump, todo - {session}))
  {
    forall p
      ensures g(p) == h(p) + Scrapes(lists, dump, todo - {session})(p)
    {
      assert m(p) == h(p) + Scrapes(lists, dump, todo)(p);
    }
  }

  /** One more step of one pane, and what is sent at it. */
  lemma {:induction false} StepSent(pane: PaneRef, step: PaneStep, out: seq<Msg>, h: PaneRef -> seq<PaneStep>, g: PaneRef -> seq<PaneStep>)
    requires OneStep(h, g, pane, step)
    requires forall p :: SentAbout(out, p) == if p == pane then Events(g(pane), |h(pane)|) else []
    ensures AllSent(out, h, g)
  {
    DueLast(g(pane));
  }

  lemma {:induction false} HookSent(rec: SpoolRecord, h: PaneRef -> seq<PaneStep>, g: PaneRef -> seq<PaneStep>)
    requires OneStep(h, g, rec.pane, HookRecord(rec.agent, rec.IsExit()))
    ensures AllSent(HookMessage(rec), h, g)
  {
    StepSent(rec.pane, HookRecord(rec.agent, rec.IsExit()), HookMessage(rec), h, g);
  }

  lemma {:induction false} SentMessages(pane: PaneRef, events: seq<Emitted>, p: PaneRef)
    ensures SentAbout(Messages(pane, events), p) == if p == pane then events else []
    decreases |events|
  {
    if events != [] {
      var n := |events| - 1;
      SentMessages(pane, events[..n], p);
      assert Messages(pane, events)[..n] == Messages(pane, events[..n]);
      assert events == events[..n] + [events[n]];
    }
  }

  lemma {:induction false} ScrapeSent(pane: PaneRef, dump: Option<Look>, out: seq<Msg>, h: PaneRef -> seq<PaneStep>, g: PaneRef -> seq<PaneStep>)
    requires OneStep(h, g, pane, Scraped(dump))
    requires if dump.Some? then out == Messages(pane, Events(g(pane), |h(pane)|)) else out == [] || out == [Failure(Dump(pane))]
    ensures AllSent(out, h, g) && OnlyScrapes(out)
  {
    forall p
      ensures SentAbout(out, p) == if p == pane then Events(g(pane), |h(pane)|) else []
    {
      if dump.Some? {
        SentMessages(pane, Events(g(pane), |h(pane)|), p);
      }
    }
    StepSent(pane, Scraped(dump), out, h, g);
  }

  lemma {:induction false} PollSent(out: seq<Msg>, h: PaneRef -> seq<PaneStep>, g: PaneRef -> seq<PaneStep>)
    requires forall m | m in out :: !m.AgentEvent?
    requires forall p :: g(p) == h(p) || exists b :: g(p) == h(p) + [Polled(b)]
    ensures AllSent(out, h, g) && HooksIn(out) == []
  {
    NoHooksIn(out);
    forall p
      ensures h(p) <= g(p) && SentAbout(out, p) == Due(g(p), |h(p)|)
    {
      NoneSent(out, p);
      if g(p) != h(p) {
        DueLast(g(p));
      }
    }
  }

  lemma {:induction false} NoneSent(out: seq<Msg>, pane: PaneRef)
    requires forall m | m in out :: !m.AgentEvent?
    ensures SentAbout(out, pane) == []
  {
    if out != [] {
      NoneSent(out[..|out| - 1], pane);
    }
  }

  /** The hook events among the messages. */
  function HooksIn(out: seq<Msg>): seq<Msg> {
    if out == [] then []
    else
      var m := out[|out| - 1];
      HooksIn(out[..|out| - 1]) + if m.AgentEvent? && m.source.Hook? then [m] else []
  }

  lemma {:induction false} HooksInCat(a: seq<Msg>, b: seq<Msg>)
    ensures HooksIn(a + b) == HooksIn(a) + HooksIn(b)
    decreases |b|
  {
    if b == [] {
      assert a + b == a;
    } else {
      HooksInCat(a, b[..|b| - 1]);
      assert (a + b)[..|a + b| - 1] == a + b[..|b| - 1];
    }
  }

  lemma {:induction false} NoHooksIn(out: seq<Msg>)
    requires forall m | m in out :: !(m.AgentEvent? && m.source.Hook?)
    ensures HooksIn(out) == []
  {
    if out != [] {
      NoHooksIn(out[..|out| - 1]);
    }
  }

  lemma {:induction false} HooksOnly(records: seq<SpoolRecord>)
    ensures HooksIn(HookMessages(records)) == HookMessages(records)
  {
    if records != [] {
      var n := |records| - 1;
      HooksOnly(records[..n]);
      HooksInCat(HookMessages(records[..n]), HookMessage(records[n]));
      assert HooksIn(HookMessage(records[n])) == HookMessage(records[n]);
    }
  }

  /** Scrape events and failures only. */
  predicate OnlyScrapes(out: seq<Msg>) {
    forall m | m in out :: !m.Sessions? && !m.PanesOf? && !(m.AgentEvent? && m.source.Hook?)
  }

  /** No session or pane list among the messages. */
  predicate NoLists(out: seq<Msg>) { forall m | m in out :: !m.Sessions? && !m.PanesOf? }

  lemma {:induction false} NoListsNoChange(view: View, out: seq<Msg>)
    requires NoLists(out)
    ensures view.AfterAll(out) == view
    decreases |out|
  {
    if out != [] {
      NoListsNoChange(view, out[..|out| - 1]);
    }
  }

  lemma {:induction false} ListedHasNoEvents(sessions: seq<SessionInfo>, answer: nat -> Option<seq<PaneInfo>>, known: PaneLists, failing: set<Scope>, k: nat)
    requires k <= |sessions|
    ensures forall m | m in Listed(sessions, answer, known, failing, k).out :: !m.AgentEvent?
  {
    if k > 0 {
      ListedHasNoEvents(sessions, answer, known, failing, k - 1);
    }
  }

  lemma {:induction false} PolledHasNoEvents(was: Option<seq<SessionInfo>>, sessions: seq<SessionInfo>, answer: nat -> Option<seq<PaneInfo>>,
                                             known: PaneLists, failing: set<Scope>)
    ensures forall m | m in PollOf(was, sessions, answer, known, failing).out :: !m.AgentEvent?
  {
    ListedHasNoEvents(sessions, answer, known, failing - {SessionList}, |sessions|);
  }
}
