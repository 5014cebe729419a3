/**
 The app's monitor: it folds every host's events into one view and a tracker of agents,
 and tells the user interface only what changed.
 */
module Monitors {
  import opened Wrappers
  import Trackers
  import Servers

  type Key = Trackers.Key

  datatype Conn = Connecting | Up | Retrying(retryIn: nat, reason: string) | NeedsUser(problem: string)

  datatype HostView = HostView(probe: Option<Conn>, term: Option<Conn>, view: Servers.View)

  const NEW_HOST := HostView(None, None, Servers.View([], map[]))

  datatype HostEvent =
    | Probe(conn: Conn)
    | Term(term: Option<Conn>)
    | SessionList(sessions: seq<Servers.SessionInfo>)
    | PaneList(session: string, panes: seq<Servers.PaneInfo>)
    | Agent(ev: Trackers.Event)
    | Note(text: string) // passed on unchanged: hello, hooks, notes, metrics, errors

  /** What reaches the monitor: an event of a host, or the user who has seen an agent. */
  datatype Act = Heard(id: string, ev: HostEvent, now: nat) | Seen(key: Key)

  datatype Update =
    | HostChanged(id: string, probe: Conn, term: Option<Conn>)
    | SessionsShown(id: string, sessions: seq<Servers.SessionInfo>)
    | PanesShown(id: string, session: string, panes: seq<Servers.PaneInfo>)
    | AgentChanged(rec: Trackers.Record)
    | Alerted(alert: Trackers.Alert)
    | Noted(id: string, text: string)

  /** What an event changes in the view of its host. */
  function Changed(was: HostView, ev: HostEvent): HostView {
    match ev
    case Probe(conn) => was.(probe := Some(conn))
    case Term(term) => was.(term := term)
    case SessionList(ss) => was.(view := was.view.After(Servers.Sessions(ss)))
    case PaneList(session, ps) => was.(view := was.view.After(Servers.PanesOf(session, ps)))
    case Agent(_) | Note(_) => was
  }

  // ---- what a consumer of the updates knows ----

  /** What the user interface shows of an agent. */
  datatype Visible = Visible(agent: string, state: Trackers.AgentState, message: Option<string>, acknowledged: bool, since: nat)

  function Shown(rec: Trackers.Record): Visible { Visible(rec.agent, rec.state, rec.message, rec.acknowledged, rec.since) }

  type Screen = map<Key, Visible>

  /** A consumer that keeps only the last record it was sent of each agent. */
  function AfterUpdate(screen: Screen, u: Update): Screen {
    if u.AgentChanged? then screen[u.rec.key := Shown(u.rec)] else screen
  }

  function AfterUpdates(screen: Screen, out: seq<Update>): Screen {
    if out == [] then screen else AfterUpdate(AfterUpdates(screen, out[..|out| - 1]), out[|out| - 1])
  }

  /** The screen shows exactly the tracked agents, each as it is now. */
  ghost predicate InSync(screen: Screen, agents: Trackers.Agents) {
    && screen.Keys == agents.Keys
    && forall k | k in agents :: screen[k] == Shown(agents[k])
  }

  ghost predicate Keyed(agents: Trackers.Agents) { forall k | k in agents :: agents[k].key == k }

  lemma {:induction false} AfterUpdatesSnoc(screen: Screen, out: seq<Update>, u: Update)
    ensures AfterUpdates(screen, out + [u]) == AfterUpdate(AfterUpdates(screen, out), u)
  {
    assert (out + [u])[..|out|] == out;
  }

  lemma {:induction false} AfterUpdatesSplit(screen: Screen, a: seq<Update>, b: seq<Update>)
    ensures AfterUpdates(screen, a + b) == AfterUpdates(AfterUpdates(screen, a), b)
    decreases |b|
  {
    if b == [] {
      assert a + b == a;
    } else {
      AfterUpdatesSplit(screen, a, b[..|b| - 1]);
      assert (a + b)[..|a + b| - 1] == a + b[..|b| - 1];
    }
  }

  /** An event changes what is visible of an agent only when it changes the agent's state
      or acknowledgement, or when the agent is new. */
  lemma VisibleChange(cfg: Trackers.Config, key: Key, was: Option<Trackers.Record>, ev: Trackers.Event)
    ensures var rec := Trackers.Applied(cfg, key, was, ev).0;
      was.Some? && rec.state == was.value.state && rec.acknowledged == was.value.acknowledged ==> Shown(rec) == Shown(was.value)
  {
  }

  lemma {:induction false} SyncAfterChange(screen: Screen, out: seq<Update>, agents: Trackers.Agents, rec: Trackers.Record)
    requires InSync(AfterUpdates(screen, out), agents)
    ensures InSync(AfterUpdates(screen, out + [AgentChanged(rec)]), agents[rec.key := rec])
  {
    AfterUpdatesSnoc(screen, out, AgentChanged(rec));
  }

  lemma {:induction false} SyncAfterOther(screen: Screen, out: seq<Update>, agents: Trackers.Agents, u: Update)
    requires InSync(AfterUpdates(screen, out), agents) && !u.AgentChanged?
    ensures InSync(AfterUpdates(screen, out + [u]), agents)
  {
    AfterUpdatesSnoc(screen, out, u);
  }

  /** The updates for one agent event: the record when its state or acknowledgement is new,
      and the alert. */
  function EventUpdates(was: Option<Trackers.Record>, rec: Trackers.Record, alert: Option<Trackers.Alert>): seq<Update> {
    (if was.None? || was.value.state != rec.state || was.value.acknowledged != rec.acknowledged then [AgentChanged(rec)] else []) +
    (if alert.Some? then [Alerted(alert.value)] else [])
  }

  /** The record is sent exactly if the agent is new or its state or acknowledgement is, and an alert
      exactly if it is raised; the record comes first, and there is nothing else. */
  lemma EventUpdatesIff(was: Option<Trackers.Record>, rec: Trackers.Record, alert: Option<Trackers.Alert>, u: Update)
    ensures var out := EventUpdates(was, rec, alert);
      && (u in out <==>
          || (u == AgentChanged(rec) && (was == None || was.value.state != rec.state || was.value.acknowledged != rec.acknowledged))
          || (alert.Some? && u == Alerted(alert.value)))
      && (|out| == 2 ==> out == [AgentChanged(rec), Alerted(alert.value)]) && |out| <= 2
  {
    var first := if was.None? || was.value.state != rec.state || was.value.acknowledged != rec.acknowledged then [AgentChanged(rec)] else [];
    var second := if alert.Some? then [Alerted(alert.value)] else [];
    assert EventUpdates(was, rec, alert) == first + second;
    assert u in first + second <==> u in first || u in second;
  }

  lemma {:induction false} EventKeepsSync(cfg: Trackers.Config, agents: Trackers.Agents, id: string, ev: Trackers.Event, screen: Screen)
    requires Keyed(agents) && InSync(screen, agents)
    ensures var key := Trackers.KeyOf(id, ev);
      var (rec, alert) := Trackers.Applied(cfg, key, Trackers.Find(agents, key), ev);
      Keyed(agents[key := rec]) && InSync(AfterUpdates(screen, EventUpdates(Trackers.Find(agents, key), rec, alert)), agents[key := rec])
  {
    var key := Trackers.KeyOf(id, ev);
    var was := Trackers.Find(agents, key);
    var (rec, alert) := Trackers.Applied(cfg, key, was, ev);
    VisibleChange(cfg, key, was, ev);
    assert rec.key == key;
    var first := EventUpdates(was, rec, None);
    assert InSync(AfterUpdates(screen, first), agents[key := rec]) by {
      if was.None? || was.value.state != rec.state || was.value.acknowledged != rec.acknowledged {
        SyncAfterChange(screen, [], agents, rec);
        assert first == [] + [AgentChanged(rec)];
      } else {
        assert first == [];
      }
    }
    if alert.Some? {
      SyncAfterOther(screen, first, agents[key := rec], Alerted(alert.value));
      assert EventUpdates(was, rec, alert) == first + [Alerted(alert.value)];
    }
  }

  /** The agents whose pane is gone are exited, the others unchanged. */
  ghost predicate Swept(before: Trackers.Agents, after: Trackers.Agents, gone: set<Key>, now: nat) {
    && after.Keys == before.Keys
    && forall k | k in before ::
         after[k] == if k in gone then before[k].(state := Trackers.Exited, since := now, acknowledged := true) else before[k]
  }

  lemma NothingSwept(agents: Trackers.Agents, now: nat)
    ensures Swept(agents, agents, {}, now)
  {
  }

  lemma SweptNext(before: Trackers.Agents, agents: Trackers.Agents, done: set<Key>, key: Key, now: nat)
    requires Swept(before, agents, done, now) && key in before && key !in done
    ensures key in agents && Swept(before, Trackers.Gone(agents, key, now), done + {key}, now)
  {
  }

  /** Each of these agents is reported once, as it is now, and nothing else is. */
  ghost predicate Reported(out: seq<Update>, agents: Trackers.Agents, gone: set<Key>) {
    && |out| == |gone| && gone <= agents.Keys
    && (forall i | 0 <= i < |out| :: out[i].AgentChanged? && out[i].rec.key in gone && out[i].rec == agents[out[i].rec.key])
    && (forall i, j | 0 <= i < j < |out| :: out[i] != out[j])
  }

  lemma NothingReported(agents: Trackers.Agents)
    ensures Reported([], agents, {})
  {
  }

  lemma ReportedNext(out: seq<Update>, agents: Trackers.Agents, done: set<Key>, key: Key, now: nat)
    requires Reported(out, agents, done) && key in agents && key !in done && Keyed(agents)
    ensures var after := Trackers.Gone(agents, key, now);
      Reported(out + [AgentChanged(after[key])], after, done + {key})
  {
    var after := Trackers.Gone(agents, key, now);
    var more := out + [AgentChanged(after[key])];
    assert after[key].key == key;
    forall i | 0 <= i < |more|
      ensures more[i].AgentChanged? && more[i].rec.key in done + {key} && more[i].rec == after[more[i].rec.key]
    {
    }
  }

  lemma NoUpdates(screen: Screen)
    ensures AfterUpdates(screen, []) == screen
  {
  }

  /** The agents in `done` are exited and reported, and the screen has kept up. */
  ghost predicate Sweeping(before: Trackers.Agents, agents: Trackers.Agents, done: set<Key>, now: nat, screen: Screen, out: seq<Update>) {
    && Swept(before, agents, done, now) && Reported(out, agents, done)
    && Keyed(agents) && InSync(AfterUpdates(screen, out), agents)
  }

  class Monitor {
    const tracker: Trackers.Tracker
    var hosts: map<string, HostView>

    constructor (cfg: Trackers.Config)
      ensures fresh(tracker) && hosts == map[] && tracker.agents == map[] && tracker.cfg == cfg
    {
      tracker := new Trackers.Tracker(cfg);
      hosts := map[];
    }

    /** The user has seen an agent's alert. */
    method Acknowledge(key: Key, ghost screen: Screen) returns (out: seq<Update>)
      requires Keyed(tracker.agents) && InSync(screen, tracker.agents)
      modifies tracker
      ensures tracker.agents.Keys == old(tracker.agents).Keys
      ensures forall k | k in tracker.agents ::
        tracker.agents[k] == if k == key then old(tracker.agents)[k].(acknowledged := true) else old(tracker.agents)[k]
      ensures out == if key in old(tracker.agents) && !old(tracker.agents)[key].acknowledged then [AgentChanged(tracker.agents[key])] else []
      ensures Keyed(tracker.agents) && InSync(AfterUpdates(screen, out), tracker.agents)
    {
      out := [];
      if key in tracker.agents {
        var was := tracker.agents[key].acknowledged;
        var _ := tracker.Acknowledge(key);
        if !was {
          out := out + [AgentChanged(tracker.agents[key])];
          AfterUpdatesSnoc(screen, [], AgentChanged(tracker.agents[key]));
        }
      }
    }

    /** Agents of a host, or of one of its sessions, have exited when their pane is gone. */
    method AgentsGone(id: string, session: Option<string>, live: (string, nat) -> bool, now: nat, ghost screen: Screen)
      returns (out: seq<Update>)
      requires Keyed(tracker.agents) && InSync(screen, tracker.agents)
      modifies tracker
      ensures Keyed(tracker.agents) && InSync(AfterUpdates(screen, out), tracker.agents)
      ensures var gone := Lost(old(tracker.agents), id, session, live);
        Swept(old(tracker.agents), tracker.agents, gone, now) && Reported(out, tracker.agents, gone)
      ensures tracker.agents.Keys == old(tracker.agents).Keys
      ensures forall k | k in tracker.agents ::
        var was := old(tracker.agents)[k];
        tracker.agents[k] == if k.host == id && (session.None? || k.session == session.value) && was.state != Trackers.Exited && !live(k.session, k.pane)
                             then was.(state := Trackers.Exited, since := now, acknowledged := true) else was
    {
      hide InSync, Keyed, Swept, Reported, Lost, AfterUpdates;
      out := [];
      var agents := tracker.agents;
      var gone := Lost(agents, id, session, live);
      ghost var all := gone;
      NothingSwept(agents, now);
      NothingReported(agents);
      NoUpdates(screen);
      assert all - gone == {};
      while gone != {}
        invariant gone <= all <= agents.Keys
        invariant Sweeping(agents, tracker.agents, all - gone, now, screen, out)
        decreases |gone|
      {
        var k :| k in gone;
        out := OneGone(k, now, agents, all - gone, screen, out);
        assert all - gone + {k} == all - (gone - {k});
        gone := gone - {k};
      }
      assert all - {} == all;
      LostMeans(agents, tracker.agents, id, session, live, now);
    }

    method OneGone(key: Key, now: nat, ghost before: Trackers.Agents, ghost done: set<Key>, ghost screen: Screen, sofar: seq<Update>)
      returns (out: seq<Update>)
      requires key in before && key !in done && Sweeping(before, tracker.agents, done, now, screen, sofar)
      modifies tracker
      ensures Sweeping(before, tracker.agents, done + {key}, now, screen, out)
    {
      hide InSync, Swept, Reported;
      ghost var agents := tracker.agents;
      SweptNext(before, agents, done, key, now);
      ReportedNext(sofar, agents, done, key, now);
      tracker.PaneGone(key, now);
      SyncAfterChange(screen, sofar, agents, tracker.agents[key]);
      out := sofar + [AgentChanged(tracker.agents[key])];
    }

    /** One agent event: the record is sent on when its state or acknowledgement changed. */
    method AgentEvent(id: string, ev: Trackers.Event, ghost screen: Screen) returns (out: seq<Update>)
      requires Keyed(tracker.agents) && InSync(screen, tracker.agents)
      modifies tracker
      ensures tracker.agents == Trackers.After(tracker.cfg, old(tracker.agents), Trackers.Apply(id, ev))
      ensures Keyed(tracker.agents) && InSync(AfterUpdates(screen, out), tracker.agents)
      ensures var key := Trackers.Key(id, ev.session, ev.pane);
        out == EventUpdates(Trackers.Find(old(tracker.agents), key), tracker.agents[key],
                            Trackers.Applied(tracker.cfg, key, Trackers.Find(old(tracker.agents), key), ev).1)
    {
      EventKeepsSync(tracker.cfg, tracker.agents, id, ev, screen);
      var key := Trackers.KeyOf(id, ev);
      var before := Trackers.Find(tracker.agents, key);
      var alert := tracker.Apply(id, ev);
      var rec := tracker.agents[key];
      out := [];
      if before.None? || before.value.state != rec.state || before.value.acknowledged != rec.acknowledged {
        out := out + [AgentChanged(rec)];
      }
      if alert.Some? {
        out := out + [Alerted(alert.value)];
      }
    }

    /** One event of a host. Whatever mix of events, pane losses and acknowledgements, a
        consumer that keeps the last record per agent shows exactly the tracked agents. */
    method Apply(id: string, ev: HostEvent, now: nat, ghost screen: Screen) returns (out: seq<Update>)
      requires Keyed(tracker.agents) && InSync(screen, tracker.agents)
      modifies this, tracker
      ensures Keyed(tracker.agents) && InSync(AfterUpdates(screen, out), tracker.agents)
      ensures var was := if id in old(hosts) then old(hosts)[id] else HostView(None, None, Servers.View([], map[]));
        hosts == old(hosts)[id := Changed(was, ev)]
      ensures Tracked(tracker.cfg, old(tracker.agents), id, ev, now, tracker.agents)
      ensures ev.Agent? ==>
        var key := Trackers.Key(id, ev.ev.session, ev.ev.pane);
        out == EventUpdates(Trackers.Find(old(tracker.agents), key), tracker.agents[key],
                            Trackers.Applied(tracker.cfg, key, Trackers.Find(old(tracker.agents), key), ev.ev).1)
      ensures ev.Probe? || ev.Term? ==> out == [HostChanged(id, hosts[id].probe.GetOr(Connecting), hosts[id].term)]
      ensures ev.Note? ==> out == [Noted(id, ev.text)]
      ensures ev.SessionList? ==> out != [] && out[0] == SessionsShown(id, ev.sessions)
      ensures ev.PaneList? ==> out != [] && out[0] == PanesShown(id, ev.session, ev.panes)
      ensures (ev.SessionList? || ev.PaneList?) && out != [] ==>
        Reported(out[1..], tracker.agents, Ended(old(tracker.agents), tracker.agents))
    {
      hide InSync, Keyed, Swept, Lost, LiveSessions, LivePanes, Reported, Ended, Trackers.Applied;
      ghost var before := tracker.agents;
      var view := Changed(if id in hosts then hosts[id] else NEW_HOST, ev);
      hosts := hosts[id := view];
      match ev {
        case Probe(_) | Term(_) =>
          out := [HostChanged(id, view.probe.GetOr(Connecting), view.term)];
          SyncAfterOther(screen, [], tracker.agents, out[0]);
        case Note(text) =>
          out := [Noted(id, text)];
          SyncAfterOther(screen, [], tracker.agents, out[0]);
        case Agent(event) =>
          out := AgentEvent(id, event, screen);
        case SessionList(ss) =>
          out := AnnounceAndSweep(id, None, LiveSessions(ss), now, SessionsShown(id, ss), screen);
          LostAreEnded(before, tracker.agents, id, None, LiveSessions(ss), now);
        case PaneList(session, ps) =>
          out := AnnounceAndSweep(id, Some(session), LivePanes(ps), now, PanesShown(id, session, ps), screen);
          LostAreEnded(before, tracker.agents, id, Some(session), LivePanes(ps), now);
      }
    }

    /** A whole history: a consumer that keeps the last record per agent always shows the tracked agents. */
    method Follow(acts: seq<Act>) returns (out: seq<Update>)
      requires tracker.agents == map[]
      modifies this, tracker
      ensures Keyed(tracker.agents) && InSync(AfterUpdates(map[], out), tracker.agents)
    {
      hide Swept, Lost, Trackers.Applied, Tracked;
      out := [];
      for i := 0 to |acts|
        invariant Keyed(tracker.agents) && InSync(AfterUpdates(map[], out), tracker.agents)
      {
        var more;
        match acts[i] {
          case Heard(id, ev, now) => more := Apply(id, ev, now, AfterUpdates(map[], out));
          case Seen(key) => more := Acknowledge(key, AfterUpdates(map[], out));
        }
        AfterUpdatesSplit(map[], out, more);
        out := out + more;
      }
    }

    /** An update and then the agents it took the panes from. */
    method AnnounceAndSweep(id: string, session: Option<string>, live: (string, nat) -> bool, now: nat, u: Update, ghost screen: Screen)
      returns (out: seq<Update>)
      requires Keyed(tracker.agents) && InSync(screen, tracker.agents) && !u.AgentChanged?
      modifies tracker
      ensures Keyed(tracker.agents) && InSync(AfterUpdates(screen, out), tracker.agents) && [u] <= out
      ensures var gone := Lost(old(tracker.agents), id, session, live);
        Swept(old(tracker.agents), tracker.agents, gone, now) && Reported(out[1..], tracker.agents, gone)
    {
      SyncAfterOther(screen, [], tracker.agents, u);
      assert [] + [u] == [u];
      var more := AgentsGone(id, session, live, now, AfterUpdates(screen, [u]));
      AfterUpdatesSplit(screen, [u], more);
      out := [u] + more;
    }
  }

  /** The agents that have exited just now. */
  ghost function Ended(before: Trackers.Agents, after: Trackers.Agents): set<Key> {
    set k | k in before && k in after && before[k].state != Trackers.Exited && after[k].state == Trackers.Exited
  }

  /** Only the host's own agents are lost, only those of the session if one is given, and only those
      that still ran while their pane is not live. */
  lemma LostMeans(before: Trackers.Agents, after: Trackers.Agents, id: string, session: Option<string>, live: (string, nat) -> bool, now: nat)
    requires Swept(before, after, Lost(before, id, session, live), now)
    ensures after.Keys == before.Keys
    ensures forall k | k in after ::
      after[k] == if k.host == id && (session.None? || k.session == session.value) && before[k].state != Trackers.Exited && !live(k.session, k.pane)
                  then before[k].(state := Trackers.Exited, since := now, acknowledged := true) else before[k]
  {
  }

  lemma LostAreEnded(before: Trackers.Agents, after: Trackers.Agents, id: string, session: Option<string>, live: (string, nat) -> bool, now: nat)
    requires Swept(before, after, Lost(before, id, session, live), now)
    ensures Ended(before, after) == Lost(before, id, session, live)
  {
  }

  /** Which agents a session list leaves alive. */
  function LiveSessions(sessions: seq<Servers.SessionInfo>): (string, nat) -> bool {
    (session: string, _: nat) => Servers.IsLive(sessions, session)
  }

  /** Which agents of its session a pane list leaves alive. */
  function LivePanes(panes: seq<Servers.PaneInfo>): (string, nat) -> bool {
    (_: string, pane: nat) => ListsPane(panes, pane)
  }

  /** What an event means for the tracked agents: those whose pane a list no longer shows have exited. */
  ghost predicate Tracked(cfg: Trackers.Config, before: Trackers.Agents, id: string, ev: HostEvent, now: nat, after: Trackers.Agents) {
    match ev
    case Agent(event) => after == Trackers.After(cfg, before, Trackers.Apply(id, event))
    case SessionList(ss) => Swept(before, after, Lost(before, id, None, LiveSessions(ss)), now)
    case PaneList(session, ps) => Swept(before, after, Lost(before, id, Some(session), LivePanes(ps)), now)
    case _ => after == before
  }

  /** An event of a host leaves the agents of every other host alone. A session list ends those of the
      host's running agents whose session is not live in it, a pane list those of its own session whose
      pane is not live in it; nothing else ends or changes, and only an agent event adds an agent. */
  lemma TrackedMeans(cfg: Trackers.Config, before: Trackers.Agents, id: string, ev: HostEvent, now: nat, after: Trackers.Agents)
    requires Tracked(cfg, before, id, ev, now, after)
    ensures ev.Agent? ==> after.Keys == before.Keys + {Trackers.Key(id, ev.ev.session, ev.ev.pane)}
    ensures ev.Agent? ==> forall k | k in before && k != Trackers.Key(id, ev.ev.session, ev.ev.pane) :: after[k] == before[k]
    ensures !ev.Agent? ==> after.Keys == before.Keys
    ensures forall k | k in before && k.host != id :: after[k] == before[k]
    ensures ev.SessionList? ==> forall k | k in before && k.host == id ::
      after[k] == if before[k].state != Trackers.Exited && Servers.SessionInfo(k.session, false) !in ev.sessions
                  then before[k].(state := Trackers.Exited, since := now, acknowledged := true) else before[k]
    ensures ev.PaneList? ==> forall k | k in before && k.host == id ::
      after[k] == if && before[k].state != Trackers.Exited && k.session == ev.session
                     && forall info | info in ev.panes :: info.id == k.pane ==> info.exited
                  then before[k].(state := Trackers.Exited, since := now, acknowledged := true) else before[k]
    ensures ev.Probe? || ev.Term? || ev.Note? ==> after == before
  {
    if ev.PaneList? {
      forall pane: nat
        ensures ListsPane(ev.panes, pane) <==> !forall info | info in ev.panes :: info.id == pane ==> info.exited
      {
        ListsPaneIff(ev.panes, pane);
      }
    }
  }

  lemma ListsPaneIff(panes: seq<Servers.PaneInfo>, id: nat)
    ensures ListsPane(panes, id) <==> !forall info | info in panes :: info.id == id ==> info.exited
  {
    if i :| 0 <= i < |panes| && panes[i].id == id && !panes[i].exited {
      assert panes[i] in panes;
    }
  }

  /** A host's view after an event: the connection reported, the sessions listed with the pane lists of
      the live ones among them, or the one pane list; everything else as it was. */
  lemma ChangedMeans(was: HostView, ev: HostEvent)
    ensures var now := Changed(was, ev);
      && now.probe == (if ev.Probe? then Some(ev.conn) else was.probe)
      && now.term == (if ev.Term? then ev.term else was.term)
      && now.view.sessions == (if ev.SessionList? then ev.sessions else was.view.sessions)
      && (forall name :: name in now.view.panes <==>
            || (name in was.view.panes && (ev.SessionList? ==> Servers.SessionInfo(name, false) in ev.sessions))
            || (ev.PaneList? && name == ev.session))
      && (forall name | name in now.view.panes ::
            now.view.panes[name] == if ev.PaneList? && name == ev.session then ev.panes else was.view.panes[name])
  {
  }

  predicate ListsPane(panes: seq<Servers.PaneInfo>, id: nat) {
    exists i :: 0 <= i < |panes| && panes[i].id == id && !panes[i].exited
  }

  /** The agents of a host that have not exited and whose pane is gone. */
  function Lost(agents: Trackers.Agents, id: string, session: Option<string>, live: (string, nat) -> bool): (gone: set<Key>)
    ensures gone <= agents.Keys
  {
    set k | k in agents && k.host == id && (session.None? || k.session == session.value) &&
            agents[k].state != Trackers.Exited && !live(k.session, k.pane)
  }
}
