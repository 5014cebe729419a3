/**
 What one poll does, session by session: which pane lists are held after it, which messages
 it sends and which failures it remembers. No two live sessions share a name.
 */
module Polls {
  import opened Wrappers
  import opened Servers

  predicate LiveAt(sessions: seq<SessionInfo>, i: nat) { i < |sessions| && !sessions[i].exited }

  /** Some session before `k` is live and has this name. */
  ghost predicate Visited(sessions: seq<SessionInfo>, k: nat, name: string) {
    exists i: nat :: i < k && LiveAt(sessions, i) && sessions[i].name == name
  }

  lemma {:induction false} VisitedNext(sessions: seq<SessionInfo>, k: nat, name: string)
    requires k < |sessions|
    ensures Visited(sessions, k + 1, name) <==> Visited(sessions, k, name) || (!sessions[k].exited && sessions[k].name == name)
  {
    if !sessions[k].exited {
      assert LiveAt(sessions, k);
    }
  }

  /** A session is visited once. */
  lemma NotYet(sessions: seq<SessionInfo>, k: nat)
    requires DistinctLive(sessions) && LiveAt(sessions, k)
    ensures !Visited(sessions, k, sessions[k].name)
  {
  }

  // ---- the lists ----

  /** After `k` sessions: an answer replaces the list, a failed listing keeps the known one. */
  ghost predicate Kept(sessions: seq<SessionInfo>, answer: nat -> Option<seq<PaneInfo>>, known: PaneLists, lists: PaneLists, k: nat) {
    && (forall i: nat | i < k && LiveAt(sessions, i) ::
          var name := sessions[i].name;
          && (answer(i).Some? ==> name in lists && lists[name] == answer(i).value)
          && (answer(i).None? && name in known ==> name in lists && lists[name] == known[name])
          && (answer(i).None? && name !in known ==> name !in lists))
    && (forall name | name in lists :: Visited(sessions, k, name))
  }

  lemma {:induction false} NextKept(sessions: seq<SessionInfo>, answer: nat -> Option<seq<PaneInfo>>, known: PaneLists, p: Poll, k: nat)
    requires DistinctLive(sessions) && LiveAt(sessions, k) && Kept(sessions, answer, known, p.lists, k)
    ensures Kept(sessions, answer, known, Next(p, sessions[k].name, answer(k), known).lists, k + 1)
  {
    NotYet(sessions, k);
    forall name
      ensures Visited(sessions, k + 1, name) <==> Visited(sessions, k, name) || sessions[k].name == name
    {
      VisitedNext(sessions, k, name);
    }
  }

  lemma {:induction false} ListedKept(sessions: seq<SessionInfo>, answer: nat -> Option<seq<PaneInfo>>, known: PaneLists, failing: set<Scope>, k: nat)
    requires DistinctLive(sessions) && k <= |sessions|
    ensures Kept(sessions, answer, known, Listed(sessions, answer, known, failing, k).lists, k)
  {
    hide Next;
    if k > 0 {
      ListedKept(sessions, answer, known, failing, k - 1);
      if LiveAt(sessions, k - 1) {
        NextKept(sessions, answer, known, Listed(sessions, answer, known, failing, k - 1), k - 1);
      }
    }
  }

  /** The lists held after a poll: the answer for every live session that gave one, the list
      known before for one whose listing failed, and none for any other session. */
  lemma PollHolds(was: Option<seq<SessionInfo>>, sessions: seq<SessionInfo>, answer: nat -> Option<seq<PaneInfo>>,
                  known: PaneLists, failing: set<Scope>)
    requires DistinctLive(sessions)
    ensures var lists := PollOf(was, sessions, answer, known, failing).lists;
      && (forall i: nat | i < |sessions| && !sessions[i].exited && answer(i).Some? ::
            sessions[i].name in lists && lists[sessions[i].name] == answer(i).value)
      && (forall i: nat | i < |sessions| && !sessions[i].exited && answer(i).None? && sessions[i].name in known ::
            sessions[i].name in lists && lists[sessions[i].name] == known[sessions[i].name])
      && (forall i: nat | i < |sessions| && !sessions[i].exited && answer(i).None? && sessions[i].name !in known ::
            sessions[i].name !in lists)
      && (forall name | name in lists :: SessionInfo(name, false) in sessions)
  {
    ListedKept(sessions, answer, known, failing - {SessionList}, |sessions|);
    var lists := PollOf(was, sessions, answer, known, failing).lists;
    forall name | name in lists
      ensures SessionInfo(name, false) in sessions
    {
      var i: nat :| i < |sessions| && LiveAt(sessions, i) && sessions[i].name == name;
      assert sessions[i] == SessionInfo(name, false);
    }
    assert forall i: nat | i < |sessions| && !sessions[i].exited :: LiveAt(sessions, i);
  }

  // ---- the failures ----

  /** After `k` sessions: a listing is failing if it failed just now, or before and it was not tried. */
  ghost predicate Fails(sessions: seq<SessionInfo>, answer: nat -> Option<seq<PaneInfo>>, failing: set<Scope>, after: set<Scope>, k: nat) {
    && (forall i: nat | i < k && LiveAt(sessions, i) :: PaneList(sessions[i].name) in after <==> answer(i).None?)
    && (forall s: Scope | !(s.PaneList? && Visited(sessions, k, s.session)) :: s in after <==> s in failing)
  }

  lemma {:induction false} NextFails(sessions: seq<SessionInfo>, answer: nat -> Option<seq<PaneInfo>>, known: PaneLists, failing: set<Scope>, p: Poll, k: nat)
    requires DistinctLive(sessions) && LiveAt(sessions, k) && Fails(sessions, answer, failing, p.failing, k)
    ensures Fails(sessions, answer, failing, Next(p, sessions[k].name, answer(k), known).failing, k + 1)
  {
    NotYet(sessions, k);
    forall name
      ensures Visited(sessions, k + 1, name) <==> Visited(sessions, k, name) || sessions[k].name == name
    {
      VisitedNext(sessions, k, name);
    }
  }

  lemma {:induction false} ListedFails(sessions: seq<SessionInfo>, answer: nat -> Option<seq<PaneInfo>>, known: PaneLists, failing: set<Scope>, k: nat)
    requires DistinctLive(sessions) && k <= |sessions|
    ensures Fails(sessions, answer, failing, Listed(sessions, answer, known, failing, k).failing, k)
  {
    hide Next;
    if k > 0 {
      ListedFails(sessions, answer, known, failing, k - 1);
      if LiveAt(sessions, k - 1) {
        NextFails(sessions, answer, known, failing, Listed(sessions, answer, known, failing, k - 1), k - 1);
      }
    }
  }

  /** A pane of some list held. */
  ghost predicate Held(lists: PaneLists, pane: PaneRef) {
    pane.session in lists && exists info :: info in lists[pane.session] && info.id == pane.id
  }

  lemma HeldIff(lists: PaneLists, pane: PaneRef)
    ensures Exists(lists, pane) <==> Held(lists, pane)
  {
    if Exists(lists, pane) {
      var i :| 0 <= i < |lists[pane.session]| && lists[pane.session][i].id == pane.id;
      assert lists[pane.session][i] in lists[pane.session];
    }
  }

  /** What a poll remembers as failing: the listing of each live session that failed just now, and
      each earlier failed dump of a pane that is still held. */
  lemma PollRemembers(was: Option<seq<SessionInfo>>, sessions: seq<SessionInfo>, answer: nat -> Option<seq<PaneInfo>>,
                      known: PaneLists, failing: set<Scope>)
    requires DistinctLive(sessions)
    ensures var p := PollOf(was, sessions, answer, known, failing);
      var after := StillFailing(p, sessions);
      && SessionList !in after
      && (forall i: nat | i < |sessions| && !sessions[i].exited :: PaneList(sessions[i].name) in after <==> answer(i).None?)
      && (forall name | PaneList(name) in after :: SessionInfo(name, false) in sessions)
      && (forall pane :: Dump(pane) in after <==> Dump(pane) in failing && Held(p.lists, pane))
  {
    ListedFails(sessions, answer, known, failing - {SessionList}, |sessions|);
    var p := PollOf(was, sessions, answer, known, failing);
    assert Fails(sessions, answer, failing - {SessionList}, p.failing, |sessions|);
    forall i: nat | i < |sessions| && !sessions[i].exited
      ensures PaneList(sessions[i].name) in StillFailing(p, sessions) <==> answer(i).None?
    {
      assert LiveAt(sessions, i) && sessions[i] == SessionInfo(sessions[i].name, false);
    }
    forall pane
      ensures Dump(pane) in StillFailing(p, sessions) <==> Dump(pane) in failing && Held(p.lists, pane)
    {
      HeldIff(p.lists, pane);
    }
  }

  // ---- the messages ----

  /** The i-th session has something to say: its panes changed, or its listing failed afresh. */
  predicate Tells(sessions: seq<SessionInfo>, answer: nat -> Option<seq<PaneInfo>>, known: PaneLists, failing: set<Scope>, i: nat, m: Msg) {
    && LiveAt(sessions, i)
    && match answer(i)
       case Some(panes) => m == PanesOf(sessions[i].name, panes) && !(sessions[i].name in known && known[sessions[i].name] == panes)
       case None => m == Failure(PaneList(sessions[i].name)) && PaneList(sessions[i].name) !in failing
  }

  /** The sessions the messages are about, in order: each message is told by its session, and every
      session before `k` that tells something has its message. */
  ghost predicate Told(sessions: seq<SessionInfo>, answer: nat -> Option<seq<PaneInfo>>, known: PaneLists, failing: set<Scope>,
                       out: seq<Msg>, who: seq<nat>, k: nat)
  {
    && |who| == |out|
    && (forall a | 0 <= a < |out| :: who[a] < k && Tells(sessions, answer, known, failing, who[a], out[a]))
    && (forall a, b | 0 <= a < b < |who| :: who[a] < who[b])
    && (forall i: nat, m | i < k && Tells(sessions, answer, known, failing, i, m) :: i in who)
  }

  /** The k-th session adds its message, if it has one. */
  lemma NextSays(sessions: seq<SessionInfo>, answer: nat -> Option<seq<PaneInfo>>, known: PaneLists, failing: set<Scope>, p: Poll, k: nat)
    requires LiveAt(sessions, k) && (PaneList(sessions[k].name) in p.failing <==> PaneList(sessions[k].name) in failing)
    ensures var out := Next(p, sessions[k].name, answer(k), known).out;
      if out == p.out then forall m :: !Tells(sessions, answer, known, failing, k, m)
      else |out| == |p.out| + 1 && out[..|p.out|] == p.out && Tells(sessions, answer, known, failing, k, out[|p.out|])
  {
    var out := Next(p, sessions[k].name, answer(k), known).out;
    if m :| Tells(sessions, answer, known, failing, k, m) {
      assert out == p.out + [m];
      assert |out| != |p.out|;
    } else if answer(k).Some? {
      assert !Tells(sessions, answer, known, failing, k, PanesOf(sessions[k].name, answer(k).value));
    } else {
      assert !Tells(sessions, answer, known, failing, k, Failure(PaneList(sessions[k].name)));
    }
  }

  lemma {:induction false} ToldOn(sessions: seq<SessionInfo>, answer: nat -> Option<seq<PaneInfo>>, known: PaneLists, failing: set<Scope>,
                                  out: seq<Msg>, who: seq<nat>, k: nat)
    requires Told(sessions, answer, known, failing, out, who, k)
    ensures (forall m :: !Tells(sessions, answer, known, failing, k, m)) ==> Told(sessions, answer, known, failing, out, who, k + 1)
    ensures forall m | Tells(sessions, answer, known, failing, k, m) :: Told(sessions, answer, known, failing, out + [m], who + [k], k + 1)
  {
    hide Tells;
    forall m | Tells(sessions, answer, known, failing, k, m)
      ensures Told(sessions, answer, known, failing, out + [m], who + [k], k + 1)
    {
      assert (who + [k])[|who|] == k;
      forall i: nat, n | i < k + 1 && Tells(sessions, answer, known, failing, i, n)
        ensures i in who + [k]
      {
      }
    }
  }

  lemma {:induction false} NextTold(sessions: seq<SessionInfo>, answer: nat -> Option<seq<PaneInfo>>, known: PaneLists, failing: set<Scope>,
                                    p: Poll, who: seq<nat>, k: nat) returns (whoNext: seq<nat>)
    requires DistinctLive(sessions) && LiveAt(sessions, k)
    requires Fails(sessions, answer, failing, p.failing, k) && Told(sessions, answer, known, failing, p.out, who, k)
    ensures Told(sessions, answer, known, failing, Next(p, sessions[k].name, answer(k), known).out, whoNext, k + 1)
  {
    hide Next, Tells, Told;
    NotYet(sessions, k);
    NextSays(sessions, answer, known, failing, p, k);
    ToldOn(sessions, answer, known, failing, p.out, who, k);
    var out := Next(p, sessions[k].name, answer(k), known).out;
    if out == p.out {
      whoNext := who;
    } else {
      whoNext := who + [k];
      assert out == p.out + [out[|p.out|]];
    }
  }

  lemma {:induction false} ListedTold(sessions: seq<SessionInfo>, answer: nat -> Option<seq<PaneInfo>>, known: PaneLists, failing: set<Scope>, k: nat)
    returns (who: seq<nat>)
    requires DistinctLive(sessions) && k <= |sessions|
    ensures Told(sessions, answer, known, failing, Listed(sessions, answer, known, failing, k).out, who, k)
  {
    hide Next, Fails;
    who := [];
    if k > 0 {
      who := ListedTold(sessions, answer, known, failing, k - 1);
      if LiveAt(sessions, k - 1) {
        ListedFails(sessions, answer, known, failing, k - 1);
        who := NextTold(sessions, answer, known, failing, Listed(sessions, answer, known, failing, k - 1), who, k - 1);
      }
    }
  }

  /** What a poll sends: the session list if it changed; then in session order, and once each, every
      list that changed and every listing that failed while it was not failing before. */
  lemma PollTells(was: Option<seq<SessionInfo>>, sessions: seq<SessionInfo>, answer: nat -> Option<seq<PaneInfo>>,
                  known: PaneLists, failing: set<Scope>) returns (told: seq<Msg>, who: seq<nat>)
    requires DistinctLive(sessions)
    ensures PollOf(was, sessions, answer, known, failing).out == (if was == Some(sessions) then [] else [Sessions(sessions)]) + told
    ensures |who| == |told| && forall a, b | 0 <= a < b < |who| :: who[a] < who[b]
    ensures forall a | 0 <= a < |told| ::
      who[a] < |sessions| && (told[a] == Failure(PaneList(sessions[who[a]].name)) || (told[a].PanesOf? && told[a].session == sessions[who[a]].name))
    ensures forall name :: Failure(PaneList(name)) in told <==>
      PaneList(name) !in failing && exists i: nat :: i < |sessions| && sessions[i] == SessionInfo(name, false) && answer(i).None?
    ensures forall name, panes :: PanesOf(name, panes) in told <==>
      !(name in known && known[name] == panes) && exists i: nat :: i < |sessions| && sessions[i] == SessionInfo(name, false) && answer(i) == Some(panes)
  {
    var before := failing - {SessionList};
    told := Listed(sessions, answer, known, before, |sessions|).out;
    who := ListedTold(sessions, answer, known, before, |sessions|);
    hide Listed, Told;
    forall name
      ensures Failure(PaneList(name)) in told <==>
        PaneList(name) !in failing && exists i: nat :: i < |sessions| && sessions[i] == SessionInfo(name, false) && answer(i).None?
    {
      ToldIff(sessions, answer, known, before, told, who, Failure(PaneList(name)));
      FailureIff(sessions, answer, known, before, name);
      assert PaneList(name) in failing <==> PaneList(name) in before;
    }
    forall name, panes
      ensures PanesOf(name, panes) in told <==>
        !(name in known && known[name] == panes) && exists i: nat :: i < |sessions| && sessions[i] == SessionInfo(name, false) && answer(i) == Some(panes)
    {
      ToldIff(sessions, answer, known, before, told, who, PanesOf(name, panes));
      PanesIff(sessions, answer, known, before, name, panes);
    }
  }

  lemma FailureIff(sessions: seq<SessionInfo>, answer: nat -> Option<seq<PaneInfo>>, known: PaneLists, failing: set<Scope>, name: string)
    ensures (exists i: nat :: Tells(sessions, answer, known, failing, i, Failure(PaneList(name)))) <==>
      PaneList(name) !in failing && exists i: nat :: i < |sessions| && sessions[i] == SessionInfo(name, false) && answer(i).None?
  {
    var m := Failure(PaneList(name));
    if i: nat :| Tells(sessions, answer, known, failing, i, m) {
      assert sessions[i] == SessionInfo(name, false);
    }
    if i: nat :| PaneList(name) !in failing && i < |sessions| && sessions[i] == SessionInfo(name, false) && answer(i).None? {
      assert Tells(sessions, answer, known, failing, i, m);
    }
  }

  lemma PanesIff(sessions: seq<SessionInfo>, answer: nat -> Option<seq<PaneInfo>>, known: PaneLists, failing: set<Scope>, name: string, panes: seq<PaneInfo>)
    ensures (exists i: nat :: Tells(sessions, answer, known, failing, i, PanesOf(name, panes))) <==>
      !(name in known && known[name] == panes) && exists i: nat :: i < |sessions| && sessions[i] == SessionInfo(name, false) && answer(i) == Some(panes)
  {
    var m := PanesOf(name, panes);
    if i: nat :| Tells(sessions, answer, known, failing, i, m) {
      assert sessions[i] == SessionInfo(name, false);
    }
    if i: nat :| !(name in known && known[name] == panes) && i < |sessions| && sessions[i] == SessionInfo(name, false) && answer(i) == Some(panes) {
      assert Tells(sessions, answer, known, failing, i, m);
    }
  }

  /** A message is sent exactly if some session tells it. */
  lemma {:induction false} ToldIff(sessions: seq<SessionInfo>, answer: nat -> Option<seq<PaneInfo>>, known: PaneLists, failing: set<Scope>,
                                   told: seq<Msg>, who: seq<nat>, m: Msg)
    requires Told(sessions, answer, known, failing, told, who, |sessions|)
    ensures m in told <==> exists i: nat :: Tells(sessions, answer, known, failing, i, m)
  {
    if m in told {
      var a :| 0 <= a < |told| && told[a] == m;
      assert Tells(sessions, answer, known, failing, who[a], m);
    }
    if i: nat :| Tells(sessions, answer, known, failing, i, m) {
      assert i in who;
      var a :| 0 <= a < |who| && who[a] == i;
      assert told[a] == m;
    }
  }
}
