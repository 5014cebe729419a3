/**
 The probe with its spool on disk, as the delivery protocol sees it. A line enters the protocol's
 log when it becomes visible to a read from the first cursor, a tick is a drain of the files that
 are left, a reconnect restarts the reader from the stored acknowledgement, and cleaning up deletes
 the first records.
 */
module Pipelines {
  import opened Wrappers
  import opened DayLogs
  import Seqs
  import Trackers
  import Spools
  import Deliveries

  type Text = Spools.Text

  /** What a hook record's text maps to; nothing for a line that does not parse. */
  type Mapping = seq<Spools.byte> -> Option<Trackers.Event>

  datatype Step =
    | Land(stamp: nat, text: seq<Spools.byte>, at: nat) // a hook's record reaches its file
    | Drain(at: nat)
    | Deliver // the host task receives an event, hands it over and acknowledges it
    | StoreAck
    | Reconnect(unreadable: bool)
    | Cleanup(now: nat, keepDays: nat)

  /** The files, the reader and the link. `written` is what ever reached a file, of which the days
      before `low` were deleted; `heardTo` is the last cursor handed over. */
  datatype Probe = Probe(files: Spools.Files, cursor: nat, ack: nat, toApp: seq<Trackers.Event>, toProbe: seq<nat>,
                         handed: seq<Deliveries.Op>, clock: nat, written: Spools.Files, low: nat, heardTo: nat)

  const EMPTY := Probe(map[], 0, 0, [], [], [], 0, map[], 0, 0)

  /** All lines that a read from the first cursor would return if nothing had been deleted. */
  function VisibleIn(written: Spools.Files, clock: nat): seq<Text> { Read(Spools.LogOf(written), 0, clock) }

  function Visible(p: Probe): seq<Text> { VisibleIn(p.written, p.clock) }

  /** The event of a line as it is sent. */
  function Sent(events: Mapping, line: Text): seq<Trackers.Event> {
    match events(line.text)
    case None => []
    case Some(ev) => [ev.(source := Trackers.Hook, offset := Some(line.Cursor()))]
  }

  function SentAll(events: Mapping, lines: seq<Text>): seq<Trackers.Event> {
    if lines == [] then [] else SentAll(events, lines[..|lines| - 1]) + Sent(events, lines[|lines| - 1])
  }

  function Appended(files: Spools.Files, stamp: nat, text: seq<Spools.byte>): Spools.Files {
    files[stamp / DAY_MS := Spools.File(files, stamp / DAY_MS) + (text + [Spools.NL])]
  }

  /** The first day that cleaning up keeps. */
  function LowDay(now: nat, keepDays: nat): nat { if now / DAY_MS < keepDays then 0 else now / DAY_MS - keepDays }

  function Max(a: nat, b: nat): nat { if a < b then b else a }

  /** When a step can happen: time does not go back, records land in time and cursors do not overflow,
      and only days whose records were all handed over are cleaned up, today's and yesterday's never. */
  ghost predicate Can(p: Probe, step: Step) {
    match step
    case Land(stamp, text, at) =>
      p.clock <= at && stamp <= at < stamp + DAY_GRACE_MS && Spools.Fit(Appended(p.written, stamp, text))
    case Drain(at) => p.clock <= at
    case Deliver => p.toApp != [] && p.toApp[0].offset.Some?
    case StoreAck => p.toProbe != []
    case Reconnect(_) => true
    case Cleanup(now, keepDays) =>
      && p.clock <= now && keepDays >= 1
      && forall x | x in Visible(p.(clock := now)) && x.day < LowDay(now, keepDays) :: x.Cursor() <= p.heardTo
  }

  function After(events: Mapping, host: string, p: Probe, step: Step): Probe
    requires Can(p, step)
  {
    match step
    case Land(stamp, text, at) =>
      p.(files := Appended(p.files, stamp, text), written := Appended(p.written, stamp, text), clock := at)
    case Drain(at) =>
      var lines := Read(Spools.LogOf(p.files), p.cursor, at);
      p.(toApp := p.toApp + SentAll(events, lines), cursor := EndCursor(lines, p.cursor), clock := at)
    case Deliver =>
      var ev := p.toApp[0];
      p.(toApp := p.toApp[1..], toProbe := p.toProbe + [ev.offset.value],
         handed := p.handed + [Trackers.Apply(host, ev)], heardTo := Max(p.heardTo, ev.offset.value))
    case StoreAck => p.(ack := p.toProbe[0], toProbe := p.toProbe[1..])
    case Reconnect(unreadable) => p.(toApp := [], toProbe := [], cursor := if unreadable then 0 else p.ack)
    case Cleanup(now, keepDays) =>
      p.(files := Spools.RecentFiles(p.files, now, keepDays), low := Max(p.low, LowDay(now, keepDays)), clock := now)
  }

  /** `states` is a run: it starts with an empty spool and takes each step when it can. */
  ghost predicate IsProbeRun(events: Mapping, host: string, steps: seq<Step>, states: seq<Probe>) {
    && |states| == |steps| + 1 && states[0] == EMPTY
    && forall i | 0 <= i < |steps| :: Can(states[i], steps[i]) && states[i + 1] == After(events, host, states[i], steps[i])
  }

  // ---- the files ----

  /** The files of the days from `low` on. */
  function FromDay(files: Spools.Files, low: nat): Spools.Files { map d | d in files && d >= low :: files[d] }

  ghost predicate FilesOk(p: Probe) {
    && p.files == FromDay(p.written, p.low)
    && Spools.Fit(p.written)
    && (p.low == 0 || p.low + 1 <= p.clock / DAY_MS)
  }

  lemma {:induction false} LandIsLate(p: Probe, stamp: nat, at: nat)
    requires p.low == 0 || p.low + 1 <= p.clock / DAY_MS
    requires p.clock <= at && stamp <= at < stamp + DAY_GRACE_MS
    ensures p.low <= stamp / DAY_MS && (p.low == 0 || p.low + 1 <= at / DAY_MS)
  {
  }

  lemma {:induction false} LandKeepsFiles(p: Probe, stamp: nat, text: seq<Spools.byte>, at: nat)
    requires FilesOk(p) && Can(p, Land(stamp, text, at))
    ensures FilesOk(p.(files := Appended(p.files, stamp, text), written := Appended(p.written, stamp, text), clock := at))
  {
    hide Spools.Fit;
    LandIsLate(p, stamp, at);
  }

  lemma {:induction false} CleanupKeepsFiles(p: Probe, now: nat, keepDays: nat)
    requires FilesOk(p) && p.clock <= now && keepDays >= 1
    ensures FilesOk(p.(files := Spools.RecentFiles(p.files, now, keepDays), low := Max(p.low, LowDay(now, keepDays)), clock := now))
  {
    hide Spools.Fit;
    Earlier(p.clock, now);
  }

  lemma Earlier(a: nat, b: nat)
    requires a <= b
    ensures a / DAY_MS <= b / DAY_MS
  {
  }

  lemma {:induction false} LowIsReleased(low: nat, clock: nat)
    requires low == 0 || low + 1 <= clock / DAY_MS
    ensures low <= Horizon(clock)
  {
  }

  // ---- the visible lines ----

  function Entries(events: Mapping, lines: seq<Text>): seq<Deliveries.Entry> {
    seq(|lines|, i requires 0 <= i < |lines| => Deliveries.Entry(lines[i].Cursor(), events(lines[i].text)))
  }

  lemma {:induction false} AllIsInStep<T>(log: Log<T>, now: nat)
    requires Sound(log)
    ensures InStep(log, EndCursor(Read(log, 0, now), 0), Read(log, 0, now), 0, now)
  {
    if Read(log, 0, now) != [] {
      LastIsReleased(log, 0, now);
    }
  }

  /** The visible lines grow at their end: with time, and with a record that lands in time. */
  lemma {:induction false} VisibleGrows(p: Probe, q: Probe)
    requires p.clock <= q.clock
    requires
      || q.written == p.written
      || exists stamp: nat, text :: stamp <= q.clock < stamp + DAY_GRACE_MS && q.written == Appended(p.written, stamp, text)
    ensures Visible(p) <= Visible(q)
  {
    hide Read, Spools.LogOf, Sound;
    var log := Spools.LogOf(p.written);
    if q.written == p.written {
      ReadGrowsWithTime(log, 0, p.clock, q.clock);
    } else {
      var stamp: nat, text :| stamp <= q.clock < stamp + DAY_GRACE_MS && q.written == Appended(p.written, stamp, text);
      var all := Read(log, 0, p.clock);
      Spools.FilesAreSound(p.written);
      AllIsInStep(log, p.clock);
      Spools.AppendGrows(p.written, stamp / DAY_MS, text + [Spools.NL]);
      LandKeeps(log, Spools.LogOf(q.written), EndCursor(all, 0), all, 0, p.clock, stamp, q.clock);
    }
  }

  lemma {:induction false} VisibleIsGrowing(events: Mapping, p: Probe)
    requires Spools.Fit(p.written)
    ensures Deliveries.Growing(Entries(events, Visible(p)))
  {
    hide Spools.LogOf, From, Horizon, Sound, Packs, Spools.Fit;
    var log, hi := Spools.LogOf(p.written), Horizon(p.clock);
    Spools.FilesAreSound(p.written);
    forall i | 0 <= i < |Visible(p)|
      ensures Visible(p)[i].Cursor() > 0
    {
      Positive(log, hi, i);
    }
    forall i, j | 0 <= i < j < |Visible(p)|
      ensures Visible(p)[i].Cursor() < Visible(p)[j].Cursor()
    {
      Increasing(log, hi, i, j);
    }
  }

  lemma {:induction false} Positive<T>(log: Log<T>, hi: nat, i: nat)
    requires Sound(log) && Packs(log) && i < |From(log, 0, 0, hi)|
    ensures From(log, 0, 0, hi)[i].Cursor() > 0
  {
    ResumeAt(log, 0, 0, hi, i);
  }

  lemma {:induction false} Increasing<T>(log: Log<T>, hi: nat, i: nat, j: nat)
    requires Sound(log) && Packs(log) && i < j < |From(log, 0, 0, hi)|
    ensures From(log, 0, 0, hi)[i].Cursor() < From(log, 0, 0, hi)[j].Cursor()
    decreases j
  {
    hide From;
    InOrder(log, 0, 0, hi, j - 1);
    if i < j - 1 {
      Increasing(log, hi, i, j - 1);
    }
  }

  // ---- what is left of them ----

  /** The lines of the days before `low`. */
  function Before(written: Spools.Files, low: nat): seq<Text> { Seqs.Cat(Whole(Spools.LogOf(written)), 0, low) }

  /** They are the first visible ones; the rest are of later days. */
  lemma {:induction false} VisibleSplit(p: Probe, low: nat)
    requires low <= Horizon(p.clock)
    ensures Before(p.written, low) <= Visible(p) && (low == 0 ==> Before(p.written, low) == [])
    ensures low > 0 ==> Visible(p)[|Before(p.written, low)|..] == Seqs.Cat(Whole(Spools.LogOf(p.written)), low, Horizon(p.clock))
  {
    hide Spools.LogOf, Horizon;
    var days, hi := Whole(Spools.LogOf(p.written)), Horizon(p.clock);
    if low > 0 {
      assert Visible(p) == days(0) + Seqs.Cat(days, 1, hi);
      assert Seqs.Cat(days, 0, hi) == days(0) + Seqs.Cat(days, 1, hi);
      Seqs.CatSplit(days, 0, low, hi);
      Seqs.DropOf(Seqs.Cat(days, 0, low), Seqs.Cat(days, low, hi), |Seqs.Cat(days, 0, low)|);
      assert Seqs.Cat(days, 0, low)[|Seqs.Cat(days, 0, low)|..] == [];
      assert [] + Seqs.Cat(days, low, hi) == Seqs.Cat(days, low, hi);
    } else {
      assert Before(p.written, 0) == [];
    }
  }

  lemma {:induction false} BeforeIsEarly(written: Spools.Files, low: nat, i: nat)
    requires i < |Before(written, low)|
    ensures Before(written, low)[i].day < low
  {
    hide Spools.LogOf;
    var log := Spools.LogOf(written);
    Spools.FilesAreSound(written);
    var d, j := Seqs.CatFind(Whole(log), 0, low, i);
    assert Whole(log)(d) == log(d, 0);
    assert log(d, 0)[j].day == d;
  }

  lemma {:induction false} RestIsLate(p: Probe, low: nat, i: nat)
    requires low <= Horizon(p.clock) && |Before(p.written, low)| <= i < |Visible(p)|
    ensures Visible(p)[i].day >= low
  {
    hide Spools.LogOf, Horizon;
    if low > 0 {
      var log, n := Spools.LogOf(p.written), |Before(p.written, low)|;
      VisibleSplit(p, low);
      Spools.FilesAreSound(p.written);
      var d, j := Seqs.CatFind(Whole(log), low, Horizon(p.clock), i - n);
      assert Whole(log)(d) == log(d, 0);
      assert log(d, 0)[j].day == d;
      assert Visible(p)[i] == Visible(p)[n..][i - n];
    }
  }

  /** A line is among those before `low` exactly when its day is. */
  lemma {:induction false} EarlyIffBefore(p: Probe, low: nat, i: nat)
    requires low <= Horizon(p.clock) && i < |Visible(p)|
    ensures Visible(p)[i].day < low <==> i < |Before(p.written, low)|
  {
    hide VisibleIn, Before, Horizon;
    VisibleSplit(p, low);
    if i < |Before(p.written, low)| {
      BeforeIsEarly(p.written, low, i);
      assert Visible(p)[i] == Before(p.written, low)[i];
    } else {
      RestIsLate(p, low, i);
    }
  }

  /** Reading the files that are left gives the visible lines after the cursor that were not deleted. */
  lemma {:induction false} ReadsTheRest(p: Probe, n: nat, at: nat)
    requires FilesOk(p) && p.clock <= at && n <= |Visible(p.(clock := at))|
    requires p.cursor == EndCursor(Visible(p.(clock := at))[..n], 0)
    ensures
      var all, gone := Visible(p.(clock := at)), |Before(p.written, p.low)|;
      gone <= |all| && Read(Spools.LogOf(p.files), p.cursor, at) == all[Max(gone, n)..]
  {
    hide Spools.LogOf, Read, VisibleIn, Before, From, Horizon, Sound, Packs, Spools.Fit, FromDay;
    var q := p.(clock := at);
    var all, gone := Visible(q), |Before(p.written, p.low)|;
    Earlier(p.clock, at);
    LowIsReleased(p.low, at);
    VisibleSplit(q, p.low);
    ReadsOn(p, n, at);
    CursorDay(p, n, at);
    if SplitCursor(p.cursor).0 >= p.low {
      SameFromDay(p.written, p.low, p.cursor, at);
    } else {
      ReadsFromLow(p.written, p.low, p.cursor, at);
    }
  }

  lemma {:induction false} ReadsOn(p: Probe, n: nat, at: nat)
    requires Spools.Fit(p.written) && n <= |Visible(p.(clock := at))|
    requires p.cursor == EndCursor(Visible(p.(clock := at))[..n], 0)
    ensures Read(Spools.LogOf(p.written), p.cursor, at) == Visible(p.(clock := at))[n..]
  {
    hide Spools.LogOf, Read;
    Spools.FilesAreSound(p.written);
    CursorResumes(Spools.LogOf(p.written), Visible(p.(clock := at))[..n], 0, at);
  }

  /** The cursor's day tells whether it is among the deleted lines. */
  lemma {:induction false} CursorDay(p: Probe, n: nat, at: nat)
    requires FilesOk(p) && p.low <= Horizon(at) && n <= |Visible(p.(clock := at))|
    requires p.cursor == EndCursor(Visible(p.(clock := at))[..n], 0)
    ensures
      var gone := |Before(p.written, p.low)|;
      if SplitCursor(p.cursor).0 >= p.low then gone <= n else n <= gone
  {
    hide Spools.LogOf, Read, Before, Horizon, FromDay, Spools.Fit;
    var q := p.(clock := at);
    VisibleSplit(q, p.low);
    if n > 0 {
      CursorIsOfLine(q, n - 1);
      EarlyIffBefore(q, p.low, n - 1);
    }
  }

  lemma {:induction false} CursorIsOfLine(p: Probe, i: nat)
    requires Spools.Fit(p.written) && i < |Visible(p)|
    ensures SplitCursor(Visible(p)[i].Cursor()) == (Visible(p)[i].day, Visible(p)[i].end)
  {
    hide Spools.LogOf, Horizon;
    var x := Visible(p)[i];
    Spools.FilesAreSound(p.written);
    ResumeAt(Spools.LogOf(p.written), 0, 0, Horizon(p.clock), i);
    CursorRoundTrip(x.day, x.end);
  }

  lemma {:induction false} SameFromDay(written: Spools.Files, low: nat, cursor: nat, now: nat)
    requires SplitCursor(cursor).0 >= low
    ensures Read(Spools.LogOf(FromDay(written, low)), cursor, now) == Read(Spools.LogOf(written), cursor, now)
  {
    hide Read;
    var f, g := Spools.LogOf(FromDay(written, low)), Spools.LogOf(written);
    forall d: nat, o: nat | SplitCursor(cursor).0 <= d
      ensures f(d, o) == g(d, o)
    {
      assert Spools.File(FromDay(written, low), d) == Spools.File(written, d);
    }
    ReadDependsOn(f, g, cursor, now);
  }

  lemma {:induction false} ReadsFromLow(written: Spools.Files, low: nat, cursor: nat, now: nat)
    requires SplitCursor(cursor).0 < low <= Horizon(now)
    ensures Read(Spools.LogOf(FromDay(written, low)), cursor, now) == Seqs.Cat(Whole(Spools.LogOf(written)), low, Horizon(now))
  {
    hide Horizon, Spools.Lines;
    var left := FromDay(written, low);
    var f, g, day, hi := Spools.LogOf(left), Spools.LogOf(written), SplitCursor(cursor).0, Horizon(now);
    Spools.NoLines(left, day, SplitCursor(cursor).1);
    Spools.NoDays(left, day + 1, low);
    Seqs.CatSplit(Whole(f), day + 1, low, hi);
    forall d: nat | low <= d < hi
      ensures Whole(f)(d) == Whole(g)(d)
    {
      assert Spools.File(left, d) == Spools.File(written, d);
    }
    Seqs.CatSame(Whole(f), Whole(g), low, hi);
    assert [] + Seqs.Cat(Whole(f), low, hi) == Seqs.Cat(Whole(f), low, hi);
  }

  // ---- runs of the delivery protocol ----

  /** Some run of the protocol comes to `s`. */
  ghost predicate Reaches(host: string, s: Deliveries.Net) {
    exists steps, states :: Deliveries.IsRun(host, steps, states) && states[|steps|] == s
  }

  lemma {:induction false} ReachesNext(host: string, s: Deliveries.Net, step: Deliveries.Step)
    requires Reaches(host, s) && Deliveries.Enabled(s, step)
    ensures Reaches(host, Deliveries.After(s, step))
  {
    hide Deliveries.Enabled, Deliveries.After;
    var steps, states :| Deliveries.IsRun(host, steps, states) && states[|steps|] == s;
    var longer, more := steps + [step], states + [Deliveries.After(s, step)];
    forall i | 0 <= i < |longer|
      ensures Deliveries.Enabled(more[i], longer[i]) && more[i + 1] == Deliveries.After(more[i], longer[i])
    {
    }
    assert Deliveries.IsRun(host, longer, more);
  }

  lemma {:induction false} ReachedIsOk(host: string, s: Deliveries.Net)
    requires Reaches(host, s)
    ensures Deliveries.Inv(s) && s.host == host
  {
    hide Deliveries.Inv;
    var steps, states :| Deliveries.IsRun(host, steps, states) && states[|steps|] == s;
    Deliveries.RunKeeps(host, steps, states, |steps|);
  }

  /** Appending entries one by one. */
  lemma {:induction false} ReachesAppended(host: string, s: Deliveries.Net, more: seq<Deliveries.Entry>)
    requires Reaches(host, s) && Deliveries.Growing(s.log + more)
    ensures Reaches(host, s.(log := s.log + more))
    decreases |more|
  {
    hide Reaches;
    if more == [] {
      assert s.log + more == s.log;
    } else {
      var step := Deliveries.Append(more[0]);
      assert (s.log + more)[|s.log|] == more[0];
      assert s.log != [] ==> (s.log + more)[|s.log| - 1] == s.log[|s.log| - 1];
      ReachesNext(host, s, step);
      assert s.log + [more[0]] + more[1..] == s.log + more;
      ReachesAppended(host, Deliveries.After(s, step), more[1..]);
    }
  }

  // ---- the simulation ----

  function EventsOf(msgs: seq<Deliveries.Msg>): seq<Trackers.Event> { seq(|msgs|, i requires 0 <= i < |msgs| => msgs[i].ev) }

  /** The protocol is in state `s` when the probe is in state `p`. */
  ghost predicate Sim(events: Mapping, p: Probe, s: Deliveries.Net) {
    && s.log == Entries(events, Visible(p))
    && s.removed == |Before(p.written, p.low)|
    && s.readCursor == p.cursor && s.ack == p.ack && s.toProbe == p.toProbe && s.handed == p.handed
    && EventsOf(s.toApp) == p.toApp
    && s.heard <= |s.log| && p.heardTo == (if s.heard == 0 then 0 else s.log[s.heard - 1].cursor)
    && forall m | m in s.toApp :: m.Spooled?
  }

  /** Time passes, or a record lands: new entries are appended. */
  lemma {:induction false} Advances(events: Mapping, host: string, p: Probe, q: Probe, s: Deliveries.Net) returns (t: Deliveries.Net)
    requires Reaches(host, s) && Sim(events, p, s) && Visible(p) <= Visible(q) && Spools.Fit(q.written)
    requires q == p.(files := q.files, written := q.written, clock := q.clock) && |Before(q.written, p.low)| == |Before(p.written, p.low)|
    ensures Reaches(host, t) && Sim(events, q, t)
  {
    hide Reaches, VisibleIn, Before, Deliveries.Growing, Spools.Fit;
    var log, longer := Entries(events, Visible(p)), Entries(events, Visible(q));
    assert log <= longer;
    VisibleIsGrowing(events, q);
    assert log + longer[|log|..] == longer;
    ReachesAppended(host, s, longer[|log|..]);
    t := s.(log := longer);
  }

  lemma {:induction false} BeforeKept(written: Spools.Files, stamp: nat, text: seq<Spools.byte>, low: nat)
    requires low <= stamp / DAY_MS
    ensures Before(Appended(written, stamp, text), low) == Before(written, low)
  {
    var f, g := Spools.LogOf(Appended(written, stamp, text)), Spools.LogOf(written);
    forall d: nat | 0 <= d < low
      ensures Whole(f)(d) == Whole(g)(d)
    {
      assert Spools.File(Appended(written, stamp, text), d) == Spools.File(written, d);
    }
    Seqs.CatSame(Whole(f), Whole(g), 0, low);
  }

  lemma {:induction false} LandSimulated(events: Mapping, host: string, p: Probe, s: Deliveries.Net, stamp: nat, text: seq<Spools.byte>, at: nat) returns (t: Deliveries.Net)
    requires Reaches(host, s) && Sim(events, p, s) && FilesOk(p) && Can(p, Land(stamp, text, at))
    ensures Reaches(host, t) && Sim(events, After(events, host, p, Land(stamp, text, at)), t)
  {
    hide Reaches, Sim, VisibleIn, Before, Appended, FromDay, Spools.Fit;
    var q := After(events, host, p, Land(stamp, text, at));
    LandIsLate(p, stamp, at);
    VisibleGrows(p, q);
    BeforeKept(p.written, stamp, text, p.low);
    t := Advances(events, host, p, q, s);
  }

  lemma {:induction false} TimeSimulated(events: Mapping, host: string, p: Probe, s: Deliveries.Net, at: nat) returns (t: Deliveries.Net)
    requires Reaches(host, s) && Sim(events, p, s) && Spools.Fit(p.written) && p.clock <= at
    ensures Reaches(host, t) && Sim(events, p.(clock := at), t)
  {
    hide Reaches, Sim, VisibleIn, Before, Spools.Fit;
    VisibleGrows(p, p.(clock := at));
    t := Advances(events, host, p, p.(clock := at), s);
  }

  lemma SentNext(events: Mapping, lines: seq<Text>, lo: nat, hi: nat)
    requires lo < hi <= |lines|
    ensures SentAll(events, lines[lo..hi]) == SentAll(events, lines[lo..hi - 1]) + Sent(events, lines[hi - 1])
  {
    assert lines[lo..hi][..hi - 1 - lo] == lines[lo..hi - 1];
  }

  /** What the protocol sends for the entries from `lo` on is what the probe sends for those lines. */
  lemma {:induction false} OutgoingIsSent(events: Mapping, lines: seq<Text>, lo: nat, hi: nat)
    requires lo <= hi <= |lines|
    ensures EventsOf(Deliveries.Outgoing(Entries(events, lines), lo, hi)) == SentAll(events, lines[lo..hi])
    ensures forall m | m in Deliveries.Outgoing(Entries(events, lines), lo, hi) :: m.Spooled?
    decreases hi
  {
    hide SentAll, EventsOf;
    var es := Entries(events, lines);
    if lo < hi {
      OutgoingIsSent(events, lines, lo, hi - 1);
      SentNext(events, lines, lo, hi);
      var before := Deliveries.Outgoing(es, lo, hi - 1);
      if es[hi - 1].event.Some? {
        var m := Deliveries.Spooled(hi - 1, Deliveries.EventAt(es, hi - 1));
        EventFacts(events, before, [m]);
      } else {
        assert SentAll(events, lines[lo..hi - 1]) + [] == SentAll(events, lines[lo..hi - 1]);
      }
    } else {
      EventFacts(events, [], []);
      assert lines[lo..hi] == [];
    }
  }

  lemma EventFacts(events: Mapping, a: seq<Deliveries.Msg>, b: seq<Deliveries.Msg>)
    ensures EventsOf(a + b) == EventsOf(a) + EventsOf(b)
    ensures |b| == 1 ==> EventsOf(b) == [b[0].ev]
    ensures EventsOf([]) == [] && SentAll(events, []) == []
  {
  }

  /** Where a cursor of the log stands. */
  lemma {:induction false} PosOfCursor(log: seq<Deliveries.Entry>, cursor: nat)
    requires Deliveries.Growing(log) && Deliveries.Within(log, |log|, cursor)
    ensures var n := Deliveries.Pos(log, cursor); cursor == if n == 0 then 0 else log[n - 1].cursor
  {
    var n := Deliveries.Pos(log, cursor);
    if cursor == 0 {
      if n > 0 {
        Deliveries.PosIs(log, 0, n - 1);
      }
    } else {
      var j :| 0 <= j < |log| && log[j].cursor == cursor;
      Deliveries.PosIs(log, cursor, j);
      if j + 1 < |log| {
        Deliveries.PosIs(log, cursor, j + 1);
      }
      assert n == j + 1;
    }
  }

  lemma {:induction false} InvFacts(s: Deliveries.Net)
    requires Deliveries.Inv(s)
    ensures Deliveries.Growing(s.log) && Deliveries.Within(s.log, |s.log|, s.readCursor) && s.removed <= s.heard
    ensures
      s.toApp != [] && s.toApp[0].Spooled? ==>
        var m := s.toApp[0];
        m.i < |s.log| && m.ev.offset == Some(s.log[m.i].cursor)
  {
    hide Deliveries.HistoryOk, Deliveries.AcksBehind, Deliveries.Growing, Deliveries.Within;
    if s.toApp != [] {
      assert Deliveries.Carries(s.log, Deliveries.Unread(s), s.toApp[0]);
    }
  }

  /** Where the cursor stands among the visible lines. */
  lemma {:induction false} CursorPosition(events: Mapping, p: Probe, s: Deliveries.Net)
    requires Sim(events, p, s) && Deliveries.Inv(s)
    ensures
      var n := Deliveries.Pos(s.log, s.readCursor);
      n <= |Visible(p)| && p.cursor == EndCursor(Visible(p)[..n], 0)
  {
    hide VisibleIn, Before, Deliveries.Inv, Deliveries.Pos, Deliveries.Growing, Deliveries.Within;
    var n := Deliveries.Pos(s.log, s.readCursor);
    InvFacts(s);
    PosOfCursor(s.log, s.readCursor);
    if n > 0 {
      assert Visible(p)[..n][n - 1] == Visible(p)[n - 1];
    }
  }

  /** A drain is a tick. */
  lemma {:induction false} DrainSimulated(events: Mapping, host: string, p: Probe, s: Deliveries.Net) returns (t: Deliveries.Net)
    requires Reaches(host, s) && Sim(events, p, s) && FilesOk(p)
    ensures Reaches(host, t) && Sim(events, After(events, host, p, Drain(p.clock)), t)
  {
    hide Reaches, VisibleIn, Before, FilesOk, Read, Deliveries.Inv, Deliveries.Pos, Deliveries.Outgoing, Entries, SentAll, EventsOf;
    ReachedIsOk(host, s);
    CursorPosition(events, p, s);
    assert p.(clock := p.clock) == p;
    ReadsTheRest(p, Deliveries.Pos(s.log, s.readCursor), p.clock);
    ReachesNext(host, s, Deliveries.Tick);
    t := Deliveries.After(s, Deliveries.Tick);
    TickSimulates(events, p, s);
  }

  lemma {:induction false} TickSimulates(events: Mapping, p: Probe, s: Deliveries.Net)
    requires Sim(events, p, s) && Deliveries.Unread(s) <= |Visible(p)|
    ensures
      var lines := Visible(p)[Deliveries.Unread(s)..];
      Sim(events, p.(toApp := p.toApp + SentAll(events, lines), cursor := EndCursor(lines, p.cursor)), Deliveries.After(s, Deliveries.Tick))
  {
    hide VisibleIn, Before, Deliveries.Unread, Deliveries.Outgoing, SentAll, EventsOf;
    var all, u := Visible(p), Deliveries.Unread(s);
    OutgoingIsSent(events, all, u, |all|);
    assert all[u..|all|] == all[u..];
    if u < |all| {
      EventFacts(events, s.toApp, Deliveries.Outgoing(s.log, u, |all|));
    } else {
      assert all[u..] == [];
      EventFacts(events, [], []);
      assert p.toApp + [] == p.toApp;
    }
  }

  lemma {:induction false} DeliverSimulated(events: Mapping, host: string, p: Probe, s: Deliveries.Net) returns (t: Deliveries.Net)
    requires Reaches(host, s) && Sim(events, p, s) && Can(p, Deliver)
    ensures Reaches(host, t) && Sim(events, After(events, host, p, Deliver), t)
  {
    hide Reaches, VisibleIn, Before, Deliveries.Inv;
    ReachedIsOk(host, s);
    assert |s.toApp| == |p.toApp| && s.toApp[0].ev == p.toApp[0];
    InvFacts(s);
    ReachesNext(host, s, Deliveries.Deliver);
    t := Deliveries.After(s, Deliveries.Deliver);
    assert EventsOf(s.toApp[1..]) == p.toApp[1..];
    assert forall m | m in t.toApp :: m in s.toApp;
  }

  lemma {:induction false} LinkSimulated(events: Mapping, host: string, p: Probe, s: Deliveries.Net, step: Step) returns (t: Deliveries.Net)
    requires Reaches(host, s) && Sim(events, p, s) && Can(p, step) && (step.StoreAck? || step.Reconnect?)
    ensures Reaches(host, t) && Sim(events, After(events, host, p, step), t)
  {
    hide Reaches, VisibleIn, Before;
    var link := if step.StoreAck? then Deliveries.StoreAck else Deliveries.Reconnect(step.unreadable);
    ReachesNext(host, s, link);
    t := Deliveries.After(s, link);
  }

  lemma {:induction false} BeforeGrows(written: Spools.Files, low: nat, high: nat)
    requires low <= high
    ensures |Before(written, low)| <= |Before(written, high)|
  {
    Seqs.CatSplit(Whole(Spools.LogOf(written)), 0, low, high);
  }

  /** All lines of the days that cleaning up deletes were handed over. */
  lemma {:induction false} DeletedWasHeard(events: Mapping, p: Probe, s: Deliveries.Net, low: nat)
    requires Sim(events, p, s) && Deliveries.Growing(s.log) && low <= Horizon(p.clock)
    requires forall x | x in Visible(p) && x.day < low :: x.Cursor() <= p.heardTo
    ensures |Before(p.written, low)| <= s.heard
  {
    hide VisibleIn, Before, Horizon;
    var n := |Before(p.written, low)|;
    VisibleSplit(p, low);
    if n > 0 {
      EarlyIffBefore(p, low, n - 1);
      assert Visible(p)[n - 1] in Visible(p);
      assert s.log[n - 1].cursor <= p.heardTo;
    }
  }

  lemma {:induction false} CleanupSimulated(events: Mapping, host: string, p: Probe, s: Deliveries.Net, now: nat, keepDays: nat) returns (t: Deliveries.Net)
    requires Reaches(host, s) && Sim(events, p, s) && FilesOk(p) && Can(p, Cleanup(now, keepDays))
    ensures Reaches(host, t) && Sim(events, After(events, host, p, Cleanup(now, keepDays)), t)
  {
    hide Reaches, VisibleIn, Before, Deliveries.Inv, Deliveries.Growing, Spools.Fit, FromDay, Spools.RecentFiles, Entries, EventsOf;
    var q, high := p.(clock := now), Max(p.low, LowDay(now, keepDays));
    t := TimeSimulated(events, host, p, s, now);
    ReachedIsOk(host, t);
    InvFacts(t);
    BeforeGrows(p.written, p.low, high);
    var n := |Before(p.written, high)|;
    if high != p.low {
      LowIsReleased(high, now);
      DeletedWasHeard(events, q, t, high);
    }
    ReachesNext(host, t, Deliveries.Cleanup(n));
    t := Deliveries.After(t, Deliveries.Cleanup(n));
  }

  /** Every step of the probe is some steps of the protocol. */
  lemma {:induction false} StepSimulated(events: Mapping, host: string, p: Probe, s: Deliveries.Net, step: Step) returns (t: Deliveries.Net)
    requires Reaches(host, s) && Sim(events, p, s) && FilesOk(p) && Can(p, step)
    ensures Reaches(host, t) && Sim(events, After(events, host, p, step), t) && FilesOk(After(events, host, p, step))
  {
    hide Reaches, Sim, VisibleIn, FromDay, Spools.Fit, Spools.RecentFiles, Appended;
    match step {
      case Land(stamp, text, at) =>
        LandKeepsFiles(p, stamp, text, at);
        t := LandSimulated(events, host, p, s, stamp, text, at);
      case Drain(at) =>
        Earlier(p.clock, at);
        t := TimeSimulated(events, host, p, s, at);
        t := DrainSimulated(events, host, p.(clock := at), t);
      case Deliver =>
        t := DeliverSimulated(events, host, p, s);
      case StoreAck =>
        t := LinkSimulated(events, host, p, s, step);
      case Reconnect(_) =>
        t := LinkSimulated(events, host, p, s, step);
      case Cleanup(now, keepDays) =>
        CleanupKeepsFiles(p, now, keepDays);
        t := CleanupSimulated(events, host, p, s, now, keepDays);
    }
  }

  lemma StartSimulated(events: Mapping, host: string)
    ensures Reaches(host, Deliveries.Start(host)) && Sim(events, EMPTY, Deliveries.Start(host)) && FilesOk(EMPTY)
  {
    assert Deliveries.IsRun(host, [], [Deliveries.Start(host)]);
  }

  /** However records land, the reader drains, the link delivers, fails and resumes, and old files are
      deleted, the protocol has a run to the corresponding state. */
  lemma {:induction false} ProbeRunsTheProtocol(events: Mapping, host: string, steps: seq<Step>, states: seq<Probe>, k: nat) returns (s: Deliveries.Net)
    requires IsProbeRun(events, host, steps, states) && k <= |steps|
    ensures Reaches(host, s) && Sim(events, states[k], s) && FilesOk(states[k])
    decreases k
  {
    hide Reaches, Sim, FilesOk, After, Can;
    if k == 0 {
      s := Deliveries.Start(host);
      StartSimulated(events, host);
    } else {
      s := ProbeRunsTheProtocol(events, host, steps, states, k - 1);
      s := StepSimulated(events, host, states[k - 1], s, steps[k - 1]);
    }
  }

  /** From the files to the hand-over: at every point of every run each visible line up to the stored
      acknowledgement that maps to an event was handed over, and without redeliveries what was handed
      over are the events of the first visible lines, in order and without gaps. */
  lemma {:induction false} LinesAreHandedOver(events: Mapping, host: string, steps: seq<Step>, states: seq<Probe>, k: nat) returns (n: nat)
    requires IsProbeRun(events, host, steps, states) && k <= |steps|
    ensures
      var p := states[k];
      && (forall x, ev | x in Visible(p) && x.Cursor() <= p.ack && ev in Sent(events, x) :: Trackers.Apply(host, ev) in p.handed)
      && n <= |Visible(p)| && Deliveries.Received(host, Trackers.Once(p.handed)) == Deliveries.Expected(host, Entries(events, Visible(p)), n)
  {
    hide Reaches, VisibleIn, Before, FilesOk, After, Can, Deliveries.InFlightOk, Deliveries.AcksBehind;
    var p := states[k];
    var s := ProbeRunsTheProtocol(events, host, steps, states, k);
    ReachedIsOk(host, s);
    Deliveries.AckedIsHandedOver(s);
    n := s.heard;
    forall x, ev | x in Visible(p) && x.Cursor() <= p.ack && ev in Sent(events, x)
      ensures Trackers.Apply(host, ev) in p.handed
    {
      var i :| 0 <= i < |Visible(p)| && Visible(p)[i] == x;
      assert s.log[i].cursor <= s.ack && s.log[i].event.Some? && ev == Deliveries.EventAt(s.log, i);
    }
  }
}
