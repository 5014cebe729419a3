/**
 The probe's spool: an append-only log in one file per day, read back in cursor
 order. Files are byte sequences; a record is a line that ends in a newline.
 */
module Spools {
  import opened Wrappers
  import opened DayLogs
  import Seqs

  type byte = b: int | 0 <= b < 256

  type Files = map<nat, seq<byte>>

  type Text = Line<seq<byte>>

  const NL: byte := 10

  // ---- lines of one file ----

  /** The offset just past the first newline at or after `start`. */
  function LineEnd(buf: seq<byte>, start: nat): (r: Option<nat>)
    ensures r.Some? ==> start < r.value <= |buf|
    decreases |buf| - start
  {
    if start >= |buf| then None
    else if buf[start] == NL then Some(start + 1)
    else LineEnd(buf, start + 1)
  }

  /** The complete lines of a day's file from offset `start` on. */
  function Lines(day: nat, buf: seq<byte>, start: nat): seq<Text>
    decreases |buf| - start
  {
    match LineEnd(buf, start)
    case None => []
    case Some(e) => [Line(day, e, buf[start..e - 1])] + Lines(day, buf, e)
  }

  lemma {:induction false} LineIsOfItsDay(day: nat, buf: seq<byte>, start: nat, k: nat)
    requires k < |Lines(day, buf, start)|
    ensures Lines(day, buf, start)[k].day == day && start < Lines(day, buf, start)[k].end <= |buf|
    ensures k > 0 ==> Lines(day, buf, start)[k - 1].end < Lines(day, buf, start)[k].end
    decreases |buf| - start
  {
    var e := LineEnd(buf, start).value;
    if k > 0 {
      LineIsOfItsDay(day, buf, e, k - 1);
    }
  }

  /** Reading on from the end of a line gives the lines after it. */
  lemma {:induction false} LinesResume(day: nat, buf: seq<byte>, start: nat, k: nat)
    requires k < |Lines(day, buf, start)|
    ensures Lines(day, buf, Lines(day, buf, start)[k].end) == Lines(day, buf, start)[k + 1..]
    decreases |buf| - start
  {
    var e := LineEnd(buf, start).value;
    if k > 0 {
      LinesResume(day, buf, e, k - 1);
      assert Lines(day, buf, start)[k + 1..] == Lines(day, buf, e)[k..];
    }
  }

  lemma {:induction false} LineEndStable(buf: seq<byte>, more: seq<byte>, start: nat)
    requires LineEnd(buf, start).Some?
    ensures LineEnd(buf + more, start) == LineEnd(buf, start)
    decreases |buf| - start
  {
    if buf[start] != NL {
      LineEndStable(buf, more, start + 1);
    }
  }

  /** Appending to a file keeps the lines it had. */
  lemma {:induction false} LinesExtend(day: nat, buf: seq<byte>, more: seq<byte>, start: nat)
    ensures Lines(day, buf, start) <= Lines(day, buf + more, start)
    decreases |buf| - start
  {
    if LineEnd(buf, start).Some? {
      var e := LineEnd(buf, start).value;
      LineEndStable(buf, more, start);
      LinesExtend(day, buf, more, e);
      assert (buf + more)[start..e - 1] == buf[start..e - 1];
    }
  }

  // ---- the files as a log ----

  function File(files: Files, day: nat): seq<byte> { if day in files then files[day] else [] }

  function LogOf(files: Files): Log<seq<byte>> { (d: nat, o: nat) => Lines(d, File(files, d), o) }

  /** Every day and file length fits its part of a cursor. */
  ghost predicate Fit(files: Files) { forall d | d in files :: d < DAYS && |files[d]| < OFFSETS }

  lemma {:induction false} FilesAreSound(files: Files)
    ensures Sound(LogOf(files)) && (Fit(files) ==> Packs(LogOf(files)))
  {
    var log := LogOf(files);
    forall d: nat, o: nat, k: nat | k < |log(d, o)|
      ensures log(d, o)[k].day == d && o < log(d, o)[k].end && log(d, log(d, o)[k].end) == log(d, o)[k + 1..]
      ensures Fit(files) ==> d < DAYS && log(d, o)[k].end < OFFSETS
    {
      LineIsOfItsDay(d, File(files, d), o, k);
      LinesResume(d, File(files, d), o, k);
    }
  }

  lemma {:induction false} AppendGrows(files: Files, day: nat, more: seq<byte>)
    ensures Grew(LogOf(files), LogOf(files[day := File(files, day) + more]), day)
  {
    var after := files[day := File(files, day) + more];
    var f, g := LogOf(files), LogOf(after);
    forall d: nat, o: nat
      ensures d != day ==> f(d, o) == g(d, o)
      ensures d == day ==> f(d, o) <= g(d, o)
    {
      LinesExtend(day, File(files, day), more, o);
      assert f(d, o) == Lines(d, File(files, d), o) && g(d, o) == Lines(d, File(after, d), o);
    }
  }

  /** A record that lands in a day before the cursor's is never read, at any time. */
  lemma {:induction false} LateRecordIsNeverRead(files: Files, day: nat, more: seq<byte>, cursor: nat, now: nat)
    requires day < SplitCursor(cursor).0
    ensures Read(LogOf(files[day := File(files, day) + more]), cursor, now) == Read(LogOf(files), cursor, now)
  {
    AppendGrows(files, day, more);
    ReadDependsOn(LogOf(files[day := File(files, day) + more]), LogOf(files), cursor, now);
  }

  // ---- appends and drains in any interleaving ----

  datatype Step =
    | Land(stamp: nat, text: seq<byte>, at: nat) // a hook's record reaches its file
    | Drain(at: nat)

  /** The files, the reader's cursor and everything it has returned. */
  datatype Reader = Reader(files: Files, cursor: nat, got: seq<Text>) {
    function After(step: Step): Reader {
      match step
      case Land(stamp, text, _) =>
        this.(files := files[stamp / DAY_MS := File(files, stamp / DAY_MS) + (text + [NL])])
      case Drain(at) =>
        var more := Read(LogOf(files), cursor, at);
        Reader(files, EndCursor(more, cursor), got + more)
    }
  }

  function Run(r: Reader, steps: seq<Step>): Reader {
    if steps == [] then r else Run(r, steps[..|steps| - 1]).After(steps[|steps| - 1])
  }

  function Clock(steps: seq<Step>): nat { if steps == [] then 0 else steps[|steps| - 1].at }

  /** Time does not go back, and a record lands less than `DAY_GRACE_MS` after its stamp. */
  ghost predicate Timely(steps: seq<Step>) {
    && (forall i, j | 0 <= i <= j < |steps| :: steps[i].at <= steps[j].at)
    && (forall i | 0 <= i < |steps| && steps[i].Land? :: steps[i].stamp <= steps[i].at < steps[i].stamp + DAY_GRACE_MS)
  }

  lemma {:induction false} RunKeeps(r: Reader, steps: seq<Step>)
    requires r.got == [] && Timely(steps) && Fit(Run(r, steps).files)
    ensures var now := Run(r, steps); InStep(LogOf(now.files), now.cursor, now.got, r.cursor, Clock(steps))
    decreases |steps|
  {
    if steps != [] {
      var before, last := steps[..|steps| - 1], steps[|steps| - 1];
      var mid := Run(r, before);
      assert Fit(mid.files) by {
        forall d | d in mid.files ensures d < DAYS && |mid.files[d]| < OFFSETS {
          assert |mid.files[d]| <= |Run(r, steps).files[d]|;
        }
      }
      RunKeeps(r, before);
      FilesAreSound(mid.files);
      match last
      case Land(stamp, text, at) =>
        AppendGrows(mid.files, stamp / DAY_MS, text + [NL]);
        LandKeeps(LogOf(mid.files), LogOf(Run(r, steps).files), mid.cursor, mid.got, r.cursor, Clock(before), stamp, at);
      case Drain(at) =>
        DrainKeeps(LogOf(mid.files), mid.cursor, mid.got, r.cursor, Clock(before), at);
    }
  }

  /** However appends and drains interleave, the drains together return exactly what a
      single read of the final files from the first cursor returns, each line once and
      in strictly increasing cursor order. */
  lemma {:induction false} DrainsEqualOneRead(r: Reader, steps: seq<Step>)
    requires r.got == [] && steps != [] && steps[|steps| - 1].Drain? && Timely(steps) && Fit(Run(r, steps).files)
    ensures var end := Run(r, steps);
      && end.got == Read(LogOf(end.files), r.cursor, steps[|steps| - 1].at)
      && forall k | 0 <= k < |end.got| - 1 :: end.got[k].Cursor() < end.got[k + 1].Cursor()
  {
    hide LogOf, From, Horizon;
    var before, at := steps[..|steps| - 1], steps[|steps| - 1].at;
    var mid, end := Run(r, before), Run(r, steps);
    var log := LogOf(end.files);
    RunKeeps(r, before);
    FilesAreSound(end.files);
    DrainKeeps(log, mid.cursor, mid.got, r.cursor, Clock(before), at);
    forall k | 0 <= k < |end.got| - 1
      ensures end.got[k].Cursor() < end.got[k + 1].Cursor()
    {
      InOrder(log, SplitCursor(r.cursor).0, SplitCursor(r.cursor).1, Horizon(at), k);
    }
  }

  // ---- whole lines come back whole ----

  function Joined(texts: seq<seq<byte>>): seq<byte> {
    if texts == [] then [] else Joined(texts[..|texts| - 1]) + texts[|texts| - 1] + [NL]
  }

  function Texts(lines: seq<Text>): seq<seq<byte>> { seq(|lines|, i requires 0 <= i < |lines| => lines[i].text) }

  lemma {:induction false} LineEndIs(buf: seq<byte>, start: nat, end: nat)
    requires start < end <= |buf| && buf[end - 1] == NL && forall i | start <= i < end - 1 :: buf[i] != NL
    ensures LineEnd(buf, start) == Some(end)
    decreases end - start
  {
    if start != end - 1 {
      LineEndIs(buf, start + 1, end);
    }
  }

  lemma {:induction false} NewlineEndsLine(buf: seq<byte>, start: nat)
    requires start < |buf| && buf[|buf| - 1] == NL
    ensures LineEnd(buf, start).Some?
    decreases |buf| - start
  {
    if buf[start] != NL {
      NewlineEndsLine(buf, start + 1);
    }
  }

  /** A whole line written after whole lines is one more line. */
  lemma {:induction false} OneMoreLine(day: nat, buf: seq<byte>, text: seq<byte>, start: nat)
    requires NL !in text && start <= |buf| && (start == |buf| || buf[|buf| - 1] == NL)
    ensures Lines(day, buf + text + [NL], start) == Lines(day, buf, start) + [Line(day, |buf| + |text| + 1, text)]
    decreases |buf| - start
  {
    var all := buf + text + [NL];
    if start == |buf| {
      LineEndIs(all, start, |all|);
      assert LineEnd(buf, start) == None;
      assert all[start..|all| - 1] == text;
      assert Lines(day, all, |all|) == [];
    } else {
      NewlineEndsLine(buf, start);
      var e := LineEnd(buf, start).value;
      assert all == buf + (text + [NL]);
      LineEndStable(buf, text + [NL], start);
      OneMoreLine(day, buf, text, e);
      assert all[start..e - 1] == buf[start..e - 1];
    }
  }

  /** A file written as whole lines is read back as those lines, in order. */
  lemma {:induction false} WrittenIsRead(day: nat, texts: seq<seq<byte>>)
    requires forall t | t in texts :: NL !in t
    ensures Texts(Lines(day, Joined(texts), 0)) == texts
    ensures texts == [] || Joined(texts)[|Joined(texts)| - 1] == NL
    decreases |texts|
  {
    if texts != [] {
      var before, last := texts[..|texts| - 1], texts[|texts| - 1];
      WrittenIsRead(day, before);
      OneMoreLine(day, Joined(before), last, 0);
      assert texts == before + [last];
    }
  }

  /** The records that landed in day `d`, in order. */
  function LandedOn(steps: seq<Step>, d: nat): seq<seq<byte>> {
    if steps == [] then [] else
      var before, last := LandedOn(steps[..|steps| - 1], d), steps[|steps| - 1];
      if last.Land? && last.stamp / DAY_MS == d then before + [last.text] else before
  }

  ghost predicate WholeLines(steps: seq<Step>) { forall i | 0 <= i < |steps| && steps[i].Land? :: NL !in steps[i].text }

  lemma {:induction false} FilesHoldLanded(steps: seq<Step>, d: nat)
    requires WholeLines(steps)
    ensures File(Run(Reader(map[], 0, []), steps).files, d) == Joined(LandedOn(steps, d))
    ensures forall t | t in LandedOn(steps, d) :: NL !in t
    decreases |steps|
  {
    if steps != [] {
      var before, last := steps[..|steps| - 1], steps[|steps| - 1];
      FilesHoldLanded(before, d);
      if last.Land? && last.stamp / DAY_MS == d {
        var was := LandedOn(before, d);
        assert (was + [last.text])[..|was|] == was;
      }
    }
  }

  /** From an empty spool, the drains return day after day, up to the last day released,
      exactly the records that landed in that day, in the order they landed. */
  lemma {:induction false} EveryReleasedRecordOnce(steps: seq<Step>)
    requires steps != [] && steps[|steps| - 1].Drain? && Timely(steps) && WholeLines(steps)
    requires Fit(Run(Reader(map[], 0, []), steps).files)
    ensures var end := Run(Reader(map[], 0, []), steps);
      var days := Whole(LogOf(end.files));
      var now := steps[|steps| - 1].at;
      && end.got == Seqs.Cat(days, 0, if Horizon(now) == 0 then 1 else Horizon(now))
      && forall d: nat :: Texts(days(d)) == LandedOn(steps, d)
  {
    var end := Run(Reader(map[], 0, []), steps);
    DrainsEqualOneRead(Reader(map[], 0, []), steps);
    forall d: nat
      ensures Texts(Whole(LogOf(end.files))(d)) == LandedOn(steps, d)
    {
      FilesHoldLanded(steps, d);
      WrittenIsRead(d, LandedOn(steps, d));
    }
    assert Seqs.Cat(Whole(LogOf(end.files)), 1, 1) == [];
  }

  // ---- the spool on disk ----

  /** `day` inserted into an ascending list. */
  function Inserted(days: seq<nat>, day: nat): (r: seq<nat>)
    requires Ascending(days) && day !in days
    ensures Ascending(r) && (forall d :: d in r <==> d in days || d == day)
  {
    if days == [] || day < days[0] then [day] + days
    else
      var rest := Inserted(days[1..], day);
      assert forall d | d in days[1..] :: days[0] < d;
      assert forall d | d in rest :: days[0] < d;
      assert forall j | 0 <= j < |rest| :: rest[j] in rest;
      [days[0]] + rest
  }

  predicate Ascending(days: seq<nat>) { forall i, j | 0 <= i < j < |days| :: days[i] < days[j] }

  datatype ReadResult<R> = ReadResult(records: seq<(nat, R)>, badLines: nat, endCursor: nat)

  /** The parsed lines, with their cursors; lines that do not parse are only counted. */
  function Records<R>(parse: seq<byte> -> Option<R>, lines: seq<Text>): seq<(nat, R)> {
    if lines == [] then [] else
      var x := lines[|lines| - 1];
      Records(parse, lines[..|lines| - 1]) +
      match parse(x.text)
      case Some(r) => [(x.Cursor(), r)]
      case None => []
  }

  function Bad<R>(parse: seq<byte> -> Option<R>, lines: seq<Text>): nat {
    if lines == [] then 0
    else Bad(parse, lines[..|lines| - 1]) + if parse(lines[|lines| - 1].text).None? then 1 else 0
  }

  function Parsed<R>(parse: seq<byte> -> Option<R>, lines: seq<Text>, cursor: nat): ReadResult<R> {
    ReadResult(Records(parse, lines), Bad(parse, lines), EndCursor(lines, cursor))
  }

  /** The result after one more line. */
  lemma {:induction false} ParsedSnoc<R>(parse: seq<byte> -> Option<R>, lines: seq<Text>, x: Text, cursor: nat)
    ensures Parsed(parse, lines + [x], cursor) == ReadResult(
      Records(parse, lines) + (match parse(x.text) case Some(r) => [(x.Cursor(), r)] case None => []),
      Bad(parse, lines) + (if parse(x.text).None? then 1 else 0),
      x.Cursor())
  {
    assert (lines + [x])[..|lines|] == lines;
  }

  /** Every line that parses comes back in its place with its cursor, and the others are counted. */
  lemma {:induction false} EachLineParsed<R>(parse: seq<byte> -> Option<R>, lines: seq<Text>, i: nat)
    requires i < |lines|
    ensures |Records(parse, lines)| + Bad(parse, lines) == |lines|
    ensures parse(lines[i].text).Some? ==>
      Records(parse, lines[..i]) + [(MakeCursor(lines[i].day, lines[i].end), parse(lines[i].text).value)] <= Records(parse, lines)
    ensures parse(lines[i].text).None? ==> Bad(parse, lines[..i]) < Bad(parse, lines)
    decreases |lines|
  {
    var n := |lines| - 1;
    if i < n {
      EachLineParsed(parse, lines[..n], i);
      assert lines[..n][..i] == lines[..i];
    } else if n > 0 {
      EachLineParsed(parse, lines[..n], 0);
    } else {
      assert lines[..0] == [];
    }
  }

  class Spool<R> {
    const parse: seq<byte> -> Option<R>
    var files: Files

    constructor (parse: seq<byte> -> Option<R>)
      ensures files == map[] && this.parse == parse
    {
      this.parse := parse;
      files := map[];
    }

    /** Append one record's line to the file of its stamp's day. */
    method Append(stamp: nat, text: seq<byte>)
      modifies `files
      ensures var day := stamp / DAY_MS;
        files == old(files)[day := (if day in old(files) then old(files)[day] else []) + (text + [NL])]
      ensures forall cursor, got :: Reader(files, cursor, got) == Reader(old(files), cursor, got).After(Land(stamp, text, stamp))
    {
      var day := stamp / DAY_MS;
      files := files[day := (if day in files then files[day] else []) + (text + [NL])];
    }

    /** The days on disk, ascending. */
    method Days() returns (days: seq<nat>)
      ensures Ascending(days) && forall d :: d in days <==> d in files
    {
      days := [];
      var todo := files.Keys;
      while todo != {}
        invariant todo <= files.Keys && Ascending(days)
        invariant forall d :: d in days <==> d in files && d !in todo
        decreases |todo|
      {
        var d :| d in todo;
        days := Inserted(days, d);
        todo := todo - {d};
      }
    }

    /** One file's complete lines from `start` on, added to what was read before. */
    method ReadFile(day: nat, start: nat, cursor: nat, ghost before: seq<Text>, sofar: ReadResult<R>) returns (out: ReadResult<R>)
      requires day in files && sofar == Parsed(parse, before, cursor)
      ensures out == Parsed(parse, before + Lines(day, files[day], start), cursor)
    {
      hide Records, Bad, LineEnd;
      var buf := files[day];
      var offset := start;
      out := sofar;
      ghost var seen := before;
      var next := LineEnd(buf, offset);
      while next.Some?
        invariant next == LineEnd(buf, offset)
        invariant out == Parsed(parse, seen, cursor)
        invariant before + Lines(day, buf, start) == seen + Lines(day, buf, offset)
        decreases |buf| - offset
      {
        var text := buf[offset..next.value - 1];
        ghost var x := Line(day, next.value, text);
        ParsedSnoc(parse, seen, x, cursor);
        offset := next.value;
        var at := MakeCursor(day, offset);
        match parse(text) {
          case Some(r) => out := ReadResult(out.records + [(at, r)], out.badLines, at);
          case None => out := ReadResult(out.records, out.badLines + 1, at);
        }
        seen := seen + [x];
        next := LineEnd(buf, offset);
      }
      assert seen + Lines(day, buf, offset) == seen;
    }

    /** The whole lines behind `cursor` in its own day and in every released one. */
    method ReadAfter(cursor: nat, now: nat) returns (out: ReadResult<R>)
      ensures out == Parsed(parse, Read(LogOf(files), cursor, now), cursor)
    {
      hide Lines, Parsed, Read, LogOf, Horizon, Upto;
      var (curDay, curOff) := SplitCursor(cursor);
      out := ReadResult([], 0, cursor);
      var days := Days();
      ghost var next: nat := curDay; // days below this have been read
      ghost var seen: seq<Text> := [];
      NothingRead(parse, files, curDay, curOff, cursor);
      var i := 0;
      while i < |days|
        invariant 0 <= i <= |days| && curDay <= next
        invariant forall j | 0 <= j < i :: days[j] < next
        invariant next == curDay || (i > 0 && next == days[i - 1] + 1)
        invariant curDay + 1 < next ==> next <= Horizon(now)
        invariant out == Parsed(parse, seen, cursor)
        invariant seen == Upto(files, curDay, curOff, next)
      {
        var day := days[i];
        if day >= curDay {
          HorizonIsReleased(day, now);
          if day > curDay && now < day * DAY_MS + DAY_GRACE_MS {
            break;
          }
          var start := if day == curDay then curOff else 0;
          out := ReadFile(day, start, cursor, seen, out);
          UptoNext(files, curDay, curOff, next, day);
          seen, next := seen + Lines(day, files[day], start), day + 1;
        }
        i := i + 1;
      }
      ReadIsUpto(files, cursor, now, next);
    }

    /** Delete the day files older than `keepDays` before `now`. */
    method Cleanup(now: nat, keepDays: nat) returns (removed: nat)
      modifies `files
      ensures files == RecentFiles(old(files), now, keepDays) && removed + |files| == |old(files)|
      ensures forall d :: d in files <==> d in old(files) && d + keepDays >= now / DAY_MS
      ensures forall d | d in files :: files[d] == old(files)[d]
    {
      var today := now / DAY_MS;
      var days := Days();
      removed := 0;
      for i := 0 to |days|
        invariant Cleaned(old(files), files, days[..i], now, keepDays) && removed + |files| == |old(files)|
      {
        assert days[..i + 1] == days[..i] + [days[i]];
        CleanedNext(old(files), files, days[..i], days[i], now, keepDays);
        if days[i] + keepDays < today {
          RemoveDay(days[i]);
          removed := removed + 1;
        }
      }
      assert days[..|days|] == days;
      CleanedAll(old(files), files, days, now, keepDays);
    }

    method RemoveDay(day: nat)
      requires day in files
      modifies `files
      ensures files == old(files) - {day} && |files| == |old(files)| - 1
    {
      assert (files - {day})[day := files[day]] == files;
      files := files - {day};
    }
  }

  /** The files of the last `keepDays` days before `now` and later. */
  function RecentFiles(files: Files, now: nat, keepDays: nat): Files {
    map d | d in files && d + keepDays >= now / DAY_MS :: files[d]
  }

  /** The old ones among the days `done` have been deleted. */
  ghost predicate Cleaned(was: Files, files: Files, done: seq<nat>, now: nat, keepDays: nat) {
    && files.Keys <= was.Keys
    && forall d | d in was ::
         if d in done && d + keepDays < now / DAY_MS then d !in files else d in files && files[d] == was[d]
  }

  lemma CleanedNext(was: Files, files: Files, done: seq<nat>, day: nat, now: nat, keepDays: nat)
    requires Cleaned(was, files, done, now, keepDays) && day in was && day !in done
    ensures day in files
    ensures Cleaned(was, if day + keepDays < now / DAY_MS then files - {day} else files, done + [day], now, keepDays)
  {
  }

  lemma CleanedAll(was: Files, files: Files, done: seq<nat>, now: nat, keepDays: nat)
    requires Cleaned(was, files, done, now, keepDays) && forall d | d in was :: d in done
    ensures files == RecentFiles(was, now, keepDays)
  {
  }

  /** Cleaning up changes nothing for a reader whose day is kept. */
  lemma {:induction false} CleanupKeepsReads(files: Files, now: nat, keepDays: nat, cursor: nat, t: nat)
    requires SplitCursor(cursor).0 + keepDays >= now / DAY_MS
    ensures Read(LogOf(RecentFiles(files, now, keepDays)), cursor, t) == Read(LogOf(files), cursor, t)
  {
    var recent := RecentFiles(files, now, keepDays);
    forall d: nat, o: nat | SplitCursor(cursor).0 <= d
      ensures LogOf(recent)(d, o) == LogOf(files)(d, o)
    {
      assert File(recent, d) == File(files, d);
    }
    ReadDependsOn(LogOf(recent), LogOf(files), cursor, t);
  }

  /** The lines from a position on in days below `next`. */
  function Upto(files: Files, day: nat, off: nat, next: nat): seq<Text> {
    if next <= day then [] else From(LogOf(files), day, off, next)
  }

  lemma NothingRead<R>(parse: seq<byte> -> Option<R>, files: Files, day: nat, off: nat, cursor: nat)
    ensures Upto(files, day, off, day) == [] && Parsed(parse, [], cursor) == ReadResult([], 0, cursor)
  {
  }

  lemma NoLines(files: Files, day: nat, off: nat)
    requires day !in files
    ensures Lines(day, File(files, day), off) == []
  {
  }

  lemma {:induction false} NoDays(files: Files, lo: nat, hi: nat)
    requires forall d | lo <= d < hi :: d !in files
    ensures Seqs.Cat(Whole(LogOf(files)), lo, hi) == []
  {
    forall d: nat | lo <= d < hi
      ensures Whole(LogOf(files))(d) == []
    {
      NoLines(files, d, 0);
    }
    Seqs.CatNone(Whole(LogOf(files)), lo, hi);
  }

  lemma {:induction false} CatNext(files: Files, lo: nat, next: nat, add: nat)
    requires lo <= next <= add && forall d | next <= d < add :: d !in files
    ensures Seqs.Cat(Whole(LogOf(files)), lo, add + 1) == Seqs.Cat(Whole(LogOf(files)), lo, next) + Lines(add, File(files, add), 0)
  {
    NoDays(files, next, add);
    Seqs.CatSplit(Whole(LogOf(files)), lo, next, add);
    Seqs.CatSnoc(Whole(LogOf(files)), lo, add);
    var before := Seqs.Cat(Whole(LogOf(files)), lo, next);
    assert before + [] == before;
  }

  lemma {:induction false} UptoNext(files: Files, day: nat, off: nat, next: nat, add: nat)
    requires day <= next <= add && add in files && forall d | next <= d < add :: d !in files
    ensures Upto(files, day, off, add + 1) ==
      Upto(files, day, off, next) + Lines(add, files[add], if add == day then off else 0)
  {
    hide Lines;
    var here := Lines(day, File(files, day), off);
    if day == add {
      assert Seqs.Cat(Whole(LogOf(files)), day + 1, add + 1) == [];
      assert here + [] == here && [] + here == here;
    } else if next == day {
      NoLines(files, day, off);
      CatNext(files, day + 1, day + 1, add);
      assert Seqs.Cat(Whole(LogOf(files)), day + 1, day + 1) == [];
    } else {
      CatNext(files, day + 1, next, add);
      Seqs.Assoc(here, Seqs.Cat(Whole(LogOf(files)), day + 1, next), Lines(add, files[add], 0));
    }
  }

  /** Nothing is left to read when every further file is of a day not released yet. */
  lemma {:induction false} ReadIsUpto(files: Files, cursor: nat, now: nat, next: nat)
    requires SplitCursor(cursor).0 <= next && (SplitCursor(cursor).0 + 1 < next ==> next <= Horizon(now))
    requires forall d | d in files && next <= d :: d > SplitCursor(cursor).0 && Horizon(now) <= d
    ensures Read(LogOf(files), cursor, now) == Upto(files, SplitCursor(cursor).0, SplitCursor(cursor).1, next)
  {
    hide Lines;
    var day := SplitCursor(cursor).0;
    if next <= day {
      NoLines(files, day, SplitCursor(cursor).1);
      NoDays(files, day + 1, Horizon(now));
    } else if next <= Horizon(now) {
      Seqs.CatSplit(Whole(LogOf(files)), day + 1, next, Horizon(now));
      NoDays(files, next, Horizon(now));
      assert Seqs.Cat(Whole(LogOf(files)), day + 1, next) + [] == Seqs.Cat(Whole(LogOf(files)), day + 1, next);
    }
  }
}
