/**
 Reading a log that is split into days, whatever the days' files look like: cursors,
 the grace period after midnight, and what growing files do to a reader in progress.
 */
module DayLogs {
  import Seqs

  const DAY_MS: nat := 86_400_000
  /** A day's file is read only this long after the day began. */
  const DAY_GRACE_MS: nat := 10_000

  // ---- cursors: a day and an offset packed into 64 bits ----

  const OFFSETS: nat := 0x100_0000_0000
  const DAYS: nat := 0x100_0000
  const WORD: nat := 0x1_0000_0000_0000_0000

  /** `(day << 40) | (end & mask)` on 64-bit words. */
  function MakeCursor(day: nat, end: nat): nat { day * OFFSETS % WORD + end % OFFSETS }

  function SplitCursor(cursor: nat): (nat, nat) { (cursor / OFFSETS, cursor % OFFSETS) }

  /** Packing is undone by splitting exactly for days below 2^24 and offsets below 2^40. */
  lemma {:induction false} CursorRoundTrip(day: nat, end: nat)
    ensures SplitCursor(MakeCursor(day, end)) == (day, end) <==> day < DAYS && end < OFFSETS
  {
    assert day * OFFSETS == (day / DAYS) * WORD + (day % DAYS) * OFFSETS;
    assert day * OFFSETS % WORD == (day % DAYS) * OFFSETS;
  }

  lemma {:induction false} CursorOrder(d1: nat, e1: nat, d2: nat, e2: nat)
    requires d1 < DAYS && d2 < DAYS && e1 < OFFSETS && e2 < OFFSETS
    ensures MakeCursor(d1, e1) < MakeCursor(d2, e2) <==> d1 < d2 || (d1 == d2 && e1 < e2)
  {
    assert d1 * OFFSETS % WORD == d1 * OFFSETS && d2 * OFFSETS % WORD == d2 * OFFSETS;
  }

  /** A complete line: its day, the offset just past it and its text. */
  datatype Line<T> = Line(day: nat, end: nat, text: T) {
    function Cursor(): nat { MakeCursor(day, end) }
  }

  function EndCursor<T>(lines: seq<Line<T>>, cursor: nat): nat {
    if lines == [] then cursor else lines[|lines| - 1].Cursor()
  }

  /** Days below this have been on for `DAY_GRACE_MS` at `now`. */
  function Horizon(now: nat): nat { if now < DAY_GRACE_MS then 0 else (now - DAY_GRACE_MS) / DAY_MS + 1 }

  lemma HorizonIsReleased(day: nat, now: nat)
    ensures day < Horizon(now) <==> day * DAY_MS + DAY_GRACE_MS <= now
  {
  }

  /** The complete lines of a day from an offset on. */
  type Log<!T> = (nat, nat) -> seq<Line<T>>

  /** Lines know where they are, and reading on from the end of one gives those after it. */
  ghost predicate Sound<T>(log: Log<T>) {
    forall d: nat, o: nat, k: nat | k < |log(d, o)| ::
      && log(d, o)[k].day == d && o < log(d, o)[k].end
      && log(d, log(d, o)[k].end) == log(d, o)[k + 1..]
  }

  /** Every day and offset fits its part of a cursor. */
  ghost predicate Packs<T>(log: Log<T>) {
    forall d: nat, o: nat, k: nat | k < |log(d, o)| :: d < DAYS && log(d, o)[k].end < OFFSETS
  }

  /** Only day `add` changed, and only by lines added at its end. */
  ghost predicate Grew<T>(f: Log<T>, g: Log<T>, add: nat) {
    && (forall d: nat, o: nat | d != add :: f(d, o) == g(d, o))
    && (forall o: nat :: f(add, o) <= g(add, o))
  }

  function Whole<T>(log: Log<T>): nat -> seq<Line<T>> { (d: nat) => log(d, 0) }

  /** All lines from a position on, in days below `hi` or the position's own. */
  function From<T>(log: Log<T>, day: nat, off: nat, hi: nat): seq<Line<T>> {
    log(day, off) + Seqs.Cat(Whole(log), day + 1, hi)
  }

  /** What the reader may see at `now` after `cursor`. */
  function Read<T>(log: Log<T>, cursor: nat, now: nat): seq<Line<T>> {
    From(log, SplitCursor(cursor).0, SplitCursor(cursor).1, Horizon(now))
  }

  /** Where the k-th line lies: in the position's day or a released one; reading on from
      there gives exactly the lines after it. */
  lemma {:induction false} ResumeAt<T>(log: Log<T>, day: nat, off: nat, hi: nat, k: nat)
    requires Sound(log) && k < |From(log, day, off, hi)|
    ensures var x := From(log, day, off, hi)[k];
      && day <= x.day && (x.day == day || x.day < hi) && (x.day == day ==> off < x.end)
      && From(log, x.day, x.end, hi) == From(log, day, off, hi)[k + 1..]
      && (Packs(log) ==> x.day < DAYS && x.end < OFFSETS)
  {
    hide Seqs.Cat;
    var here, rest := log(day, off), Seqs.Cat(Whole(log), day + 1, hi);
    Seqs.DropOf(here, rest, k + 1);
    if k < |here| {
      assert here[k] == From(log, day, off, hi)[k];
    } else {
      var d, j := Seqs.CatFind(Whole(log), day + 1, hi, k - |here|);
      assert Whole(log)(d) == log(d, 0);
      assert log(d, 0)[j] == From(log, day, off, hi)[k];
    }
  }

  /** The lines that come back are in cursor order. */
  lemma {:induction false} InOrder<T>(log: Log<T>, day: nat, off: nat, hi: nat, k: nat)
    requires Sound(log) && Packs(log) && k + 1 < |From(log, day, off, hi)|
    ensures From(log, day, off, hi)[k].Cursor() < From(log, day, off, hi)[k + 1].Cursor()
  {
    var x, y := From(log, day, off, hi)[k], From(log, day, off, hi)[k + 1];
    ResumeAt(log, day, off, hi, k);
    assert From(log, x.day, x.end, hi)[0] == y;
    ResumeAt(log, x.day, x.end, hi, 0);
    CursorOrder(x.day, x.end, y.day, y.end);
  }

  /** Later on, the reader sees at least what it sees now. */
  lemma {:induction false} ReadGrowsWithTime<T>(log: Log<T>, cursor: nat, t1: nat, t2: nat)
    requires t1 <= t2
    ensures Read(log, cursor, t1) <= Read(log, cursor, t2)
  {
    var day := SplitCursor(cursor).0;
    if day + 1 <= Horizon(t1) {
      Seqs.CatSplit(Whole(log), day + 1, Horizon(t1), Horizon(t2));
    }
  }

  /** A read depends only on the cursor's day and later ones. */
  lemma {:induction false} ReadDependsOn<T>(f: Log<T>, g: Log<T>, cursor: nat, now: nat)
    requires forall d: nat, o: nat | SplitCursor(cursor).0 <= d :: f(d, o) == g(d, o)
    ensures Read(f, cursor, now) == Read(g, cursor, now)
  {
    Seqs.CatSame(Whole(f), Whole(g), SplitCursor(cursor).0 + 1, Horizon(now));
  }

  /** A day that grew leaves the first lines of a read alone when they are of no later day. */
  lemma {:induction false} PrefixKept<T>(f: Log<T>, g: Log<T>, add: nat, day: nat, off: nat, hi: nat, k: nat)
    requires Sound(f) && Grew(f, g, add) && k <= |From(f, day, off, hi)| && day <= add
    requires k > 0 ==> From(f, day, off, hi)[k - 1].day <= add
    ensures From(f, day, off, hi)[..k] <= From(g, day, off, hi)
  {
    var here, rest, rest' := f(day, off), Seqs.Cat(Whole(f), day + 1, hi), Seqs.Cat(Whole(g), day + 1, hi);
    Seqs.TakeOf(here, rest, k);
    if k > |here| {
      assert From(f, day, off, hi)[k - 1] == rest[k - |here| - 1];
      RestKept(f, g, add, day + 1, hi, k - |here|);
      Seqs.PrefixUnder(here, rest[..k - |here|], rest');
    }
  }

  lemma {:induction false} RestKept<T>(f: Log<T>, g: Log<T>, add: nat, lo: nat, hi: nat, n: nat)
    requires Sound(f) && Grew(f, g, add) && 0 < n <= |Seqs.Cat(Whole(f), lo, hi)|
    requires Seqs.Cat(Whole(f), lo, hi)[n - 1].day <= add
    ensures lo <= add && Seqs.Cat(Whole(f), lo, hi)[..n] <= Seqs.Cat(Whole(g), lo, hi)
  {
    hide Seqs.Cat;
    var d, j := Seqs.CatFind(Whole(f), lo, hi, n - 1);
    assert Whole(f)(d) == f(d, 0) && f(d, 0)[j].day == d;
    Seqs.CatSnoc(Whole(f), lo, d);
    Seqs.CatSplit(Whole(f), lo, d + 1, hi);
    Seqs.CatGrows(Whole(f), Whole(g), lo, hi, d);
  }

  // ---- a reader in progress ----

  /** What the reader returned (`got`) is the beginning of a single read from the first
      cursor of the log as it is now, and its cursor stands just after it. */
  ghost predicate InStep<T>(log: Log<T>, cursor: nat, got: seq<Line<T>>, first: nat, clock: nat) {
    && got <= Read(log, first, clock)
    && cursor == EndCursor(got, first)
    && (got != [] ==> got[|got| - 1].day == SplitCursor(first).0 || got[|got| - 1].day < Horizon(clock))
  }

  /** Reading on from the reader's cursor gives what it has not returned yet. */
  lemma {:induction false} CursorResumes<T>(log: Log<T>, got: seq<Line<T>>, first: nat, now: nat)
    requires Sound(log) && Packs(log) && got <= Read(log, first, now)
    ensures Read(log, EndCursor(got, first), now) == Read(log, first, now)[|got|..]
  {
    var n := |got|;
    if n > 0 {
      var x := Read(log, first, now)[n - 1];
      ResumeAt(log, SplitCursor(first).0, SplitCursor(first).1, Horizon(now), n - 1);
      CursorRoundTrip(x.day, x.end);
    }
  }

  lemma EndCursorOfRest<T>(got: seq<Line<T>>, rest: seq<Line<T>>, first: nat)
    ensures EndCursor(rest, EndCursor(got, first)) == EndCursor(got + rest, first)
  {
    if rest == [] {
      assert got + rest == got;
    }
  }

  /** The last line of a read is of the cursor's day or of a released one. */
  lemma {:induction false} LastIsReleased<T>(log: Log<T>, cursor: nat, now: nat)
    requires Sound(log) && Read(log, cursor, now) != []
    ensures
      var all := Read(log, cursor, now);
      all[|all| - 1].day == SplitCursor(cursor).0 || all[|all| - 1].day < Horizon(now)
  {
    ResumeAt(log, SplitCursor(cursor).0, SplitCursor(cursor).1, Horizon(now), |Read(log, cursor, now)| - 1);
  }

  /** A drain returns the rest of a single read from the first cursor. */
  lemma {:induction false} DrainKeeps<T>(log: Log<T>, cursor: nat, got: seq<Line<T>>, first: nat, clock: nat, at: nat)
    requires Sound(log) && Packs(log) && InStep(log, cursor, got, first, clock) && clock <= at
    ensures got + Read(log, cursor, at) == Read(log, first, at)
    ensures InStep(log, EndCursor(Read(log, cursor, at), cursor), got + Read(log, cursor, at), first, at)
  {
    hide Read, EndCursor, Sound, Packs, Horizon;
    var all := Read(log, first, at);
    ReadGrowsWithTime(log, first, clock, at);
    CursorResumes(log, got, first, at);
    EndCursorOfRest(got, all[|got|..], first);
    assert got + all[|got|..] == all;
    if all != [] {
      LastIsReleased(log, first, at);
    }
  }

  /** A record that lands less than `DAY_GRACE_MS` after its stamp does not disturb the reader. */
  lemma {:induction false} LandKeeps<T>(f: Log<T>, g: Log<T>, cursor: nat, got: seq<Line<T>>, first: nat, clock: nat, stamp: nat, at: nat)
    requires Sound(f) && Grew(f, g, stamp / DAY_MS) && InStep(f, cursor, got, first, clock)
    requires clock <= at && stamp <= at < stamp + DAY_GRACE_MS
    ensures InStep(g, cursor, got, first, at)
  {
    var (d, o) := SplitCursor(first);
    var add, n := stamp / DAY_MS, |got|;
    ReadGrowsWithTime(f, first, clock, at);
    assert got == Read(f, first, at)[..n];
    if d <= add {
      if n > 0 {
        HorizonIsReleased(got[n - 1].day, clock);
      }
      PrefixKept(f, g, add, d, o, Horizon(at), n);
    } else {
      ReadDependsOn(f, g, first, at);
    }
  }
}
