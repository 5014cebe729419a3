/** Server host keys against known_hosts files: patterns, one file's verdict, all files together. */
module HostKeys {
  import opened Wrappers

  // Globs.

  function Glob(pattern: string, text: string): bool
    decreases |pattern|
  {
    if pattern == [] then text == []
    else if pattern[0] == '*' then exists i | 0 <= i <= |text| :: Glob(pattern[1..], text[i..])
    else if pattern[0] == '?' then text != [] && Glob(pattern[1..], text[1..])
    else text != [] && text[0] == pattern[0] && Glob(pattern[1..], text[1..])
  }

  /** What one pattern character may stand for. */
  predicate Stands(c: char, part: string) {
    if c == '*' then true else if c == '?' then |part| == 1 else part == [c]
  }

  function Concat(parts: seq<string>): string {
    if parts == [] then [] else parts[0] + Concat(parts[1..])
  }

  /** `text` is the pattern with each character replaced by a part it may stand for. */
  ghost predicate Filled(pattern: string, parts: seq<string>, text: string) {
    && |parts| == |pattern|
    && Concat(parts) == text
    && forall i | 0 <= i < |parts| :: Stands(pattern[i], parts[i])
  }

  lemma {:induction false} GlobFills(pattern: string, text: string) returns (parts: seq<string>)
    requires Glob(pattern, text)
    ensures Filled(pattern, parts, text)
    decreases |pattern|
  {
    if pattern == [] {
      parts := [];
    } else {
      var k := 1;
      if pattern[0] == '*' {
        k :| 0 <= k <= |text| && Glob(pattern[1..], text[k..]);
      }
      var more := GlobFills(pattern[1..], text[k..]);
      parts := [text[..k]] + more;
      assert parts[1..] == more;
      assert text == text[..k] + text[k..];
    }
  }

  lemma {:induction false} FilledGlobs(pattern: string, parts: seq<string>, text: string)
    requires Filled(pattern, parts, text)
    ensures Glob(pattern, text)
    decreases |pattern|
  {
    if pattern != [] {
      var k, more := |parts[0]|, Concat(parts[1..]);
      assert Stands(pattern[0], parts[0]);
      assert text[k..] == more;
      FilledGlobs(pattern[1..], parts[1..], more);
    }
  }

  lemma GlobIff(pattern: string, text: string)
    ensures Glob(pattern, text) <==> exists parts :: Filled(pattern, parts, text)
  {
    if Glob(pattern, text) {
      var parts := GlobFills(pattern, text);
    }
    if parts :| Filled(pattern, parts, text) {
      FilledGlobs(pattern, parts, text);
    }
  }

  // Host patterns.

  datatype HostPatterns =
    | HashedName(salt: seq<int>, hash: seq<int>)
    | Patterns(list: seq<string>)

  /** The keyed hash of a name; its computation does not matter here. */
  type Hashing = (seq<int>, seq<int>, string) -> bool

  function LowerChar(c: char): char { if 'A' <= c <= 'Z' then c - 'A' + 'a' else c }

  function Lower(s: string): string { seq(|s|, i requires 0 <= i < |s| => LowerChar(s[i])) }

  predicate Negated(p: string) { p != [] && p[0] == '!' }

  function Body(p: string): string { if Negated(p) then p[1..] else p }

  predicate Matches(p: string, name: string) { Glob(Lower(Body(p)), name) }

  /** A list applies through a positive pattern, and not against a negated one. */
  ghost predicate ListApplies(list: seq<string>, name: string) {
    && (exists p | p in list :: !Negated(p) && Matches(p, name))
    && forall p | p in list :: Negated(p) ==> !Matches(p, name)
  }

  ghost predicate Applies(hashed: Hashing, patterns: HostPatterns, name: string) {
    match patterns
    case HashedName(salt, hash) => hashed(salt, hash, name)
    case Patterns(list) => ListApplies(list, name)
  }

  method HostMatches(hashed: Hashing, patterns: HostPatterns, name: string) returns (b: bool)
    ensures b <==> Applies(hashed, patterns, name)
  {
    match patterns
    case HashedName(salt, hash) =>
      b := hashed(salt, hash, name);
    case Patterns(list) =>
      var matched := false;
      for i := 0 to |list|
        invariant matched <==> exists j | 0 <= j < i :: !Negated(list[j]) && Matches(list[j], name)
        invariant forall j | 0 <= j < i :: Negated(list[j]) ==> !Matches(list[j], name)
      {
        if Matches(list[i], name) {
          if Negated(list[i]) {
            return false;
          }
          matched := true;
        }
      }
      b := matched;
  }

  /** What a written pattern character stands for: anything, one character, or the small letter. */
  predicate Fit(c: char, part: string) {
    || c == '*'
    || (c == '?' && |part| == 1)
    || (c != '?' && 'A' <= c <= 'Z' && part == [(c as int + 32) as char])
    || (c != '?' && !('A' <= c <= 'Z') && part == [c])
  }

  /** `name` is the pattern, without its leading '!', with stars and question marks filled in and every
      ASCII capital made small. */
  ghost predicate Fits(p: string, parts: seq<string>, name: string) {
    var skip := if p != [] && p[0] == '!' then 1 else 0;
    && |parts| == |p| - skip && Concat(parts) == name
    && forall i | 0 <= i < |parts| :: Fit(p[skip + i], parts[i])
  }

  lemma LowerStands(c: char, part: string)
    ensures Stands(LowerChar(c), part) <==> Fit(c, part)
  {
    if 'A' <= c <= 'Z' {
      assert LowerChar(c) == (c as int + 32) as char;
    }
  }

  lemma {:induction false} FitsIff(p: string, parts: seq<string>, name: string)
    ensures Fits(p, parts, name) <==> Filled(Lower(Body(p)), parts, name)
  {
    hide Concat, Stands, LowerChar, Fit;
    var skip := if p != [] && p[0] == '!' then 1 else 0;
    if |parts| == |p| - skip {
      forall i | 0 <= i < |parts|
        ensures Stands(Lower(Body(p))[i], parts[i]) <==> Fit(p[skip + i], parts[i])
      {
        LowerStands(p[skip + i], parts[i]);
      }
    }
  }

  /** An entry's list applies to a name exactly if some pattern without '!' fits it and none with '!' does. */
  lemma AppliesIff(hashed: Hashing, list: seq<string>, name: string)
    ensures Applies(hashed, Patterns(list), name) <==>
      && (exists p, parts :: p in list && Fits(p, parts, name) && !(p != [] && p[0] == '!'))
      && (forall p, parts | p in list && Fits(p, parts, name) :: !(p != [] && p[0] == '!'))
  {
    hide Fits, Filled, Lower, Body, Glob;
    forall p
      ensures Matches(p, name) <==> exists parts :: Fits(p, parts, name)
    {
      MatchesIff(p, name);
    }
  }

  lemma MatchesIff(p: string, name: string)
    ensures Matches(p, name) <==> exists parts :: Fits(p, parts, name)
  {
    hide Fits, Filled, Lower, Body, Glob;
    GlobIff(Lower(Body(p)), name);
    forall parts
      ensures Fits(p, parts, name) <==> Filled(Lower(Body(p)), parts, name)
    {
      FitsIff(p, parts, name);
    }
  }

  /** Reordering an entry's patterns never changes which hosts it applies to. */
  lemma OrderIndependent(hashed: Hashing, a: seq<string>, b: seq<string>, name: string)
    requires multiset(a) == multiset(b)
    ensures Applies(hashed, Patterns(a), name) <==> Applies(hashed, Patterns(b), name)
  {
    assert forall p :: p in a <==> p in multiset(a);
    assert forall p :: p in b <==> p in multiset(b);
    assert forall p :: p in a <==> p in b;
  }

  // One file.

  datatype Marker = Revoked | CertAuthority

  datatype Key = Key(algorithm: string, data: seq<int>)

  datatype Entry = Entry(marker: Option<Marker>, patterns: HostPatterns, key: Key)

  /** What is looked up: a host name and the key it presented. */
  datatype Query = Query(hashed: Hashing, name: string, key: Key)

  /** A line of a file: None when it does not parse. */
  type Line = Option<Entry>

  ghost predicate About(q: Query, line: Line) { line.Some? && Applies(q.hashed, line.value.patterns, q.name) }

  ghost predicate Records(q: Query, line: Line) {
    About(q, line) && line.value.marker == None && line.value.key == q.key
  }

  ghost predicate Differs(q: Query, line: Line) {
    && About(q, line)
    && line.value.marker == None
    && line.value.key != q.key
    && line.value.key.algorithm == q.key.algorithm
  }

  ghost predicate Revokes(q: Query, line: Line) {
    About(q, line) && line.value.marker == Some(Revoked) && line.value.key == q.key
  }

  // The same as values, for searching a file.

  ghost function Recording(q: Query): Line -> bool { l => Records(q, l) }

  ghost function Differing(q: Query): Line -> bool { l => Differs(q, l) }

  ghost function Revoking(q: Query): Line -> bool { l => Revokes(q, l) }

  /** `at` is the number, from 1, of the first element with property `p`. */
  ghost predicate First<T(!new)>(s: seq<T>, p: T -> bool, at: Option<nat>) {
    match at
    case None => forall x | x in s :: !p(x)
    case Some(n) => 1 <= n <= |s| && p(s[n - 1]) && forall x | x in s[..n - 1] :: !p(x)
  }

  ghost predicate Any<T(!new)>(s: seq<T>, p: T -> bool) { exists x | x in s :: p(x) }

  lemma FirstSnoc<T(!new)>(s: seq<T>, x: T, p: T -> bool, at: Option<nat>)
    requires First(s, p, at)
    ensures First(s + [x], p, if at.None? && p(x) then Some(|s| + 1) else at)
  {
    if at.Some? {
      assert (s + [x])[..at.value - 1] == s[..at.value - 1];
    } else {
      assert (s + [x])[..|s|] == s;
    }
  }

  lemma FirstIsUnique<T(!new)>(s: seq<T>, p: T -> bool, a: Option<nat>, b: Option<nat>)
    requires First(s, p, a) && First(s, p, b)
    ensures a == b
  {
    if a.Some? && b.Some? {
      var i, j := a.value - 1, b.value - 1;
      assert forall k | 0 <= k < i :: s[k] in s[..i];
      assert forall k | 0 <= k < j :: s[k] in s[..j];
    }
  }

  lemma FirstOfPrefix<T(!new)>(s: seq<T>, k: nat, p: T -> bool, n: nat)
    requires k <= |s| && First(s[..k], p, Some(n))
    ensures First(s, p, Some(n))
  {
    assert s[..k][..n - 1] == s[..n - 1];
  }

  datatype FileVerdict = FileVerdict(known: bool, changed: Option<nat>, revoked: Option<nat>)

  ghost predicate Verdict(q: Query, lines: seq<Line>, v: FileVerdict) {
    && (v.known <==> Any(lines, Recording(q)))
    && First(lines, Differing(q), v.changed)
    && First(lines, Revoking(q), v.revoked)
  }

  /** The verdict after one more line, the n-th. */
  ghost function Noted(q: Query, v: FileVerdict, n: nat, line: Line): FileVerdict {
    FileVerdict(
      v.known || Records(q, line),
      if v.changed.None? && Differs(q, line) then Some(n) else v.changed,
      if v.revoked.None? && Revokes(q, line) then Some(n) else v.revoked)
  }

  lemma VerdictSnoc(q: Query, lines: seq<Line>, line: Line, v: FileVerdict)
    requires Verdict(q, lines, v)
    ensures Verdict(q, lines + [line], Noted(q, v, |lines| + 1, line))
  {
    FirstSnoc(lines, line, Differing(q), v.changed);
    FirstSnoc(lines, line, Revoking(q), v.revoked);
    AnySnoc(lines, line, Recording(q));
  }

  lemma AnySnoc<T(!new)>(s: seq<T>, x: T, p: T -> bool)
    ensures Any(s + [x], p) <==> Any(s, p) || p(x)
  {
    assert x in s + [x];
    assert forall y | y in s :: y in s + [x];
  }

  method Scan(q: Query, lines: seq<Line>) returns (v: FileVerdict)
    ensures Verdict(q, lines, v)
  {
    v := FileVerdict(false, None, None);
    for i := 0 to |lines|
      invariant Verdict(q, lines[..i], v)
    {
      VerdictSnoc(q, lines[..i], lines[i], v);
      assert lines[..i + 1] == lines[..i] + [lines[i]];
      v := ScanLine(q, i, lines[i], v);
    }
    assert lines[..|lines|] == lines;
  }

  /** The body of the scan. */
  method ScanLine(q: Query, i: nat, line: Line, v: FileVerdict) returns (r: FileVerdict)
    ensures r == Noted(q, v, i + 1, line)
  {
    r := v;
    if line.None? {
      return;
    }
    var entry := line.value;
    var applies := HostMatches(q.hashed, entry.patterns, q.name);
    if !applies {
      return;
    }
    var sameKey := entry.key == q.key;
    match entry.marker
    case Some(Revoked) =>
      if sameKey && v.revoked.None? {
        r := v.(revoked := Some(i + 1));
      }
    case Some(CertAuthority) =>
    case None =>
      if sameKey {
        r := v.(known := true);
      } else if entry.key.algorithm == q.key.algorithm && v.changed.None? {
        r := v.(changed := Some(i + 1));
      }
  }

  // All files.

  datatype Content = Missing | Broken(error: string) | Text(lines: seq<Line>)

  datatype File = File(path: string, content: Content)

  datatype Status =
    | Known
    | Unknown
    | Changed(file: string, line: nat)
    | RevokedIn(file: string, line: nat)
    | Unreadable(file: string, error: string)

  ghost predicate Knows(q: Query, file: File) { file.content.Text? && Any(file.content.lines, Recording(q)) }

  ghost predicate Changes(q: Query, file: File) { file.content.Text? && Any(file.content.lines, Differing(q)) }

  /** A file that ends the check at once: it cannot be read, or it revokes the key. */
  ghost predicate Stops(q: Query, file: File) {
    file.content.Broken? || (file.content.Text? && Any(file.content.lines, Revoking(q)))
  }

  ghost function Knowing(q: Query): File -> bool { f => Knows(q, f) }

  ghost function Changing(q: Query): File -> bool { f => Changes(q, f) }

  ghost function Stopping(q: Query): File -> bool { f => Stops(q, f) }

  /** What a file that ends the check reports. */
  ghost predicate Report(q: Query, file: File, s: Status) {
    match file.content
    case Missing => false
    case Broken(error) => s == Unreadable(file.path, error)
    case Text(lines) =>
      s.RevokedIn? && s.file == file.path && First(lines, Revoking(q), Some(s.line))
  }

  ghost predicate ChangedAt(q: Query, file: File, path: string, line: nat) {
    file.path == path && file.content.Text? && First(file.content.lines, Differing(q), Some(line))
  }

  /** `files[n - 1]` is the first file that ends the check, and `s` its report. */
  ghost predicate Stopped(q: Query, files: seq<File>, n: nat, s: Status) {
    First(files, Stopping(q), Some(n)) && Report(q, files[n - 1], s)
  }

  /** No file ends the check; `change` says which one first differs. */
  ghost predicate Passed(q: Query, files: seq<File>, change: Option<nat>, s: Status) {
    && First(files, Stopping(q), None)
    && First(files, Changing(q), change)
    && match change
       case Some(n) => s.Changed? && ChangedAt(q, files[n - 1], s.file, s.line)
       case None => s == if Any(files, Knowing(q)) then Known else Unknown
  }

  ghost predicate Answer(q: Query, files: seq<File>, s: Status) {
    (exists n: nat :: Stopped(q, files, n, s)) || exists change :: Passed(q, files, change, s)
  }

  lemma VerdictOfFile(q: Query, file: File, v: FileVerdict)
    requires file.content.Text? && Verdict(q, file.content.lines, v)
    ensures Stops(q, file) <==> v.revoked.Some?
    ensures Changes(q, file) <==> v.changed.Some?
    ensures Knows(q, file) <==> v.known
  {
  }

  /** The check has passed `files`; `changed` names the first difference, which is in the file `change`. */
  ghost predicate SoFar(q: Query, files: seq<File>, known: bool, changed: Option<(string, nat)>, change: Option<nat>) {
    && First(files, Stopping(q), None)
    && First(files, Changing(q), change)
    && (known <==> Any(files, Knowing(q)))
    && changed.Some? == change.Some?
    && (changed.Some? ==> ChangedAt(q, files[change.value - 1], changed.value.0, changed.value.1))
  }

  lemma NothingChecked(q: Query)
    ensures SoFar(q, [], false, None, None)
  {
  }

  /** One more file that does not end the check; `at` is its first line that differs. */
  lemma {:induction false} PassesFile(q: Query, files: seq<File>, file: File, known: bool, changed: Option<(string, nat)>, change: Option<nat>, at: Option<nat>)
    requires SoFar(q, files, known, changed, change) && !Stops(q, file) && (Changes(q, file) <==> at.Some?)
    requires at.Some? ==> ChangedAt(q, file, file.path, at.value)
    ensures
      var first := changed.None? && at.Some?;
      SoFar(q, files + [file], known || Knows(q, file),
            if first then Some((file.path, at.value)) else changed, if first then Some(|files| + 1) else change)
  {
    hide Any, ChangedAt, Stops, Changes, Knows;
    FirstSnoc(files, file, Stopping(q), None);
    FirstSnoc(files, file, Changing(q), change);
    AnySnoc(files, file, Knowing(q));
  }

  lemma {:induction false} EndsAtFile(q: Query, files: seq<File>, i: nat, known: bool, changed: Option<(string, nat)>, change: Option<nat>, s: Status)
    requires i < |files| && SoFar(q, files[..i], known, changed, change) && Stops(q, files[i]) && Report(q, files[i], s)
    ensures Answer(q, files, s)
  {
    hide Stops, Report;
    FirstSnoc(files[..i], files[i], Stopping(q), None);
    assert files[..i + 1] == files[..i] + [files[i]];
    FirstOfPrefix(files, i + 1, Stopping(q), i + 1);
    assert Stopped(q, files, i + 1, s);
  }

  lemma {:induction false} PassesAll(q: Query, files: seq<File>, known: bool, changed: Option<(string, nat)>, change: Option<nat>)
    requires SoFar(q, files, known, changed, change)
    ensures Answer(q, files, if changed.Some? then Changed(changed.value.0, changed.value.1) else if known then Known else Unknown)
  {
    hide First, Any, ChangedAt;
    var s := if changed.Some? then Changed(changed.value.0, changed.value.1) else if known then Known else Unknown;
    assert Passed(q, files, change, s);
  }

  method Check(q: Query, files: seq<File>) returns (s: Status)
    ensures Answer(q, files, s)
  {
    hide Answer, SoFar, First, Any;
    var known := false;
    var changed: Option<(string, nat)> := None;
    ghost var change: Option<nat> := None;
    NothingChecked(q);
    for i := 0 to |files|
      invariant SoFar(q, files[..i], known, changed, change)
    {
      var file := files[i];
      assert files[..i + 1] == files[..i] + [file];
      match file.content
      case Missing =>
        PassesFile(q, files[..i], file, known, changed, change, None);
      case Broken(error) =>
        s := Unreadable(file.path, error);
        EndsAtFile(q, files, i, known, changed, change, s);
        return;
      case Text(lines) =>
        var v := Scan(q, lines);
        VerdictOfFile(q, file, v);
        if v.revoked.Some? {
          s := RevokedIn(file.path, v.revoked.value);
          EndsAtFile(q, files, i, known, changed, change, s);
          return;
        }
        PassesFile(q, files[..i], file, known, changed, change, v.changed);
        if changed.None? && v.changed.Some? {
          changed := Some((file.path, v.changed.value));
          change := Some(i + 1);
        }
        known := known || v.known;
    }
    assert files[..|files|] == files;
    PassesAll(q, files, known, changed, change);
    s := if changed.Some? then Changed(changed.value.0, changed.value.1) else if known then Known else Unknown;
  }

  // What the answer means.

  /** No file is unreadable, and no line of any file revokes the key or differs from it. */
  ghost predicate Trusted(q: Query, files: seq<File>) {
    forall f | f in files ::
      && !f.content.Broken?
      && (f.content.Text? ==> forall l | l in f.content.lines :: !Revokes(q, l) && !Differs(q, l))
  }

  ghost predicate Recorded(q: Query, files: seq<File>) {
    exists f | f in files :: f.content.Text? && exists l | l in f.content.lines :: Records(q, l)
  }

  lemma TrustedIff(q: Query, files: seq<File>)
    ensures Trusted(q, files) <==> forall f | f in files :: !Stops(q, f) && !Changes(q, f)
  {
    forall f | f in files
      ensures
        (!f.content.Broken? && (f.content.Text? ==> forall l | l in f.content.lines :: !Revokes(q, l) && !Differs(q, l)))
        <==> !Stops(q, f) && !Changes(q, f)
    {
      if f.content.Text? {
        assert forall l :: Revoking(q)(l) == Revokes(q, l) && Differing(q)(l) == Differs(q, l);
      }
    }
  }

  lemma RecordedIff(q: Query, files: seq<File>)
    ensures Recorded(q, files) <==> Any(files, Knowing(q))
  {
    assert forall l :: Recording(q)(l) == Records(q, l);
    assert forall f :: Knowing(q)(f) == Knows(q, f);
  }

  /**
   A key is Known exactly when every file there is can be read, none revokes it or holds another
   key of its algorithm for the host, and some file records it; Unknown when only the last fails.
   */
  lemma {:induction false} KnownIff(q: Query, files: seq<File>, s: Status)
    requires Answer(q, files, s)
    ensures s == Known <==> Trusted(q, files) && Recorded(q, files)
    ensures s == Unknown <==> Trusted(q, files) && !Recorded(q, files)
  {
    TrustedIff(q, files);
    RecordedIff(q, files);
    assert forall f :: Stopping(q)(f) == Stops(q, f) && Changing(q)(f) == Changes(q, f);
    if n: nat :| Stopped(q, files, n, s) {
      assert files[n - 1] in files;
    } else {
      var change :| Passed(q, files, change, s);
      if change.Some? {
        assert files[change.value - 1] in files;
      }
    }
  }

  /** A refusal stands whatever files are added, wherever they are added. */
  lemma {:induction false} RefusalStands(q: Query, a: seq<File>, s: Status, b: seq<File>, t: Status)
    requires (forall f | f in a :: f in b) && Answer(q, a, s) && Answer(q, b, t)
    requires s != Known && s != Unknown
    ensures t != Known && t != Unknown
  {
    KnownIff(q, a, s);
    KnownIff(q, b, t);
  }

  /** The specification leaves the check no choice. */
  lemma {:induction false} AnswerIsUnique(q: Query, files: seq<File>, s: Status, t: Status)
    requires Answer(q, files, s) && Answer(q, files, t)
    ensures s == t
  {
    if n: nat :| Stopped(q, files, n, s) {
      if m: nat :| Stopped(q, files, m, t) {
        FirstIsUnique(files, Stopping(q), Some(n), Some(m));
        if files[n - 1].content.Text? {
          FirstIsUnique(files[n - 1].content.lines, Revoking(q), Some(s.line), Some(t.line));
        }
      } else {
        FirstIsUnique(files, Stopping(q), Some(n), None);
      }
    } else {
      var a :| Passed(q, files, a, s);
      PassedIsUnique(q, files, a, s, t);
    }
  }

  lemma PassedIsUnique(q: Query, files: seq<File>, a: Option<nat>, s: Status, t: Status)
    requires Passed(q, files, a, s) && Answer(q, files, t)
    ensures s == t
  {
    if m: nat :| Stopped(q, files, m, t) {
      FirstIsUnique(files, Stopping(q), None, Some(m));
    } else {
      var b :| Passed(q, files, b, t);
      FirstIsUnique(files, Changing(q), a, b);
      if a.Some? {
        FirstIsUnique(files[a.value - 1].content.lines, Differing(q), Some(s.line), Some(t.line));
      }
    }
  }
}
