/** Command lines for a remote shell, and what a POSIX shell makes of them. */
module Quoting {
  import opened Wrappers

  datatype Shell = Posix | Cmd | PowerShell

  /** `s` with every occurrence of `c` replaced by `with`. */
  function Replace(s: string, c: char, with: string): string {
    if s == [] then [] else (if s[0] == c then with else [s[0]]) + Replace(s[1..], c, with)
  }

  function ShQuote(s: string): string { "'" + Replace(s, '\'', "'\\''") + "'" }

  function PsQuote(s: string): string { "'" + Replace(s, '\'', "''") + "'" }

  function Invoke(shell: Shell, path: string, args: string): string {
    match shell
    case Posix => ShQuote(path) + " " + args
    case Cmd => "\"" + path + "\" " + args
    case PowerShell => "& " + PsQuote(path) + " " + args
  }

  function QuoteArg(shell: Shell, arg: string): string {
    match shell
    case Posix => ShQuote(arg)
    case Cmd => "\"" + arg + "\""
    case PowerShell => PsQuote(arg)
  }

  predicate PlainChar(c: char) {
    'a' <= c <= 'z' || 'A' <= c <= 'Z' || '0' <= c <= '9' || c == '-' || c == '_'
  }

  predicate Plain(w: string) { w != [] && forall i | 0 <= i < |w| :: PlainChar(w[i]) }

  function Word(shell: Shell, w: string): string { if Plain(w) then w else QuoteArg(shell, w) }

  function JoinArgs(shell: Shell, argv: seq<string>): string {
    if argv == [] then ""
    else if |argv| == 1 then Word(shell, argv[0])
    else Word(shell, argv[0]) + " " + JoinArgs(shell, argv[1..])
  }

  // How a POSIX shell splits a simple command into words: sections 2.2.1 (backslash), 2.2.2
  // (single quotes) and 2.3 (token recognition) of the Shell Command Language, POSIX.1-2017.

  /** Characters that have a meaning of their own outside quotes (section 2.2). */
  predicate Special(c: char) { c in {'|', '&', ';', '<', '>', '(', ')', '$', '`', '"', '*', '?', '[', ']', '#', '~', '=', '%', '{', '}', '!', '\n', '\r'} }

  function AddWord(w: Option<string>, words: Option<seq<string>>): Option<seq<string>> {
    match (w, words)
    case (_, None) => None
    case (None, Some(ws)) => Some(ws)
    case (Some(word), Some(ws)) => Some([word] + ws)
  }

  /**
   The words of `s`, where `w` is the word read so far. None: more than a list of words, or not
   complete.
   */
  function Words(s: string, w: Option<string>, quoted: bool): Option<seq<string>>
    decreases |s|
  {
    if s == [] then
      if quoted then None else AddWord(w, Some([]))
    else
      var c, rest := s[0], s[1..];
      if quoted then
        if c == '\'' then Words(rest, w, false) else Words(rest, Some(w.GetOr("") + [c]), true)
      else if c == ' ' || c == '\t' then
        AddWord(w, Words(rest, None, false))
      else if c == '\'' then
        Words(rest, Some(w.GetOr("")), true)
      else if c == '\\' then
        if rest == [] then None
        else if rest[0] == '\n' then Words(rest[1..], w, false)
        else Words(rest[1..], Some(w.GetOr("") + [rest[0]]), false)
      else if Special(c) then
        None
      else
        Words(rest, Some(w.GetOr("") + [c]), false)
  }

  function Split(s: string): Option<seq<string>> { Words(s, None, false) }

  /** Reading inside quotes up to and past the closing quote. */
  lemma {:induction false} ReadsQuoted(s: string, p: string, rest: string)
    ensures Words(Replace(s, '\'', "'\\''") + "'" + rest, Some(p), true) == Words(rest, Some(p + s), false)
    decreases |s|
  {
    var text := Replace(s, '\'', "'\\''") + "'" + rest;
    if s == [] {
      assert text[1..] == rest && p + s == p;
    } else {
      var tail := Replace(s[1..], '\'', "'\\''") + "'" + rest;
      ReadsQuoted(s[1..], p + [s[0]], rest);
      assert p + [s[0]] + s[1..] == p + s;
      if s[0] == '\'' {
        ReadsQuote(tail, p);
        assert text == "'\\''" + tail;
      } else {
        assert text[0] == s[0] && text[1..] == tail;
      }
    }
  }

  /** Closing the quotes, an escaped quote, opening them again: one quote character. */
  lemma ReadsQuote(tail: string, p: string)
    ensures Words("'\\''" + tail, Some(p), true) == Words(tail, Some(p + "'"), true)
  {
    var s := "'\\''" + tail;
    var t := s[1..];
    assert t == "\\''" + tail;
    assert Words(s, Some(p), true) == Words(t, Some(p), false);
    var u := t[1..][1..];
    assert t[1..][0] == '\'' && u == "'" + tail;
    assert Words(t, Some(p), false) == Words(u, Some(p + "'"), false);
    assert u[1..] == tail;
  }

  lemma ReadsPlainChar(c: char, w: Option<string>, rest: string)
    requires PlainChar(c)
    ensures Words([c] + rest, w, false) == Words(rest, Some(w.GetOr("") + [c]), false)
  {
    assert ([c] + rest)[1..] == rest;
  }

  lemma {:induction false} ReadsPlain(s: string, p: string, rest: string)
    requires forall i | 0 <= i < |s| :: PlainChar(s[i])
    ensures Words(s + rest, Some(p), false) == Words(rest, Some(p + s), false)
    decreases |s|
  {
    if s == [] {
      assert s + rest == rest && p + s == p;
    } else {
      ReadsPlain(s[1..], p + [s[0]], rest);
      ReadsPlainChar(s[0], Some(p), s[1..] + rest);
      assert s + rest == [s[0]] + (s[1..] + rest);
      assert p + [s[0]] + s[1..] == p + s;
    }
  }

  lemma {:induction false} ReadsShQuote(w: string, rest: string)
    ensures Words(ShQuote(w) + rest, None, false) == Words(rest, Some(w), false)
  {
    var inner := Replace(w, '\'', "'\\''") + "'" + rest;
    assert ShQuote(w) + rest == "'" + inner;
    assert ("'" + inner)[1..] == inner;
    ReadsQuoted(w, "", rest);
    assert "" + w == w;
  }

  lemma {:induction false} ReadsWord(w: string, rest: string)
    ensures Words(Word(Posix, w) + rest, None, false) == Words(rest, Some(w), false)
  {
    if Plain(w) {
      ReadsPlain(w[1..], [w[0]], rest);
      ReadsPlainChar(w[0], None, w[1..] + rest);
      assert w + rest == [w[0]] + (w[1..] + rest);
      assert "" + [w[0]] == [w[0]];
      assert [w[0]] + w[1..] == w;
    } else {
      ReadsShQuote(w, rest);
    }
  }

  lemma EndsWord(w: string, rest: string)
    ensures Words(" " + rest, Some(w), false) == AddWord(Some(w), Split(rest))
    ensures Words("", Some(w), false) == Some([w])
  {
    assert (" " + rest)[1..] == rest;
    assert [w] + [] == [w];
  }

  lemma {:induction false} ArgsRoundTrip(argv: seq<string>)
    ensures Split(JoinArgs(Posix, argv)) == Some(argv)
  {
    if |argv| == 1 {
      ReadsWord(argv[0], "");
      EndsWord(argv[0], "");
      assert Word(Posix, argv[0]) + "" == Word(Posix, argv[0]);
      assert argv == [argv[0]];
    } else if argv != [] {
      ArgsRoundTrip(argv[1..]);
      var rest := JoinArgs(Posix, argv[1..]);
      ReadsWord(argv[0], " " + rest);
      EndsWord(argv[0], rest);
      assert Word(Posix, argv[0]) + " " + rest == Word(Posix, argv[0]) + (" " + rest);
      assert [argv[0]] + argv[1..] == argv;
    }
  }

  /** Path and arguments reach the program word for word. */
  lemma {:induction false} PosixRoundTrip(path: string, argv: seq<string>)
    ensures Split(Invoke(Posix, path, JoinArgs(Posix, argv))) == Some([path] + argv)
  {
    var args := JoinArgs(Posix, argv);
    ArgsRoundTrip(argv);
    ReadsShQuote(path, " " + args);
    EndsWord(path, args);
    assert ShQuote(path) + " " + args == ShQuote(path) + (" " + args);
  }
}
