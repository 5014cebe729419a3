/**
 What PowerShell makes of the same command lines. A literal ends at any of its single-quote
 characters, not only at the ASCII one that quoting doubles.
 */
module PowerShells {
  import opened Wrappers
  import opened Quoting

  /** Taken as a single quote: the ASCII one and U+2018 to U+201B. */
  predicate Quote(c: char) { c == '\'' || '\U{2018}' <= c <= '\U{201B}' }

  predicate Typographic(c: char) { Quote(c) && c != '\'' }

  predicate Ordinary(c: char) { !Quote(c) }

  /** `w` holds no quote character that quoting leaves alone. */
  predicate Clean(w: string) { forall i | 0 <= i < |w| :: !Typographic(w[i]) }

  /** Inside a literal, with `p` read so far: its text and what follows it. A doubled quote is one. */
  function Literal(s: string, p: string): Option<(string, string)>
    decreases |s|
  {
    if s == [] then None
    else if !Quote(s[0]) then Literal(s[1..], p + [s[0]])
    else if |s| > 1 && Quote(s[1]) then Literal(s[2..], p + [s[0]])
    else Some((p, s[1..]))
  }

  function Bare(s: string): (n: nat)
    ensures n <= |s|
  {
    if s == [] || !PlainChar(s[0]) then 0 else 1 + Bare(s[1..])
  }

  predicate Ends(rest: string) { rest == [] || rest[0] == ' ' }

  function Next(s: string): (r: Option<(string, string)>)
    requires s != [] && s[0] != ' '
    ensures r.Some? ==> |r.value.1| < |s|
  {
    if Quote(s[0]) then
      LiteralShrinks(s[1..], "");
      Literal(s[1..], "")
    else if PlainChar(s[0]) then Some((s[..Bare(s)], s[Bare(s)..]))
    else None
  }

  /** The arguments in `s`. None: more than literals and plain words, or not complete. */
  function Arguments(s: string): Option<seq<string>>
    decreases |s|
  {
    if s == [] then Some([])
    else if s[0] == ' ' then Arguments(s[1..])
    else
      match Next(s)
      case None => None
      case Some((w, rest)) => if Ends(rest) then AddWord(Some(w), Arguments(rest)) else None
  }

  /** A call `& word word ...`. */
  function Call(s: string): Option<seq<string>> {
    if |s| >= 2 && s[0] == '&' && s[1] == ' ' then Arguments(s[2..]) else None
  }

  lemma {:induction false} LiteralShrinks(s: string, p: string)
    ensures Literal(s, p).Some? ==> |Literal(s, p).value.1| < |s|
    decreases |s|
  {
    if s != [] && !Quote(s[0]) {
      LiteralShrinks(s[1..], p + [s[0]]);
    } else if |s| > 1 && Quote(s[1]) {
      LiteralShrinks(s[2..], p + [s[0]]);
    }
  }

  // A clean word comes back.

  function Doubled(s: string): string { Replace(s, '\'', "''") }

  lemma {:induction false} ReadsLiteral(s: string, p: string, rest: string)
    requires Clean(s) && Ends(rest)
    ensures Literal(Doubled(s) + "'" + rest, p) == Some((p + s, rest))
    decreases |s|
  {
    var text := Doubled(s) + "'" + rest;
    if s == [] {
      assert text[1..] == rest && p + s == p;
    } else {
      var tail := Doubled(s[1..]) + "'" + rest;
      ReadsLiteral(s[1..], p + [s[0]], rest);
      assert p + [s[0]] + s[1..] == p + s;
      if s[0] == '\'' {
        assert text == "''" + tail;
        assert text[2..] == tail;
      } else {
        assert !Typographic(s[0]);
        assert text[0] == s[0] && text[1..] == tail;
      }
    }
  }

  lemma {:induction false} ReadsPlain(w: string, rest: string)
    requires (forall i | 0 <= i < |w| :: PlainChar(w[i])) && Ends(rest)
    ensures Bare(w + rest) == |w|
    decreases |w|
  {
    if w != [] {
      ReadsPlain(w[1..], rest);
      assert (w + rest)[1..] == w[1..] + rest;
    }
  }

  // A word with a typographic quote does not: count what a literal consumes.

  function Count(s: string, f: char -> bool): nat {
    if s == [] then 0 else (if f(s[0]) then 1 else 0) + Count(s[1..], f)
  }

  lemma {:induction false} CountCat(a: string, b: string, f: char -> bool)
    ensures Count(a + b, f) == Count(a, f) + Count(b, f)
    decreases |a|
  {
    if a == [] {
      assert a + b == b;
    } else {
      CountCat(a[1..], b, f);
      assert (a + b)[1..] == a[1..] + b;
    }
  }

  /** A literal takes up two quotes for each it yields, and one to close. */
  lemma {:induction false} LiteralCounts(s: string, p: string)
    requires Literal(s, p).Some?
    ensures var (t, r) := Literal(s, p).value;
      && |r| <= |s| && r == s[|s| - |r|..]
      && Count(s, Ordinary) + Count(p, Ordinary) == Count(t, Ordinary) + Count(r, Ordinary)
      && Count(s, Quote) + 2 * Count(p, Quote) == 2 * Count(t, Quote) + 1 + Count(r, Quote)
    decreases |s|
  {
    var c := [s[0]];
    CountCat(p, c, Ordinary);
    CountCat(p, c, Quote);
    if !Quote(s[0]) {
      LiteralCounts(s[1..], p + c);
    } else if |s| > 1 && Quote(s[1]) {
      assert s[1..][1..] == s[2..];
      LiteralCounts(s[2..], p + c);
    }
  }

  lemma {:induction false} DoubledCounts(s: string)
    ensures Count(Doubled(s), Ordinary) == Count(s, Ordinary)
    ensures Count(Doubled(s), Quote) + Count(s, Typographic) == 2 * Count(s, Quote)
  {
    if s != [] {
      DoubledCounts(s[1..]);
      var head := if s[0] == '\'' then "''" else [s[0]];
      CountCat(head, Doubled(s[1..]), Ordinary);
      CountCat(head, Doubled(s[1..]), Quote);
      assert Count(head, Ordinary) == if Quote(s[0]) then 0 else 1;
      assert s[0] == '\'' ==> head[1..] == "'";
    }
  }

  lemma {:induction false} CleanCounts(s: string)
    ensures Clean(s) <==> Count(s, Typographic) == 0
  {
    if s != [] {
      CleanCounts(s[1..]);
      assert s == [s[0]] + s[1..];
    }
  }

  lemma {:induction false} MissesLiteral(w: string, rest: string)
    requires !Clean(w) && Ends(rest)
    ensures var l := Literal(Doubled(w) + "'" + rest, ""); l.Some? ==> l.value.0 != w
  {
    var s := Doubled(w) + "'" + rest;
    var l := Literal(s, "");
    if l.Some? && l.value.0 == w {
      var r := l.value.1;
      LiteralCounts(s, "");
      CleanCounts(w);
      DoubledCounts(w);
      CountText(w, rest);
      assert Count(r, Ordinary) == Count(rest, Ordinary) && Count(r, Quote) < Count(rest, Quote);
      SuffixCounts(rest, r, s);
    }
  }

  lemma CountText(w: string, rest: string)
    ensures Count(Doubled(w) + "'" + rest, Ordinary) == Count(Doubled(w), Ordinary) + Count(rest, Ordinary)
    ensures Count(Doubled(w) + "'" + rest, Quote) == Count(Doubled(w), Quote) + 1 + Count(rest, Quote)
  {
    CountCat(Doubled(w) + "'", rest, Ordinary);
    CountCat(Doubled(w) + "'", rest, Quote);
    CountCat(Doubled(w), "'", Ordinary);
    CountCat(Doubled(w), "'", Quote);
  }

  /** No suffix of a text holds fewer quotes than `rest`, which ends it, and as many other characters. */
  lemma SuffixCounts(rest: string, r: string, s: string)
    requires Ends(rest) && |r| <= |s| && |rest| <= |s|
    requires r == s[|s| - |r|..] && rest == s[|s| - |rest|..]
    requires Count(r, Ordinary) == Count(rest, Ordinary)
    ensures Count(r, Quote) >= Count(rest, Quote)
  {
    if |rest| <= |r| {
      var x := s[|s| - |r|..|s| - |rest|];
      assert r == x + rest;
      CountCat(x, rest, Quote);
    } else {
      var x := s[|s| - |rest|..|s| - |r|];
      assert rest == x + r;
      assert x[0] == ' ';
      CountCat(x, r, Ordinary);
    }
  }

  // One word, then a whole command line.

  lemma {:induction false} ReadsPsQuote(w: string, rest: string)
    requires Ends(rest)
    ensures var s := PsQuote(w) + rest; s[0] == '\'' && (Next(s) == Some((w, rest)) <==> Clean(w))
    ensures Next(PsQuote(w) + rest).Some? && !Clean(w) ==> Next(PsQuote(w) + rest).value.0 != w
  {
    var s := PsQuote(w) + rest;
    assert s[1..] == Doubled(w) + "'" + rest;
    if Clean(w) {
      ReadsLiteral(w, "", rest);
      assert "" + w == w;
    } else {
      MissesLiteral(w, rest);
    }
  }

  lemma {:induction false} ReadsWord(w: string, rest: string)
    requires Ends(rest)
    ensures var s := Word(PowerShell, w) + rest; s[0] != ' ' && (Next(s) == Some((w, rest)) <==> Clean(w))
    ensures var s := Word(PowerShell, w) + rest; s[0] != ' ' && (Next(s).Some? && !Clean(w) ==> Next(s).value.0 != w)
  {
    if Plain(w) {
      ReadsPlain(w, rest);
      var s := w + rest;
      assert s[..|w|] == w && s[|w|..] == rest;
    } else {
      ReadsPsQuote(w, rest);
    }
  }

  /** A first word that comes back, or fails to, before more arguments. */
  lemma ReadsFirst(s: string, w: string, rest: string, words: seq<string>)
    requires s != [] && s[0] != ' ' && Ends(rest)
    requires Next(s) == Some((w, rest)) || (Next(s).Some? ==> Next(s).value.0 != w)
    ensures Arguments(s) == Some([w] + words) <==> Next(s) == Some((w, rest)) && Arguments(rest) == Some(words)
  {
    if Arguments(s) == Some([w] + words) {
      var (v, more) := Next(s).value;
      var ws := Arguments(more).value;
      assert ([v] + ws)[0] == ([w] + words)[0];
      assert ([v] + ws)[1..] == ws && ([w] + words)[1..] == words;
    }
  }

  lemma {:induction false} FirstWord(w: string, rest: string, words: seq<string>)
    requires Ends(rest)
    ensures Arguments(Word(PowerShell, w) + rest) == Some([w] + words) <==> Clean(w) && Arguments(rest) == Some(words)
  {
    ReadsWord(w, rest);
    ReadsFirst(Word(PowerShell, w) + rest, w, rest, words);
  }

  lemma SkipsSpace(s: string)
    ensures Arguments(" " + s) == Arguments(s)
  {
    assert (" " + s)[1..] == s;
  }

  lemma {:induction false} ArgsRoundTripIff(argv: seq<string>)
    ensures Arguments(JoinArgs(PowerShell, argv)) == Some(argv) <==> forall w | w in argv :: Clean(w)
  {
    if argv != [] {
      var w, more := argv[0], argv[1..];
      assert argv == [w] + more;
      ArgsRoundTripIff(more);
      var args := JoinArgs(PowerShell, more);
      var rest := if more == [] then "" else " " + args;
      assert JoinArgs(PowerShell, argv) == Word(PowerShell, w) + rest;
      SkipsSpace(args);
      assert Arguments(rest) == Arguments(args);
      FirstWord(w, rest, more);
    }
  }

  /** PowerShell calls exactly `path` with exactly `argv` if and only if no word holds a typographic quote. */
  lemma {:induction false} PowerShellRoundTripIff(path: string, argv: seq<string>)
    ensures Call(Invoke(PowerShell, path, JoinArgs(PowerShell, argv))) == Some([path] + argv)
       <==> Clean(path) && forall w | w in argv :: Clean(w)
  {
    var args := JoinArgs(PowerShell, argv);
    ArgsRoundTripIff(argv);
    CallsPath(path, args, argv);
  }

  lemma {:induction false} CallsPath(path: string, args: string, argv: seq<string>)
    ensures Call(Invoke(PowerShell, path, args)) == Some([path] + argv) <==> Clean(path) && Arguments(args) == Some(argv)
  {
    var line, rest := Invoke(PowerShell, path, args), " " + args;
    assert line == "& " + (PsQuote(path) + rest);
    assert line[2..] == PsQuote(path) + rest;
    SkipsSpace(args);
    ReadsPsQuote(path, rest);
    ReadsFirst(PsQuote(path) + rest, path, rest, argv);
  }

  /** The call breaks for a home directory with an apostrophe of the typographic kind. */
  lemma TypographicPathMisread()
    ensures Call(Invoke(PowerShell, "O\U{2019}B", "serve")) != Some(["O\U{2019}B", "serve"])
  {
    var argv := ["serve"];
    assert JoinArgs(PowerShell, argv) == "serve" by {
      assert Plain("serve");
    }
    assert Typographic("O\U{2019}B"[1]);
    PowerShellRoundTripIff("O\U{2019}B", argv);
    assert ["O\U{2019}B"] + argv == ["O\U{2019}B", "serve"];
  }
}
