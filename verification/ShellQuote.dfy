/** Shell quoting against token recognition and quoting as POSIX.1-2017 defines them (Shell
    Command Language, sections 2.2, 2.2.1, 2.2.2 and 2.3). */
module ShellQuote {
  import opened Text

  // ---------------------------------------------------------------------------------------------
  // The program
  // ---------------------------------------------------------------------------------------------

  predicate IsSafe(c: char) {
    IsAsciiAlphanumeric(c) || c in "_-./:@"
  }

  const QUOTE := '\''
  const BACKSLASH := '\\'

  /** `replace('\'', "'\\''")`: every quote is closed around, escaped and reopened. */
  function Escaped(s: string): string {
    if s == "" then ""
    else (if s[0] == QUOTE then [QUOTE, BACKSLASH, QUOTE, QUOTE] else [s[0]]) + Escaped(s[1..])
  }

  function ShellQuote(value: string): string {
    if forall i :: 0 <= i < |value| ==> IsSafe(value[i]) then value
    else [QUOTE] + Escaped(value) + [QUOTE]
  }

  function QuotedWords(words: seq<string>): seq<string> {
    if words == [] then [] else [ShellQuote(words[0])] + QuotedWords(words[1..])
  }

  function ShellCommand(program: string, args: seq<string>): string {
    Join([ShellQuote(program)] + QuotedWords(args), " ")
  }

  // ---------------------------------------------------------------------------------------------
  // The shell
  // ---------------------------------------------------------------------------------------------

  /** The characters that section 2.2 says must, or may have to, be quoted to stand for
      themselves. */
  predicate IsSpecial(c: char) {
    c in "|&;<>()$`\\\"' \t\n" || c in "*?[#~=%"
  }

  /** The words of a command line, with quote removal; `current` is the word being read.
      `None` when the text is not a plain list of words: a quote is left open, or an unquoted
      special character other than a blank or a quoting one occurs. */
  function Scan(text: string, current: Option<string>): Option<seq<string>>
    decreases |text|
  {
    if text == "" then Some(if current.Some? then [current.value] else [])
    else if text[0] == QUOTE then
      var i := IndexOf(text[1..], QUOTE);
      if i == |text| - 1 then None
      else Scan(text[i + 2..], Some(current.GetOr("") + text[1..i + 1]))
    else if text[0] == BACKSLASH then
      if |text| == 1 then None
      else if text[1] == '\n' then Scan(text[2..], current)
      else Scan(text[2..], Some(current.GetOr("") + [text[1]]))
    else if text[0] == ' ' || text[0] == '\t' then
      match Scan(text[1..], None)
      case None => None
      case Some(rest) => Some(if current.Some? then [current.value] + rest else rest)
    else if IsSpecial(text[0]) then None
    else Scan(text[1..], Some(current.GetOr("") + [text[0]]))
  }

  function Tokenize(text: string): Option<seq<string>> {
    Scan(text, None)
  }

  // ---------------------------------------------------------------------------------------------
  // One word
  // ---------------------------------------------------------------------------------------------

  /** The word being read after reading `w` too; reading nothing does not start a word. */
  function Extend(current: Option<string>, w: string): Option<string> {
    if w == "" then current else Some(current.GetOr("") + w)
  }

  lemma {:induction false} ScanSafe(w: string, rest: string, current: Option<string>)
    requires forall i :: 0 <= i < |w| ==> IsSafe(w[i])
    ensures Scan(w + rest, current) == Scan(rest, Extend(current, w))
    decreases |w|
  {
    if w == "" {
      assert w + rest == rest;
    } else {
      var text := w + rest;
      assert IsSafe(text[0]) && !IsSpecial(text[0]);
      assert text[1..] == w[1..] + rest;
      var next := Some(current.GetOr("") + [w[0]]);
      ScanSafe(w[1..], rest, next);
      assert [w[0]] + w[1..] == w;
      ConcatAssociative(current.GetOr(""), [w[0]], w[1..]);
      if w[1..] == "" {
        assert w == [w[0]];
      }
      assert Extend(next, w[1..]) == Extend(current, w);
      assert Scan(text, current) == Scan(text[1..], next);
    }
  }

  lemma {:induction false} NothingEscaped(a: string)
    requires QUOTE !in a
    ensures Escaped(a) == a
  {
    if a != "" {
      NothingEscaped(a[1..]);
      assert a == [a[0]] + a[1..];
    }
  }

  lemma {:induction false} EscapedSplit(a: string, b: string)
    requires QUOTE !in a
    ensures Escaped(a) == a
    ensures Escaped(a + [QUOTE] + b) == a + [QUOTE, BACKSLASH, QUOTE, QUOTE] + Escaped(b)
  {
    NothingEscaped(a);
    if a == "" {
      EscapedStep(QUOTE, b);
      assert a + [QUOTE] + b == [QUOTE] + b;
    } else {
      var rest := a[1..] + [QUOTE] + b;
      EscapedSplit(a[1..], b);
      EscapedStep(a[0], rest);
      Regrouped(a, [QUOTE], b);
      Regrouped(a, [QUOTE, BACKSLASH, QUOTE, QUOTE], Escaped(b));
    }
  }

  lemma Regrouped(a: string, b: string, c: string)
    requires a != ""
    ensures a + b + c == [a[0]] + (a[1..] + b + c)
  {
    assert a == [a[0]] + a[1..];
  }

  lemma EscapedStep(c: char, s: string)
    ensures Escaped([c] + s) == (if c == QUOTE then [QUOTE, BACKSLASH, QUOTE, QUOTE] else [c]) + Escaped(s)
  {
    assert ([c] + s)[1..] == s;
  }

  /** A quoted part without a quote in it is read literally. */
  lemma ScanQuoted(a: string, rest: string, current: Option<string>)
    requires QUOTE !in a
    ensures Scan([QUOTE] + a + [QUOTE] + rest, current) == Scan(rest, Some(current.GetOr("") + a))
  {
    var text := [QUOTE] + a + [QUOTE] + rest;
    assert text[1..] == a + [QUOTE] + rest;
    IndexOfUnique(text[1..], QUOTE, |a|);
    assert text[1..|a| + 1] == a;
    assert text[|a| + 2..] == rest;
  }

  /** A backslash and a quote outside quotes stand for the quote. */
  lemma ScanBackslashQuote(rest: string, current: Option<string>)
    ensures Scan([BACKSLASH, QUOTE] + rest, current) == Scan(rest, Some(current.GetOr("") + [QUOTE]))
  {
    assert ([BACKSLASH, QUOTE] + rest)[2..] == rest;
  }

  lemma Regroup(a: string, b: string, rest: string)
    ensures [QUOTE] + (a + [QUOTE, BACKSLASH, QUOTE, QUOTE] + b) + [QUOTE] + rest ==
      [QUOTE] + a + [QUOTE] + ([BACKSLASH, QUOTE] + ([QUOTE] + b + [QUOTE] + rest))
  {
    var left := [QUOTE] + a + [QUOTE];
    assert [QUOTE] + (a + [QUOTE, BACKSLASH, QUOTE, QUOTE] + b) == left + ([BACKSLASH, QUOTE] + ([QUOTE] + b));
    ConcatAssociative([BACKSLASH, QUOTE] + ([QUOTE] + b), [QUOTE], rest);
    ConcatAssociative([BACKSLASH, QUOTE], [QUOTE] + b, [QUOTE] + rest);
    ConcatAssociative([QUOTE] + b, [QUOTE], rest);
    ConcatAssociative(left, [BACKSLASH, QUOTE] + ([QUOTE] + b), [QUOTE] + rest);
    ConcatAssociative(left + ([BACKSLASH, QUOTE] + ([QUOTE] + b)), [QUOTE], rest);
  }

  lemma {:induction false} ScanEscaped(w: string, rest: string, current: Option<string>)
    ensures Scan([QUOTE] + Escaped(w) + [QUOTE] + rest, current) == Scan(rest, Some(current.GetOr("") + w))
    decreases |w|
  {
    var i := IndexOf(w, QUOTE);
    var a := w[..i];
    if i == |w| {
      assert a == w;
      EscapedSplit(w, "");
      ScanQuoted(w, rest, current);
    } else {
      var b := w[i + 1..];
      ScanEscaped(b, rest, Some(current.GetOr("") + a + [QUOTE]));
      ScanEscapedStep(a, b, rest, current);
      assert w == a + [QUOTE] + b;
      ConcatAssociative(current.GetOr("") + a, [QUOTE], b);
      ConcatAssociative(current.GetOr(""), a, [QUOTE] + b);
      ConcatAssociative(a, [QUOTE], b);
    }
  }

  lemma ScanEscapedStep(a: string, b: string, rest: string, current: Option<string>)
    requires QUOTE !in a
    ensures Scan([QUOTE] + Escaped(a + [QUOTE] + b) + [QUOTE] + rest, current) ==
      Scan([QUOTE] + Escaped(b) + [QUOTE] + rest, Some(current.GetOr("") + a + [QUOTE]))
  {
    EscapedSplit(a, b);
    var tail := [QUOTE] + Escaped(b) + [QUOTE] + rest;
    Regroup(a, Escaped(b), rest);
    ScanQuoted(a, [BACKSLASH, QUOTE] + tail, current);
    ScanBackslashQuote(tail, Some(current.GetOr("") + a));
  }

  /** A quoted word is read as the word itself, whatever characters it has. */
  lemma ScanShellQuote(w: string, rest: string, current: Option<string>)
    ensures Scan(ShellQuote(w) + rest, current) == Scan(rest, Extend(current, w))
  {
    if forall i :: 0 <= i < |w| ==> IsSafe(w[i]) {
      ScanSafe(w, rest, current);
    } else {
      ScanEscaped(w, rest, current);
    }
  }

  // ---------------------------------------------------------------------------------------------
  // The command line
  // ---------------------------------------------------------------------------------------------

  /** A word is printed as it is exactly when it has no character but ASCII letters, digits and
      `_-./:@`; any other is quoted from beginning to end. */
  lemma UnquotedIff(value: string)
    ensures ShellQuote(value) == value <==> forall i :: 0 <= i < |value| ==>
      || 'a' <= value[i] <= 'z' || 'A' <= value[i] <= 'Z' || '0' <= value[i] <= '9'
      || value[i] == '_' || value[i] == '-' || value[i] == '.' || value[i] == '/' || value[i] == ':' || value[i] == '@'
    ensures var quoted := ShellQuote(value);
      quoted != value ==> quoted != "" && quoted[0] == '\'' && quoted[|quoted| - 1] == '\''
  {
    EscapedIsLonger(value);
  }

  lemma {:induction false} EscapedIsLonger(s: string)
    ensures |Escaped(s)| >= |s|
  {
    if s != "" {
      EscapedIsLonger(s[1..]);
    }
  }

  function NonEmptyWords(words: seq<string>): seq<string> {
    if words == [] then []
    else (if words[0] == "" then [] else [words[0]]) + NonEmptyWords(words[1..])
  }

  lemma {:induction false} ScanWords(words: seq<string>)
    requires words != []
    ensures Tokenize(Join(QuotedWords(words), " ")) == Some(NonEmptyWords(words))
  {
    var w := words[0];
    var current := Extend(None, w);
    assert "" + w == w;
    if |words| == 1 {
      ScanShellQuote(w, "", None);
      assert ShellQuote(w) + "" == ShellQuote(w);
      assert QuotedWords(words) == [ShellQuote(w)];
      assert Join(QuotedWords(words), " ") == ShellQuote(w);
      assert Scan("", current) == Some(if w == "" then [] else [w]);
      assert NonEmptyWords(words[1..]) == [];
      assert NonEmptyWords(words) == (if w == "" then [] else [w]);
    } else {
      ScanWords(words[1..]);
      var tail := Join(QuotedWords(words[1..]), " ");
      ScanShellQuote(w, " " + tail, None);
      ConcatAssociative(ShellQuote(w), " ", tail);
      assert (" " + tail)[1..] == tail;
      var rest := NonEmptyWords(words[1..]);
      assert [] + rest == rest;
      assert Scan(" " + tail, current) == Some(if current.Some? then [current.value] + rest else rest);
      assert Join(QuotedWords(words), " ") == ShellQuote(w) + " " + tail by {
        assert QuotedWords(words)[1..] == QuotedWords(words[1..]);
      }
    }
  }

  /** The shell reads a printed command back as its non-empty words. */
  lemma CommandWords(program: string, args: seq<string>)
    ensures Tokenize(ShellCommand(program, args)) == Some(NonEmptyWords([program] + args))
  {
    var words := [program] + args;
    ScanWords(words);
    assert words[1..] == args;
  }

  lemma {:induction false} NonEmptyWordsIdentity(words: seq<string>)
    ensures NonEmptyWords(words) == words <==> "" !in words
    ensures |NonEmptyWords(words)| <= |words|
  {
    if words != [] {
      NonEmptyWordsIdentity(words[1..]);
      assert words == [words[0]] + words[1..];
      assert "" in words <==> words[0] == "" || "" in words[1..];
    }
  }

  /** It is read back as exactly the program and its arguments if and only if none is empty. */
  lemma CommandRoundTrip(program: string, args: seq<string>)
    ensures Tokenize(ShellCommand(program, args)) == Some([program] + args) <==> program != "" && "" !in args
  {
    CommandWords(program, args);
    NonEmptyWordsIdentity([program] + args);
    assert "" in [program] + args <==> program == "" || "" in args;
  }
}
