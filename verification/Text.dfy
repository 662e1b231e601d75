/** Strings as sequences of Unicode scalar values, with the string operations of the Rust
    standard library that the modelled programs use. */
module Text {

  datatype Option<+T> = None | Some(value: T) {
    function GetOr(default: T): T {
      match this
      case Some(v) => v
      case None => default
    }
  }

  /** The Unicode White_Space property, which `str::trim` uses. */
  predicate IsWhitespace(c: char) {
    || '\t' <= c <= '\r'
    || c == ' ' || c == '\U{85}' || c == '\U{A0}' || c == '\U{1680}'
    || '\U{2000}' <= c <= '\U{200A}'
    || c == '\U{2028}' || c == '\U{2029}' || c == '\U{202F}' || c == '\U{205F}' || c == '\U{3000}'
  }

  predicate IsAsciiAlphanumeric(c: char) {
    '0' <= c <= '9' || 'a' <= c <= 'z' || 'A' <= c <= 'Z'
  }

  predicate IsLowerAlphanumeric(c: char) {
    '0' <= c <= '9' || 'a' <= c <= 'z'
  }

  function ToAsciiLower(c: char): (lowered: char)
    ensures 'A' <= c <= 'Z' ==> lowered as int == c as int + 32
    ensures !('A' <= c <= 'Z') ==> lowered == c
  {
    if 'A' <= c <= 'Z' then c - 'A' + 'a' else c
  }

  function TrimStart(s: string): string {
    if s != "" && IsWhitespace(s[0]) then TrimStart(s[1..]) else s
  }

  function TrimEnd(s: string): string {
    if s != "" && IsWhitespace(s[|s| - 1]) then TrimEnd(s[..|s| - 1]) else s
  }

  function Trim(s: string): string {
    TrimEnd(TrimStart(s))
  }

  /** A string that `trim` leaves alone. */
  predicate IsTrimmed(s: string) {
    s == "" || (!IsWhitespace(s[0]) && !IsWhitespace(s[|s| - 1]))
  }

  lemma {:induction false} TrimStartProperties(s: string)
    ensures |TrimStart(s)| <= |s| && TrimStart(s) == s[|s| - |TrimStart(s)|..]
    ensures TrimStart(s) == "" || !IsWhitespace(TrimStart(s)[0])
  {
    if s != "" && IsWhitespace(s[0]) {
      TrimStartProperties(s[1..]);
    }
  }

  lemma {:induction false} TrimEndProperties(s: string)
    ensures |TrimEnd(s)| <= |s| && TrimEnd(s) == s[..|TrimEnd(s)|]
    ensures TrimEnd(s) == "" || !IsWhitespace(TrimEnd(s)[|TrimEnd(s)| - 1])
  {
    if s != "" && IsWhitespace(s[|s| - 1]) {
      TrimEndProperties(s[..|s| - 1]);
    }
  }

  lemma TrimIsTrimmed(s: string)
    ensures IsTrimmed(Trim(s))
  {
    TrimStartProperties(s);
    TrimEndProperties(TrimStart(s));
  }

  /** What is cut off is white space: with the lemma before, this fixes the trimmed text. */
  lemma {:induction false} TrimStartCutsWhitespace(s: string)
    ensures exists n :: 0 <= n <= |s| && TrimStart(s) == s[n..] && forall i :: 0 <= i < n ==> IsWhitespace(s[i])
  {
    if s != "" && IsWhitespace(s[0]) {
      TrimStartCutsWhitespace(s[1..]);
      var n :| 0 <= n <= |s[1..]| && TrimStart(s[1..]) == s[1..][n..] &&
               forall i :: 0 <= i < n ==> IsWhitespace(s[1..][i]);
      assert forall i :: 0 < i < n + 1 ==> s[i] == s[1..][i - 1];
      assert TrimStart(s) == s[n + 1..];
    } else {
      assert s[0..] == s;
    }
  }

  lemma {:induction false} TrimEndCutsWhitespace(s: string)
    ensures exists n :: 0 <= n <= |s| && TrimEnd(s) == s[..n] && forall i :: n <= i < |s| ==> IsWhitespace(s[i])
  {
    if s != "" && IsWhitespace(s[|s| - 1]) {
      var init := s[..|s| - 1];
      TrimEndCutsWhitespace(init);
      var n :| 0 <= n <= |init| && TrimEnd(init) == init[..n] && forall i :: n <= i < |init| ==> IsWhitespace(init[i]);
      assert forall i :: 0 <= i < |init| ==> s[i] == init[i];
      assert TrimEnd(s) == s[..n];
    } else {
      assert s[..|s|] == s;
    }
  }

  /** The part of the text between two places, with only white space around it. */
  ghost predicate IsCore(s: string, m: nat, n: nat) {
    && m <= n <= |s|
    && IsTrimmed(s[m..n])
    && forall i :: 0 <= i < m || n <= i < |s| ==> IsWhitespace(s[i])
  }

  /** A text is its trimmed core between white space. */
  lemma TrimIsTheCore(s: string)
    ensures exists m: nat, n: nat :: IsCore(s, m, n) && Trim(s) == s[m..n]
  {
    TrimStartCutsWhitespace(s);
    var m :| 0 <= m <= |s| && TrimStart(s) == s[m..] && forall i :: 0 <= i < m ==> IsWhitespace(s[i]);
    var rest := s[m..];
    TrimEndCutsWhitespace(rest);
    var k :| 0 <= k <= |rest| && TrimEnd(rest) == rest[..k] && forall i :: k <= i < |rest| ==> IsWhitespace(rest[i]);
    TrimIsTrimmed(s);
    CoreOfTwoCuts(s, m, k);
  }

  lemma CoreOfTwoCuts(s: string, m: nat, k: nat)
    requires m <= |s| && k <= |s| - m && IsTrimmed(s[m..][..k])
    requires forall i :: 0 <= i < m ==> IsWhitespace(s[i])
    requires forall i :: k <= i < |s| - m ==> IsWhitespace(s[m..][i])
    ensures IsCore(s, m, m + k) && s[m..m + k] == s[m..][..k]
  {
    assert s[m..][..k] == s[m..m + k];
    assert forall i :: m + k <= i < |s| ==> s[i] == s[m..][i - m];
  }

  lemma TrimTrimmed(s: string)
    requires IsTrimmed(s)
    ensures Trim(s) == s
  {
  }

  /** Appending white space does not change the trimmed text. */
  lemma {:induction false} TrimIgnoresSuffix(s: string, c: char)
    requires IsWhitespace(c)
    ensures Trim(s + [c]) == Trim(s)
  {
    if s == "" {
      assert TrimStart(s + [c]) == TrimStart("");
    } else if IsWhitespace(s[0]) {
      assert (s + [c])[1..] == s[1..] + [c];
      TrimIgnoresSuffix(s[1..], c);
      assert TrimStart(s) == TrimStart(s[1..]);
    } else {
      assert TrimStart(s + [c]) == s + [c];
      assert (s + [c])[..|s|] == s;
    }
  }

  /** A leading part that starts and ends with a visible character survives trimming. */
  lemma TrimKeepsPrefix(p: string, s: string)
    requires p != "" && !IsWhitespace(p[0]) && !IsWhitespace(p[|p| - 1])
    ensures Trim(p + s) == p + TrimEnd(s)
  {
    assert TrimStart(p + s) == p + s;
    TrimEndKeepsPrefix(p, s);
  }

  lemma {:induction false} TrimEndKeepsPrefix(p: string, s: string)
    requires p != "" && !IsWhitespace(p[|p| - 1])
    ensures TrimEnd(p + s) == p + TrimEnd(s)
  {
    if s == "" {
      assert p + s == p;
    } else if IsWhitespace(s[|s| - 1]) {
      assert (p + s)[..|p + s| - 1] == p + s[..|s| - 1];
      TrimEndKeepsPrefix(p, s[..|s| - 1]);
    }
  }

  /** Trailing white space can be removed before trimming. */
  lemma {:induction false} TrimAfterTrimEnd(s: string)
    ensures Trim(TrimEnd(s)) == Trim(s)
  {
    if s != "" && IsWhitespace(s[|s| - 1]) {
      var rest := s[..|s| - 1];
      TrimAfterTrimEnd(rest);
      TrimIgnoresSuffix(rest, s[|s| - 1]);
      assert rest + [s[|s| - 1]] == s;
    }
  }

  /** Index of the first `c`, or the length when there is none. */
  function IndexOf(s: string, c: char): (i: nat)
    ensures i <= |s|
    ensures i < |s| ==> s[i] == c
    ensures forall k :: 0 <= k < i ==> s[k] != c
  {
    if s == "" || s[0] == c then 0
    else
      1 + IndexOf(s[1..], c)
  }

  lemma IndexOfUnique(s: string, c: char, i: nat)
    requires i <= |s| && (forall k :: 0 <= k < i ==> s[k] != c) && (i < |s| ==> s[i] == c)
    ensures IndexOf(s, c) == i
  {
  }

  function StripCarriageReturn(line: string): string {
    if line != "" && line[|line| - 1] == '\r' then line[..|line| - 1] else line
  }

  /** `str::lines`: pieces between line feeds, each without one carriage return before its line
      feed; a last piece without a line feed is kept as it is and an empty one is dropped. */
  function Lines(s: string): seq<string> {
    var i := IndexOf(s, '\n');
    if s == "" then []
    else if i == |s| then [s]
    else [StripCarriageReturn(s[..i])] + Lines(s[i + 1..])
  }

  /** Every line followed by a line feed. */
  function Terminated(lines: seq<string>): string {
    if lines == [] then "" else lines[0] + "\n" + Terminated(lines[1..])
  }

  function Join(parts: seq<string>, separator: string): string {
    if parts == [] then ""
    else if |parts| == 1 then parts[0]
    else parts[0] + separator + Join(parts[1..], separator)
  }

  lemma {:induction false} JoinTerminates(lines: seq<string>)
    requires lines != []
    ensures Join(lines, "\n") + "\n" == Terminated(lines)
  {
    if |lines| == 1 {
      assert Terminated(lines[1..]) == "";
    } else {
      JoinTerminates(lines[1..]);
      var rest := Join(lines[1..], "\n");
      assert lines[0] + "\n" + rest + "\n" == lines[0] + "\n" + (rest + "\n");
    }
  }

  lemma LinesStep(line: string, rest: string)
    requires '\n' !in line
    ensures Lines(line + "\n" + rest) == [StripCarriageReturn(line)] + Lines(rest)
  {
    var s := line + "\n" + rest;
    assert s[..|line|] == line;
    IndexOfUnique(s, '\n', |line|);
    assert s[|line| + 1..] == rest;
  }

  /** A line ends with a line feed, or a carriage return and a line feed; a last one may have
      neither. */
  lemma LineEndings(line: string, rest: string)
    requires '\n' !in line
    ensures line == "" || line[|line| - 1] != '\r' ==> Lines(line + "\n" + rest) == [line] + Lines(rest)
    ensures Lines((line + ['\r']) + "\n" + rest) == [line] + Lines(rest)
    ensures Lines(line) == if line == "" then [] else [line]
  {
    LinesStep(line, rest);
    LineWithReturn(line, rest);
    LastLine(line);
  }

  lemma LineWithReturn(line: string, rest: string)
    requires '\n' !in line
    ensures Lines((line + ['\r']) + "\n" + rest) == [line] + Lines(rest)
  {
    LinesStep(line + ['\r'], rest);
    assert StripCarriageReturn(line + ['\r']) == line;
  }

  lemma LastLine(line: string)
    requires '\n' !in line
    ensures Lines(line) == if line == "" then [] else [line]
  {
    IndexOfUnique(line, '\n', |line|);
  }

  /** A text that is empty or ends in a line feed. */
  predicate IsComplete(s: string) {
    s == "" || s[|s| - 1] == '\n'
  }

  lemma ConcatAssociative<T>(a: seq<T>, b: seq<T>, c: seq<T>)
    ensures a + b + c == a + (b + c)
  {
  }

  /** A non-empty complete text starts with a terminated line. */
  lemma FirstLine(s: string) returns (line: string, rest: string)
    requires IsComplete(s) && s != ""
    ensures s == line + "\n" + rest && '\n' !in line && IsComplete(rest)
  {
    var i := IndexOf(s, '\n');
    line, rest := s[..i], s[i + 1..];
  }

  lemma LinesPrepend(line: string, rest: string, b: string)
    requires '\n' !in line && Lines(rest + b) == Lines(rest) + Lines(b)
    ensures Lines(line + "\n" + rest + b) == Lines(line + "\n" + rest) + Lines(b)
  {
    ConcatAssociative(line + "\n", rest, b);
    LinesStep(line, rest + b);
    LinesStep(line, rest);
    ConcatAssociative([StripCarriageReturn(line)], Lines(rest), Lines(b));
  }

  /** Splitting into lines distributes over concatenation after a complete text. */
  lemma {:induction false} LinesConcat(a: string, b: string)
    requires IsComplete(a)
    ensures Lines(a + b) == Lines(a) + Lines(b)
    decreases |a|
  {
    if a == "" {
      assert a + b == b;
    } else {
      var line, rest := FirstLine(a);
      LinesConcat(rest, b);
      LinesPrepend(line, rest, b);
    }
  }

  lemma {:induction false} TerminatedConcat(a: seq<string>, b: seq<string>)
    ensures Terminated(a + b) == Terminated(a) + Terminated(b)
  {
    if a == [] {
      assert a + b == b;
    } else {
      TerminatedConcat(a[1..], b);
      assert (a + b)[1..] == a[1..] + b;
      ConcatAssociative(a[0] + "\n", Terminated(a[1..]), Terminated(b));
    }
  }

  lemma {:induction false} TerminatedIsComplete(a: seq<string>)
    ensures IsComplete(Terminated(a))
  {
    if a != [] {
      TerminatedIsComplete(a[1..]);
    }
  }

  lemma {:induction false} LinesHaveNoNewline(s: string)
    ensures forall k :: 0 <= k < |Lines(s)| ==> '\n' !in Lines(s)[k]
    decreases |s|
  {
    if s != "" {
      var i := IndexOf(s, '\n');
      if i < |s| {
        LinesHaveNoNewline(s[i + 1..]);
      }
    }
  }
}
