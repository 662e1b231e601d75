/** The env-file editor and the env-file parser of the CLI: what the parser reads back from a
    file after the editor set a key. */
module EnvFile {
  import opened Text

  // ---------------------------------------------------------------------------------------------
  // The parser
  // ---------------------------------------------------------------------------------------------

  /** Index of the first " #", or the length when there is none. */
  function CommentStart(value: string): (i: nat)
    ensures i <= |value|
    ensures i < |value| ==> " #" <= value[i..]
    ensures forall k :: 0 <= k < i ==> !(" #" <= value[k..])
  {
    if value == "" || " #" <= value then 0
    else
      assert forall k :: 0 < k <= |value| ==> value[k..] == value[1..][k - 1..];
      1 + CommentStart(value[1..])
  }

  function StripEnvValueComment(value: string): string {
    Trim(value[..CommentStart(value)])
  }

  datatype Assignment = Assignment(key: string, value: string)

  function ParseEnvLine(line: string): Option<Assignment> {
    var trimmed := Trim(line);
    if trimmed == "" || trimmed[0] == '#' then None
    else
      var i := IndexOf(trimmed, '=');
      if i == |trimmed| then None
      else Some(Assignment(Trim(trimmed[..i]), StripEnvValueComment(Trim(trimmed[i + 1..]))))
  }

  /** The line assigns: without white space around it, it is a key without "=", the first "=" and a
      value, and it does not begin with "#"; key and value count without white space around them,
      the value up to its first " #". */
  ghost predicate Assigns(line: string, key: string, value: string, a: Assignment) {
    && Trim(line) == key + "=" + value
    && '=' !in key && (key == "" || key[0] != '#')
    && a.key == Trim(key)
    && a.value == Trim(Trim(value)[..CommentStart(Trim(value))])
  }

  lemma ParsedLine(line: string, a: Assignment)
    ensures ParseEnvLine(line) == Some(a) <==> exists key, value :: Assigns(line, key, value, a)
  {
    var trimmed := Trim(line);
    if ParseEnvLine(line) == Some(a) {
      var i := IndexOf(trimmed, '=');
      assert trimmed == trimmed[..i] + "=" + trimmed[i + 1..];
      assert Assigns(line, trimmed[..i], trimmed[i + 1..], a);
    }
    if key, value :| Assigns(line, key, value, a) {
      SplitAtEquals(key, value);
    }
  }

  lemma SplitAtEquals(key: string, value: string)
    requires '=' !in key
    ensures var s := key + "=" + value;
      IndexOf(s, '=') == |key| && s[..|key|] == key && s[|key| + 1..] == value
  {
    IndexOfUnique(key + "=" + value, '=', |key|);
  }

  /** The assignments of the lines, a later one replacing an earlier one for the same key. */
  function ParseEnvLines(lines: seq<string>): map<string, string> {
    if lines == [] then map[]
    else
      match ParseEnvLine(lines[0])
      case None => ParseEnvLines(lines[1..])
      case Some(a) => map[a.key := a.value] + ParseEnvLines(lines[1..])
  }

  function ParseEnvFileContent(content: string): map<string, string> {
    ParseEnvLines(Lines(content))
  }

  // ---------------------------------------------------------------------------------------------
  // The editor
  // ---------------------------------------------------------------------------------------------

  /** A line that the editor recognises as the assignment of `key`. */
  predicate IsExact(line: string, key: string) {
    key + "=" <= line
  }

  function EditLine(line: string, key: string, value: string): string {
    if IsExact(line, key) then key + "=" + value else line
  }

  function EditLines(lines: seq<string>, key: string, value: string): seq<string> {
    if lines == [] then [] else [EditLine(lines[0], key, value)] + EditLines(lines[1..], key, value)
  }

  predicate HasExact(lines: seq<string>, key: string) {
    lines != [] && (IsExact(lines[0], key) || HasExact(lines[1..], key))
  }

  function ReplacedLines(lines: seq<string>, key: string, value: string): seq<string> {
    EditLines(lines, key, value) + if HasExact(lines, key) then [] else [key + "=" + value]
  }

  function Replaced(text: string, key: string, value: string): string {
    Terminated(ReplacedLines(Lines(text), key, value))
  }

  /** What an edit does to the lines: every one that starts with the key and "=" is rewritten, every
      other one stays as it is, and when there was none to rewrite one is added at the end. */
  ghost predicate IsEdit(before: seq<string>, after: seq<string>, key: string, value: string) {
    && |before| <= |after| <= |before| + 1
    && (forall i :: 0 <= i < |before| ==>
          if key + "=" <= before[i] then after[i] == key + "=" + value else after[i] == before[i])
    && (|after| == |before| <==> exists i :: 0 <= i < |before| && key + "=" <= before[i])
    && (|after| > |before| ==> after[|before|] == key + "=" + value)
  }

  lemma {:induction false} EditLinesAt(lines: seq<string>, key: string, value: string)
    ensures |EditLines(lines, key, value)| == |lines|
    ensures forall i :: 0 <= i < |lines| ==> EditLines(lines, key, value)[i] == EditLine(lines[i], key, value)
    ensures HasExact(lines, key) <==> exists i :: 0 <= i < |lines| && IsExact(lines[i], key)
  {
    if lines != [] {
      EditLinesAt(lines[1..], key, value);
      assert forall i :: 0 < i < |lines| ==> lines[i] == lines[1..][i - 1];
      if i :| 0 <= i < |lines| && IsExact(lines[i], key) {
        assert i > 0 ==> IsExact(lines[1..][i - 1], key);
      }
    }
  }

  lemma ReplacedIsEdit(lines: seq<string>, key: string, value: string)
    ensures IsEdit(lines, ReplacedLines(lines, key, value), key, value)
  {
    EditLinesAt(lines, key, value);
  }

  /** The new text is the edited lines of the old one, each ended by a line feed. */
  method ReplaceEnvLine(envText: string, key: string, value: string) returns (r: string)
    ensures exists after :: IsEdit(Lines(envText), after, key, value) && r == Terminated(after)
    ensures r == Replaced(envText, key, value)
  {
    var prefix := key + "=";
    var source := Lines(envText);
    var found := false;
    var lines: seq<string> := [];
    for n := 0 to |source|
      invariant HasExact(source, key) <==> found || HasExact(source[n..], key)
      invariant EditLines(source, key, value) == lines + EditLines(source[n..], key, value)
    {
      assert source[n..][1..] == source[n + 1..];
      ghost var rest := EditLines(source[n + 1..], key, value);
      if prefix <= source[n] {
        found := true;
        ConcatAssociative(lines, [prefix + value], rest);
        lines := lines + [prefix + value];
      } else {
        ConcatAssociative(lines, [source[n]], rest);
        lines := lines + [source[n]];
      }
    }
    if !found {
      lines := lines + [prefix + value];
    }
    assert lines == ReplacedLines(source, key, value);
    ReplacedIsEdit(source, key, value);
    JoinTerminates(lines);
    r := Join(lines, "\n") + "\n";
  }

  // ---------------------------------------------------------------------------------------------
  // Reading back one line
  // ---------------------------------------------------------------------------------------------

  predicate IsEnvKey(key: string) {
    IsTrimmed(key) && '=' !in key && '\n' !in key && (key == "" || key[0] != '#')
  }

  /** What the parser makes of a value that the editor wrote. */
  function Cleaned(value: string): string {
    StripEnvValueComment(Trim(value))
  }

  predicate IsCommentFree(value: string) {
    CommentStart(value) == |value|
  }

  /** Exactly the trimmed values without " #" are read back as they were written. */
  lemma CleanedIsIdentity(value: string)
    ensures Cleaned(value) == value <==> IsTrimmed(value) && IsCommentFree(value)
  {
    var trimmed := Trim(value);
    var i := CommentStart(trimmed);
    TrimShortens(value);
    TrimShortens(trimmed[..i]);
    if IsTrimmed(value) && IsCommentFree(value) {
      TrimTrimmed(value);
      assert value[..|value|] == value;
    }
  }

  lemma TrimShortens(s: string)
    ensures |Trim(s)| <= |s| && IsTrimmed(Trim(s))
    ensures |Trim(s)| == |s| ==> Trim(s) == s
  {
    TrimIsTrimmed(s);
    TrimStartProperties(s);
    TrimEndProperties(TrimStart(s));
  }

  /** An exact line is parsed as an assignment of its key. */
  lemma ExactLineParses(rest: string, key: string)
    requires IsEnvKey(key)
    ensures ParseEnvLine(key + "=" + rest) == Some(Assignment(key, Cleaned(rest)))
  {
    var prefix := key + "=";
    TrimKeepsPrefix(prefix, rest);
    var trimmed := prefix + TrimEnd(rest);
    IndexOfUnique(trimmed, '=', |key|);
    assert trimmed[..|key|] == key;
    assert trimmed[|key| + 1..] == TrimEnd(rest);
    TrimTrimmed(key);
    TrimAfterTrimEnd(rest);
  }

  lemma ExactLine(line: string, key: string)
    requires IsEnvKey(key) && IsExact(line, key)
    ensures ParseEnvLine(line).Some? && ParseEnvLine(line).value.key == key
  {
    var rest := line[|key| + 1..];
    assert line == key + "=" + rest;
    ExactLineParses(rest, key);
  }

  // ---------------------------------------------------------------------------------------------
  // The lines that matter for one key
  // ---------------------------------------------------------------------------------------------

  /** A line that the parser takes as an assignment of the key; `exact` when the editor
      recognises it too, otherwise it is an alias, such as an indented or space-padded one. */
  datatype Mention = Mention(exact: bool, value: string)

  function LineMentions(line: string, key: string): seq<Mention> {
    match ParseEnvLine(line)
    case Some(a) => if a.key == key then [Mention(IsExact(line, key), a.value)] else []
    case None => []
  }

  function Mentions(lines: seq<string>, key: string): seq<Mention> {
    if lines == [] then [] else LineMentions(lines[0], key) + Mentions(lines[1..], key)
  }

  /** Setting the key will take effect: the editor has no line to rewrite and appends one, or the
      last line that the parser takes for the key is one that the editor rewrites. */
  predicate Settles(text: string, key: string) {
    var mentions := Mentions(Lines(text), key);
    (forall m :: m in mentions ==> !m.exact) || mentions[|mentions| - 1].exact
  }

  function Get<V>(values: map<string, V>, key: string): Option<V> {
    if key in values then Some(values[key]) else None
  }

  function Value(text: string, key: string): Option<string> {
    Get(ParseEnvFileContent(text), key)
  }

  lemma {:induction false} MentionsConcat(a: seq<string>, b: seq<string>, key: string)
    ensures Mentions(a + b, key) == Mentions(a, key) + Mentions(b, key)
  {
    if a == [] {
      assert a + b == b;
    } else {
      MentionsConcat(a[1..], b, key);
      MentionsStep(a[0], a[1..], key);
      MentionsStep(a[0], a[1..] + b, key);
      assert [a[0]] + a[1..] == a;
      ConcatAssociative([a[0]], a[1..], b);
      ConcatAssociative(LineMentions(a[0], key), Mentions(a[1..], key), Mentions(b, key));
    }
  }

  lemma MentionsStep(line: string, rest: seq<string>, key: string)
    ensures Mentions([line] + rest, key) == LineMentions(line, key) + Mentions(rest, key)
  {
    assert ([line] + rest)[1..] == rest;
  }

  predicate LastWins(mentions: seq<Mention>, values: map<string, string>, key: string) {
    if mentions == [] then key !in values
    else key in values && values[key] == mentions[|mentions| - 1].value
  }

  lemma LastWinsStep(line: string, mentions: seq<Mention>, values: map<string, string>, key: string)
    requires LastWins(mentions, values, key)
    ensures var first := ParseEnvLine(line);
      LastWins(LineMentions(line, key) + mentions,
               if first.None? then values else map[first.value.key := first.value.value] + values, key)
  {
  }

  /** The parsed value of a key is the value of its last mention. */
  lemma {:induction false} LastMentionWins(lines: seq<string>, key: string)
    ensures LastWins(Mentions(lines, key), ParseEnvLines(lines), key)
  {
    if lines != [] {
      LastMentionWins(lines[1..], key);
      LastWinsStep(lines[0], Mentions(lines[1..], key), ParseEnvLines(lines[1..]), key);
    }
  }

  function EditMention(m: Mention, value: string): Mention {
    if m.exact then Mention(true, Cleaned(value)) else m
  }

  function EditMentions(mentions: seq<Mention>, value: string): seq<Mention> {
    seq(|mentions|, i requires 0 <= i < |mentions| => EditMention(mentions[i], value))
  }

  lemma EditMentionsConcat(a: seq<Mention>, b: seq<Mention>, value: string)
    ensures EditMentions(a + b, value) == EditMentions(a, value) + EditMentions(b, value)
  {
  }

  lemma EditedLineMentions(line: string, key: string, value: string)
    requires IsEnvKey(key)
    ensures LineMentions(EditLine(line, key, value), key) == EditMentions(LineMentions(line, key), value)
  {
    if IsExact(line, key) {
      ExactLine(line, key);
      ExactLineParses(value, key);
    }
  }

  lemma {:induction false} EditedLinesMentions(lines: seq<string>, key: string, value: string)
    requires IsEnvKey(key)
    ensures Mentions(EditLines(lines, key, value), key) == EditMentions(Mentions(lines, key), value)
  {
    if lines != [] {
      EditedLineMentions(lines[0], key, value);
      EditedLinesMentions(lines[1..], key, value);
      EditMentionsConcat(LineMentions(lines[0], key), Mentions(lines[1..], key), value);
      var edited := EditLines(lines, key, value);
      assert edited[0] == EditLine(lines[0], key, value);
      assert edited[1..] == EditLines(lines[1..], key, value);
    }
  }

  lemma {:induction false} EditingLeavesOtherMentions(lines: seq<string>, key: string, value: string, other: string)
    requires IsEnvKey(key) && other != key
    ensures Mentions(EditLines(lines, key, value), other) == Mentions(lines, other)
  {
    if lines != [] {
      EditingLeavesOtherMentions(lines[1..], key, value, other);
      if IsExact(lines[0], key) {
        ExactLine(lines[0], key);
        ExactLineParses(value, key);
      }
    }
  }

  lemma {:induction false} HasExactMention(lines: seq<string>, key: string)
    requires IsEnvKey(key)
    ensures HasExact(lines, key) <==> exists m :: m in Mentions(lines, key) && m.exact
  {
    if lines != [] {
      HasExactMention(lines[1..], key);
      var first, rest := LineMentions(lines[0], key), Mentions(lines[1..], key);
      assert forall m :: m in first + rest <==> m in first || m in rest;
      if IsExact(lines[0], key) {
        ExactLine(lines[0], key);
        assert first[0] in first;
      }
    }
  }

  lemma CarriageReturnIsIgnored(line: string, key: string)
    ensures LineMentions(StripCarriageReturn(line), key) == LineMentions(line, key)
  {
    if StripCarriageReturn(line) != line {
      var body := line[..|line| - 1];
      assert line == body + ['\r'];
      TrimIgnoresSuffix(body, '\r');
      if IsExact(line, key) {
        assert line[|key|] == '=';
        assert line[..|key| + 1] == body[..|key| + 1];
      }
    }
  }

  predicate AreLines(lines: seq<string>) {
    forall i :: 0 <= i < |lines| ==> '\n' !in lines[i]
  }

  /** Writing lines out and splitting them again keeps the mentions of every key. */
  lemma {:induction false} WritingKeepsMentions(lines: seq<string>, key: string)
    requires AreLines(lines)
    ensures Mentions(Lines(Terminated(lines)), key) == Mentions(lines, key)
  {
    if lines != [] {
      WritingKeepsMentions(lines[1..], key);
      LinesStep(lines[0], Terminated(lines[1..]));
      CarriageReturnIsIgnored(lines[0], key);
      MentionsConcat([StripCarriageReturn(lines[0])], Lines(Terminated(lines[1..])), key);
      assert Mentions([StripCarriageReturn(lines[0])], key) == LineMentions(lines[0], key) + [];
    }
  }

  // ---------------------------------------------------------------------------------------------
  // The editor against the parser
  // ---------------------------------------------------------------------------------------------

  lemma {:induction false} EditedLinesHaveNoNewline(lines: seq<string>, key: string, value: string)
    requires '\n' !in key && '\n' !in value
    requires AreLines(lines)
    ensures AreLines(EditLines(lines, key, value))
  {
    if lines != [] {
      var rest := lines[1..];
      assert forall i :: 0 <= i < |rest| ==> rest[i] == lines[i + 1];
      EditedLinesHaveNoNewline(rest, key, value);
      var edited := EditLines(lines, key, value);
      assert '\n' !in lines[0];
      assert '\n' !in edited[0];
      assert forall i :: 0 < i < |edited| ==> edited[i] == EditLines(rest, key, value)[i - 1];
    }
  }

  lemma ReplacedMentions(text: string, key: string, value: string, k: string)
    requires IsEnvKey(key) && '\n' !in value
    ensures var lines := Lines(text);
      Mentions(Lines(Replaced(text, key, value)), k) ==
        Mentions(EditLines(lines, key, value), k) +
        if HasExact(lines, key) then [] else LineMentions(key + "=" + value, k)
  {
    var lines := Lines(text);
    LinesHaveNoNewline(text);
    EditedLinesHaveNoNewline(lines, key, value);
    WritingKeepsMentions(ReplacedLines(lines, key, value), k);
    MentionsConcat(EditLines(lines, key, value), ReplacedLines(lines, key, value)[|EditLines(lines, key, value)|..], k);
  }

  /** The mentions of the edited key: its exact ones rewritten, one added when there was none. */
  lemma MentionsAfterSet(text: string, key: string, value: string)
    requires IsEnvKey(key) && '\n' !in value
    ensures var before, after := Mentions(Lines(text), key), Mentions(Lines(Replaced(text, key, value)), key);
      after == EditMentions(before, value) +
        if exists m :: m in before && m.exact then [] else [Mention(true, Cleaned(value))]
  {
    var lines := Lines(text);
    ReplacedMentions(text, key, value, key);
    EditedLinesMentions(lines, key, value);
    HasExactMention(lines, key);
    ExactLineParses(value, key);
  }

  lemma OtherMentionsAfterSet(text: string, key: string, value: string, other: string)
    requires IsEnvKey(key) && '\n' !in value && other != key
    ensures Mentions(Lines(Replaced(text, key, value)), other) == Mentions(Lines(text), other)
  {
    ReplacedMentions(text, key, value, other);
    EditingLeavesOtherMentions(Lines(text), key, value, other);
    ExactLineParses(value, key);
  }

  lemma ValueAfterSet(text: string, key: string, value: string, k: string)
    requires IsEnvKey(key) && '\n' !in value
    ensures Value(Replaced(text, key, value), k) ==
      if k == key && Settles(text, key) then Some(Cleaned(value)) else Value(text, k)
  {
    if k == key {
      OwnValueAfterSet(text, key, value);
    } else {
      LastMentionWins(Lines(text), k);
      LastMentionWins(Lines(Replaced(text, key, value)), k);
      OtherMentionsAfterSet(text, key, value, k);
    }
  }

  lemma OwnValueAfterSet(text: string, key: string, value: string)
    requires IsEnvKey(key) && '\n' !in value
    ensures Value(Replaced(text, key, value), key) ==
      if Settles(text, key) then Some(Cleaned(value)) else Value(text, key)
  {
    LastMentionWins(Lines(text), key);
    LastMentionWins(Lines(Replaced(text, key, value)), key);
    MentionsAfterSet(text, key, value);
    LastAfterEdit(Mentions(Lines(text), key), value);
  }

  lemma LastAfterEdit(before: seq<Mention>, value: string)
    ensures var after := EditMentions(before, value) +
        if exists m :: m in before && m.exact then [] else [Mention(true, Cleaned(value))];
      && after != []
      && after[|after| - 1].value ==
           if (forall m :: m in before ==> !m.exact) || before[|before| - 1].exact then Cleaned(value)
           else before[|before| - 1].value
  {
    assert before != [] ==> before[|before| - 1] in before;
  }

  lemma SameGetSameMap<V>(a: map<string, V>, b: map<string, V>)
    requires forall k :: Get(a, k) == Get(b, k)
    ensures a == b
  {
    assert forall k :: k in a <==> Get(a, k).Some?;
    assert forall k :: k in b <==> Get(b, k).Some?;
    assert forall k :: k in a ==> Get(a, k) == Some(a[k]);
    assert forall k :: k in b ==> Get(b, k) == Some(b[k]);
  }

  /** Setting a key either maps just that key to the cleaned value, or changes nothing that the
      parser sees, depending on the last line that assigns the key. */
  lemma SetThenParse(text: string, key: string, value: string)
    requires IsEnvKey(key) && '\n' !in value
    ensures ParseEnvFileContent(Replaced(text, key, value)) ==
      if Settles(text, key) then ParseEnvFileContent(text)[key := Cleaned(value)] else ParseEnvFileContent(text)
  {
    var before, after := ParseEnvFileContent(text), ParseEnvFileContent(Replaced(text, key, value));
    var expected := if Settles(text, key) then before[key := Cleaned(value)] else before;
    forall k ensures Get(after, k) == Get(expected, k) {
      ValueAfterSet(text, key, value, k);
    }
    SameGetSameMap(after, expected);
  }

  /** Reading back after setting a key gives the old assignments with only the key changed to the
      value exactly in these cases. */
  lemma SetTakesEffect(text: string, key: string, value: string)
    requires IsEnvKey(key) && '\n' !in value
    ensures ParseEnvFileContent(Replaced(text, key, value)) == ParseEnvFileContent(text)[key := value]
      <==> if Settles(text, key) then IsTrimmed(value) && IsCommentFree(value) else Value(text, key) == Some(value)
  {
    SetThenParse(text, key, value);
    CleanedIsIdentity(value);
    LastMentionWins(Lines(text), key);
    var values := ParseEnvFileContent(text);
    assert values[key := value][key] == value;
    assert values[key := Cleaned(value)][key] == Cleaned(value);
  }

  /** Editing one key does not change whether setting another one takes effect. */
  lemma SetKeepsSettles(text: string, key: string, value: string, other: string)
    requires IsEnvKey(key) && '\n' !in value && other != key
    ensures Settles(Replaced(text, key, value), other) == Settles(text, other)
  {
    OtherMentionsAfterSet(text, key, value, other);
  }

  /** For every key, an indented alias after the last exact line hides every new value. */
  lemma AliasHidesNewValue(key: string, first: string, second: string, value: string)
    requires IsEnvKey(key) && '\n' !in first && '\n' !in second && '\n' !in value
    ensures var text := Terminated([key + "=" + first, [' '] + (key + "=" + second)]);
      && !Settles(text, key)
      && Value(Replaced(text, key, value), key) == Some(Cleaned(second))
  {
    var text := Terminated([key + "=" + first, [' '] + (key + "=" + second)]);
    AliasMentions(key, first, second);
    var ms := Mentions(Lines(text), key);
    assert ms[0] in ms;
    ValueAfterSet(text, key, value, key);
    LastMentionWins(Lines(text), key);
  }

  lemma AliasMentions(key: string, first: string, second: string)
    requires IsEnvKey(key) && '\n' !in first && '\n' !in second
    ensures Mentions(Lines(Terminated([key + "=" + first, [' '] + (key + "=" + second)])), key) ==
      [Mention(true, Cleaned(first)), Mention(false, Cleaned(second))]
  {
    ExactLineMentions(key, first);
    IndentedLineMentions(key, second);
    TwoLineMentions(key + "=" + first, [' '] + (key + "=" + second), key);
  }

  lemma ExactLineMentions(key: string, value: string)
    requires IsEnvKey(key)
    ensures LineMentions(key + "=" + value, key) == [Mention(true, Cleaned(value))]
  {
    ExactLineParses(value, key);
  }

  lemma TwoLineMentions(a: string, b: string, key: string)
    requires '\n' !in a && '\n' !in b
    ensures Mentions(Lines(Terminated([a, b])), key) == LineMentions(a, key) + LineMentions(b, key)
  {
    WritingKeepsMentions([a, b], key);
    MentionsStep(a, [b], key);
    MentionsStep(b, [], key);
    assert [a] + [b] == [a, b] && [b] + [] == [b];
    assert LineMentions(b, key) + [] == LineMentions(b, key);
  }

  lemma IndentedLineMentions(key: string, value: string)
    requires IsEnvKey(key)
    ensures LineMentions([' '] + (key + "=" + value), key) == [Mention(false, Cleaned(value))]
  {
    var plain := key + "=" + value;
    IndentIsTrimmed(plain);
    ExactLineParses(value, key);
    assert ([' '] + plain)[0] != (key + "=")[0];
  }

  lemma IndentIsTrimmed(line: string)
    ensures ParseEnvLine([' '] + line) == ParseEnvLine(line)
  {
    assert ([' '] + line)[1..] == line;
    assert TrimStart([' '] + line) == TrimStart(line);
  }
}
