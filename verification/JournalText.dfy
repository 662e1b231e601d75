/** The journal as text: one encoded entry a line. The JSON encoding itself is abstract. */
module JournalText {
  import opened Text
  import opened RunnerModel
  import opened JournalProtocol

  datatype Codec = Codec(encode: Entry -> string, decode: string -> Option<Entry>)

  function Concat(parts: seq<string>): string {
    if parts == [] then "" else Concat(parts[..|parts| - 1]) + parts[|parts| - 1]
  }

  /** A non-empty beginning, perhaps all, of an encoded entry. */
  ghost predicate IsBeginning(c: Codec, part: string) {
    part != "" && exists e :: part <= c.encode(e)
  }

  ghost predicate AreBeginnings(c: Codec, parts: seq<string>) {
    forall i :: 0 <= i < |parts| ==> IsBeginning(c, parts[i])
  }

  /** What the JSON encoding of an entry guarantees: it can be decoded, it has no line break and is
      not blank, none of its proper beginnings decodes, and beginnings that run into each other on
      one line do not decode. */
  ghost predicate IsFaithful(c: Codec) {
    && (forall e {:trigger c.decode(c.encode(e))} :: c.decode(c.encode(e)) == Some(e))
    && (forall e {:trigger '\n' in c.encode(e)} :: '\n' !in c.encode(e))
    && (forall e {:trigger '\r' in c.encode(e)} :: '\r' !in c.encode(e))
    && (forall e {:trigger Trim(c.encode(e))} :: Trim(c.encode(e)) != "")
    && (forall e, part {:trigger c.decode(part), c.encode(e)} :: part < c.encode(e) ==> c.decode(part) == None)
    && (forall parts {:trigger c.decode(Concat(parts))} ::
          |parts| >= 2 && AreBeginnings(c, parts) ==> c.decode(Concat(parts)) == None)
  }

  // ---------------------------------------------------------------------------------------------
  // Reading
  // ---------------------------------------------------------------------------------------------

  function EntryOf(c: Codec, line: string): seq<Entry> {
    if Trim(line) == "" then []
    else
      match c.decode(line)
      case Some(e) => [e]
      case None => []
  }

  function EntriesOf(c: Codec, lines: seq<string>): seq<Entry> {
    if lines == [] then [] else EntriesOf(c, lines[..|lines| - 1]) + EntryOf(c, lines[|lines| - 1])
  }

  /** The entries that a replay of the text applies. */
  function ReadJournal(c: Codec, text: string): seq<Entry> {
    EntriesOf(c, Lines(text))
  }

  lemma {:induction false} EntriesOfConcat(c: Codec, a: seq<string>, b: seq<string>)
    ensures EntriesOf(c, a + b) == EntriesOf(c, a) + EntriesOf(c, b)
  {
    if b == [] {
      assert a + b == a;
    } else {
      var init, last := b[..|b| - 1], b[|b| - 1];
      EntriesOfConcat(c, a, init);
      assert (a + b)[..|a + b| - 1] == a + init;
      ConcatAssociative(EntriesOf(c, a), EntriesOf(c, init), EntryOf(c, last));
    }
  }

  /** Reading distributes over a complete text and what follows it. */
  lemma ReadConcat(c: Codec, a: string, b: string)
    requires IsComplete(a)
    ensures ReadJournal(c, a + b) == ReadJournal(c, a) + ReadJournal(c, b)
  {
    LinesConcat(a, b);
    EntriesOfConcat(c, Lines(a), Lines(b));
  }

  lemma ReadLine(c: Codec, line: string)
    requires '\n' !in line
    ensures ReadJournal(c, line + "\n") == EntryOf(c, StripCarriageReturn(line))
    ensures ReadJournal(c, line) == if line == "" then [] else EntryOf(c, line)
  {
    LinesStep(line, "");
    assert line + "\n" + "" == line + "\n";
    assert Lines(line + "\n") == [StripCarriageReturn(line)] + [] == [StripCarriageReturn(line)];
    OneLine(c, StripCarriageReturn(line));
    if line != "" {
      assert line[..|line|] == line;
      assert Lines(line) == [line];
      OneLine(c, line);
    }
  }

  lemma OneLine(c: Codec, line: string)
    ensures EntriesOf(c, [line]) == EntryOf(c, line)
  {
    assert [line][..0] == [];
    assert [] + EntryOf(c, line) == EntryOf(c, line);
  }

  // ---------------------------------------------------------------------------------------------
  // Round trip
  // ---------------------------------------------------------------------------------------------

  function Written(c: Codec, entries: seq<Entry>): string {
    if entries == [] then "" else c.encode(entries[0]) + "\n" + Written(c, entries[1..])
  }

  lemma ReadEncodedLine(c: Codec, e: Entry)
    requires IsFaithful(c)
    ensures ReadJournal(c, c.encode(e) + "\n") == [e]
    ensures ReadJournal(c, c.encode(e)) == [e]
  {
    ReadLine(c, c.encode(e));
    var line := c.encode(e);
    assert line != "" ==> line[|line| - 1] in line;
  }

  /** Reading written entries gives them back. */
  lemma {:induction false} RoundTrip(c: Codec, entries: seq<Entry>)
    requires IsFaithful(c)
    ensures ReadJournal(c, Written(c, entries)) == entries
  {
    if entries != [] {
      RoundTrip(c, entries[1..]);
      ReadEncodedLine(c, entries[0]);
      ReadConcat(c, c.encode(entries[0]) + "\n", Written(c, entries[1..]));
    }
  }

  /** Lines that a replay skips: blank ones and ones that do not decode. */
  ghost predicate AreJunk(c: Codec, lines: seq<string>) {
    forall i :: 0 <= i < |lines| ==>
      var line := StripCarriageReturn(lines[i]);
      '\n' !in lines[i] && (Trim(line) == "" || c.decode(line) == None)
  }

  lemma {:induction false} JunkReadsAsNothing(c: Codec, junk: seq<string>)
    requires AreJunk(c, junk)
    ensures ReadJournal(c, Terminated(junk)) == []
  {
    if junk != [] {
      JunkReadsAsNothing(c, junk[1..]);
      ReadLine(c, junk[0]);
      ReadConcat(c, junk[0] + "\n", Terminated(junk[1..]));
    }
  }

  /** Skipped lines inserted between any two lines change nothing. */
  lemma JunkIsSkipped(c: Codec, before: string, junk: seq<string>, after: string)
    requires IsComplete(before) && AreJunk(c, junk)
    ensures ReadJournal(c, before + (Terminated(junk) + after)) == ReadJournal(c, before + after)
  {
    JunkReadsAsNothing(c, junk);
    TerminatedIsComplete(junk);
    ReadConcat(c, Terminated(junk), after);
    ReadConcat(c, before, Terminated(junk) + after);
    ReadConcat(c, before, after);
  }

  /** How many entries are complete, with or without their line feed, in the first `n` characters
      of their text. */
  function CompleteEntries(c: Codec, entries: seq<Entry>, n: nat): nat {
    if entries == [] || n < |c.encode(entries[0])| then 0
    else if n == |c.encode(entries[0])| then 1
    else 1 + CompleteEntries(c, entries[1..], n - |c.encode(entries[0])| - 1)
  }

  /** What the cut needs of reading: it takes a complete line as its entry and goes on behind it,
      and takes a beginning of a line as nothing, unless only the line feed is missing. */
  ghost predicate TakesLines(c: Codec, read: string -> seq<Entry>) {
    && read("") == []
    && (forall e, rest :: read(c.encode(e) + "\n" + rest) == [e] + read(rest))
    && (forall e, k: nat :: k <= |c.encode(e)| ==>
          read(c.encode(e)[..k]) == if k == |c.encode(e)| then [e] else [])
  }

  lemma {:induction false} CutTakesPrefix(c: Codec, read: string -> seq<Entry>, entries: seq<Entry>, n: nat)
    requires TakesLines(c, read) && n <= |Written(c, entries)|
    ensures CompleteEntries(c, entries, n) <= |entries|
    ensures read(Written(c, entries)[..n]) == entries[..CompleteEntries(c, entries, n)]
  {
    if entries == [] {
      assert Written(c, entries)[..n] == "";
    } else {
      var code, rest := c.encode(entries[0]), Written(c, entries[1..]);
      if n <= |code| {
        assert (code + "\n" + rest)[..n] == code[..n];
        assert entries[..1] == [entries[0]];
      } else {
        var m := n - |code| - 1;
        CutTakesPrefix(c, read, entries[1..], m);
        assert (code + "\n" + rest)[..n] == code + "\n" + rest[..m];
        FirstAndMore(entries, CompleteEntries(c, entries[1..], m));
      }
    }
  }

  lemma FirstAndMore(entries: seq<Entry>, n: nat)
    requires n < |entries|
    ensures [entries[0]] + entries[1..][..n] == entries[..n + 1]
  {
  }

  lemma ReadingTakesLines(c: Codec)
    requires IsFaithful(c)
    ensures TakesLines(c, text => ReadJournal(c, text))
  {
    assert ReadJournal(c, "") == [];
    forall e, rest ensures ReadJournal(c, c.encode(e) + "\n" + rest) == [e] + ReadJournal(c, rest) {
      ReadEncodedLine(c, e);
      ReadConcat(c, c.encode(e) + "\n", rest);
    }
    forall e, k: nat | k <= |c.encode(e)|
      ensures ReadJournal(c, c.encode(e)[..k]) == if k == |c.encode(e)| then [e] else []
    {
      CutCode(c, e, k);
    }
  }

  /** Cutting the text anywhere reads back the entries that are complete before the cut. */
  lemma CutReadsPrefix(c: Codec, entries: seq<Entry>, n: nat)
    requires IsFaithful(c) && n <= |Written(c, entries)|
    ensures CompleteEntries(c, entries, n) <= |entries|
    ensures ReadJournal(c, Written(c, entries)[..n]) == entries[..CompleteEntries(c, entries, n)]
  {
    ReadingTakesLines(c);
    CutTakesPrefix(c, text => ReadJournal(c, text), entries, n);
  }

  lemma CutCode(c: Codec, e: Entry, n: nat)
    requires IsFaithful(c) && n <= |c.encode(e)|
    ensures ReadJournal(c, c.encode(e)[..n]) == if n == |c.encode(e)| then [e] else []
  {
    var code := c.encode(e);
    if n == |code| {
      assert code[..n] == code;
      ReadEncodedLine(c, e);
    } else {
      assert code[..n] < code;
      BeginningIsOneLine(c, e, n);
      ReadLine(c, code[..n]);
    }
  }

  lemma BeginningIsOneLine(c: Codec, e: Entry, n: nat)
    requires IsFaithful(c) && n <= |c.encode(e)|
    ensures '\n' !in c.encode(e)[..n]
  {
    assert forall x :: x in c.encode(e)[..n] ==> x in c.encode(e);
  }

  // ---------------------------------------------------------------------------------------------
  // Writing: the file refines the journal of the protocol
  // ---------------------------------------------------------------------------------------------

  /** The text of a journal file stands for complete lines with these entries and this tail. */
  ghost predicate Represents(c: Codec, body: string, parts: seq<string>, lines: seq<Entry>, tail: Tail) {
    && IsComplete(body)
    && ReadJournal(c, body) == lines
    && AreBeginnings(c, parts)
    && (tail.Clean? <==> parts == [])
    && (tail.Torn? ==> tail.whole == if |parts| == 1 then c.decode(parts[0]) else None)
  }

  lemma {:induction false} BeginningsAreOneLine(c: Codec, parts: seq<string>)
    requires IsFaithful(c) && AreBeginnings(c, parts)
    ensures '\n' !in Concat(parts)
    ensures Concat(parts) == "" <==> parts == []
  {
    if parts != [] {
      var last := parts[|parts| - 1];
      BeginningsAreOneLine(c, parts[..|parts| - 1]);
      var e :| last <= c.encode(e);
      assert forall x :: x in last ==> x in c.encode(e);
    }
  }

  lemma BeginningDecodes(c: Codec, part: string)
    requires IsFaithful(c) && IsBeginning(c, part)
    ensures EntryOf(c, part) == match c.decode(part) case Some(e) => [e] case None => []
    ensures part[|part| - 1] != '\r'
  {
    var e :| part <= c.encode(e);
    if part != c.encode(e) {
      assert part < c.encode(e);
    }
    assert part[|part| - 1] in c.encode(e);
  }

  /** What a replay of the file applies is what the protocol says the journal is. */
  lemma ReplayOfFile(c: Codec, body: string, parts: seq<string>, lines: seq<Entry>, tail: Tail)
    requires IsFaithful(c) && Represents(c, body, parts, lines, tail)
    ensures ReadJournal(c, body + Concat(parts)) == lines + TailEntries(tail)
  {
    BeginningsAreOneLine(c, parts);
    ReadConcat(c, body, Concat(parts));
    ReadLine(c, Concat(parts));
    if |parts| == 1 {
      assert Concat(parts) == parts[0] by {
        assert parts[..0] == [];
        assert "" + parts[0] == parts[0];
      }
      BeginningDecodes(c, parts[0]);
    } else if |parts| >= 2 {
      assert c.decode(Concat(parts)) == None;
    }
  }

  /** A write that stops after `n` characters of an encoded line, but not before the first one,
      tears the journal; the entry counts only if all of it is there and nothing torn was before
      it. */
  lemma TornWrite(c: Codec, body: string, parts: seq<string>, lines: seq<Entry>, tail: Tail, e: Entry, n: nat)
    requires IsFaithful(c) && Represents(c, body, parts, lines, tail) && 0 < n <= |c.encode(e)|
    ensures var part := c.encode(e)[..n];
      && Concat(parts + [part]) == Concat(parts) + (c.encode(e) + "\n")[..n]
      && Represents(c, body, parts + [part], lines, Torn(if n == |c.encode(e)| && tail.Clean? then Some(e) else None))
  {
    var code, part := c.encode(e), c.encode(e)[..n];
    assert (parts + [part])[..|parts|] == parts;
    assert (code + "\n")[..n] == part;
    assert IsBeginning(c, part) by {
      assert part <= c.encode(e);
    }
    if n == |code| {
      assert part == code;
    } else {
      assert part < code;
    }
  }

  /** A complete line behind torn ones reads as nothing, one by itself as its entry. */
  lemma GluedLine(c: Codec, parts: seq<string>, e: Entry)
    requires IsFaithful(c) && AreBeginnings(c, parts)
    ensures '\n' !in Concat(parts) + c.encode(e)
    ensures ReadJournal(c, Concat(parts) + c.encode(e) + "\n") == if parts == [] then [e] else []
  {
    var code, all := c.encode(e), parts + [c.encode(e)];
    assert all[..|parts|] == parts;
    assert Trim(code) != "";
    assert IsBeginning(c, code) by {
      assert code <= c.encode(e);
    }
    BeginningsAreOneLine(c, all);
    BeginningDecodes(c, code);
    ReadLine(c, Concat(all));
    if parts == [] {
      assert Concat(all) == code;
      ReadEncodedLine(c, e);
    } else {
      assert c.decode(Concat(all)) == None;
    }
  }

  /** A complete write adds its entry after a clean end, and is lost after a torn one: it runs into
      the torn text, and the line feed it brings ends a line that does not decode. */
  lemma CompleteWrite(c: Codec, body: string, parts: seq<string>, lines: seq<Entry>, tail: Tail, e: Entry)
    requires IsFaithful(c) && Represents(c, body, parts, lines, tail)
    ensures var body' := body + (Concat(parts) + c.encode(e) + "\n");
      Represents(c, body', [], if tail.Clean? then lines + [e] else lines, Clean)
  {
    GluedLine(c, parts, e);
    ReadConcat(c, body, Concat(parts) + c.encode(e) + "\n");
    assert lines + [] == lines;
  }
}
