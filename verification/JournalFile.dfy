/** The journal file over whole runs: writes that get through some of their characters, and starts
    that read the text back, follow the protocol. */
module JournalFile {
  import opened Text
  import opened RunnerModel
  import opened JournalReplay
  import opened JournalProtocol
  import opened JournalAgreement
  import opened JournalText

  // ---------------------------------------------------------------------------------------------
  // One write
  // ---------------------------------------------------------------------------------------------

  /** The protocol step of an append that gets through `written` characters. */
  function AppendOutcome(c: Codec, entry: Entry, written: nat, enabled: bool, i: nat): Action {
    if !enabled || written == |c.encode(entry)| + 1 then Append(i)
    else if written == 0 then Fail(i)
    else Tear(i, written == |c.encode(entry)|)
  }

  /** The text of the journal file after the append. */
  function Journalled(c: Codec, text: string, entry: Entry, written: nat, enabled: bool): string
    requires written <= |c.encode(entry)| + 1
  {
    if enabled then text + (c.encode(entry) + "\n")[..written] else text
  }

  /** The file after the append stands for the protocol state after the outcome. */
  lemma WriteRefines(c: Codec, s: State, i: nat, written: nat, body: string, parts: seq<string>)
    returns (body': string, parts': seq<string>)
    requires IsFaithful(c) && i < |s.pending| && written <= |c.encode(s.pending[i])| + 1
    requires Represents(c, body, parts, s.lines, s.tail)
    ensures var t := Next(s, AppendOutcome(c, s.pending[i], written, s.enabled, i));
      Represents(c, body', parts', t.lines, t.tail)
    ensures Journalled(c, body + Concat(parts), s.pending[i], written, s.enabled) == body' + Concat(parts')
  {
    var code := c.encode(s.pending[i]);
    if s.enabled && written == |code| + 1 {
      body', parts' := body + (Concat(parts) + code + "\n"), [];
      CompleteRefines(c, s, i, body, parts);
    } else if s.enabled && written > 0 {
      body', parts' := body, parts + [code[..written]];
      TornRefines(c, s, i, written, body, parts);
    } else {
      body', parts' := body, parts;
      assert (code + "\n")[..0] == "";
      assert body + Concat(parts) + "" == body + Concat(parts);
    }
  }

  lemma CompleteRefines(c: Codec, s: State, i: nat, body: string, parts: seq<string>)
    requires IsFaithful(c) && i < |s.pending| && s.enabled
    requires Represents(c, body, parts, s.lines, s.tail)
    ensures var code, t := c.encode(s.pending[i]), Next(s, Append(i));
      var body' := body + (Concat(parts) + code + "\n");
      && Represents(c, body', [], t.lines, t.tail)
      && Journalled(c, body + Concat(parts), s.pending[i], |code| + 1, true) == body' + Concat([])
  {
    CompleteWrite(c, body, parts, s.lines, s.tail, s.pending[i]);
    CompleteText(body, Concat(parts), c.encode(s.pending[i]));
  }

  lemma CompleteText(body: string, torn: string, code: string)
    ensures body + torn + (code + "\n")[..|code| + 1] == body + (torn + code + "\n") + ""
  {
  }

  lemma TornRefines(c: Codec, s: State, i: nat, n: nat, body: string, parts: seq<string>)
    requires IsFaithful(c) && i < |s.pending| && s.enabled && 0 < n <= |c.encode(s.pending[i])|
    requires Represents(c, body, parts, s.lines, s.tail)
    ensures var code, t := c.encode(s.pending[i]), Next(s, Tear(i, n == |c.encode(s.pending[i])|));
      var parts' := parts + [code[..n]];
      && Represents(c, body, parts', t.lines, t.tail)
      && Journalled(c, body + Concat(parts), s.pending[i], n, true) == body + Concat(parts')
  {
    TornWrite(c, body, parts, s.lines, s.tail, s.pending[i], n);
    TornText(body, Concat(parts), (c.encode(s.pending[i]) + "\n")[..n], Concat(parts + [c.encode(s.pending[i])[..n]]));
  }

  lemma TornText(body: string, torn: string, part: string, all: string)
    requires all == torn + part
    ensures body + torn + part == body + all
  {
    ConcatAssociative(body, torn, part);
  }

  /** A start from the file gives the map of the protocol's start. */
  lemma StartRefines(c: Codec, enabled: bool, body: string, parts: seq<string>, lines: seq<Entry>, tail: Tail,
                     clocks: nat -> Clock)
    requires IsFaithful(c) && Represents(c, body, parts, lines, tail)
    ensures Replay(if enabled then ReadJournal(c, body + Concat(parts)) else [], clocks) ==
      Start(enabled, lines, tail, clocks).live
  {
    ReplayOfFile(c, body, parts, lines, tail);
  }

  // ---------------------------------------------------------------------------------------------
  // The registry with its file
  // ---------------------------------------------------------------------------------------------

  datatype FileState = FileState(enabled: bool, live: Runners, pending: seq<Entry>, text: string)

  datatype FileAction =
    | RegisterRunner(registration: Registration, clock: Clock, recordedAt: nat)
    | TakeHeartbeat(heartbeat: Heartbeat, clock: Clock, recordedAt: nat)
    | Write(i: nat, written: nat)
    | Reopen(clocks: nat -> Clock)

  /** A process that starts with a given file. */
  function Open(c: Codec, enabled: bool, text: string, clocks: nat -> Clock): FileState {
    FileState(enabled, Replay(if enabled then ReadJournal(c, text) else [], clocks), [], text)
  }

  /** A write cannot get through more than the line. */
  function Reached(c: Codec, entry: Entry, written: nat): nat {
    if written > |c.encode(entry)| + 1 then |c.encode(entry)| + 1 else written
  }

  function FileNext(c: Codec, f: FileState, a: FileAction): FileState {
    match a
    case RegisterRunner(r, clock, recordedAt) =>
      f.(live := f.live[r.runnerId := NewRecord(r, clock)], pending := f.pending + [Registered(r, recordedAt)])
    case TakeHeartbeat(h, clock, recordedAt) =>
      if h.runnerId in f.live then
        f.(live := f.live[h.runnerId := AfterHeartbeat(f.live[h.runnerId], h, clock)],
           pending := f.pending + [Beat(h, recordedAt)])
      else f
    case Write(i, written) =>
      if i >= |f.pending| then f
      else
        f.(pending := RemoveAt(f.pending, i),
           text := Journalled(c, f.text, f.pending[i], Reached(c, f.pending[i], written), f.enabled))
    case Reopen(clocks) => Open(c, f.enabled, f.text, clocks)
  }

  function FileRun(c: Codec, f: FileState, actions: seq<FileAction>): FileState {
    if actions == [] then f else FileNext(c, FileRun(c, f, actions[..|actions| - 1]), actions[|actions| - 1])
  }

  // ---------------------------------------------------------------------------------------------
  // It follows the protocol
  // ---------------------------------------------------------------------------------------------

  /** The protocol step of a step with the file. */
  function Step(c: Codec, f: FileState, a: FileAction): Action {
    match a
    case RegisterRunner(r, clock, recordedAt) => Register(r, clock, recordedAt)
    case TakeHeartbeat(h, clock, recordedAt) => Receive(h, clock, recordedAt)
    case Write(i, written) =>
      if i >= |f.pending| then Fail(i)
      else AppendOutcome(c, f.pending[i], Reached(c, f.pending[i], written), f.enabled, i)
    case Reopen(clocks) => Restart(clocks)
  }

  function Steps(c: Codec, f: FileState, actions: seq<FileAction>): seq<Action> {
    if actions == [] then []
    else
      var init := actions[..|actions| - 1];
      Steps(c, f, init) + [Step(c, FileRun(c, f, init), actions[|actions| - 1])]
  }

  ghost predicate StandsFor(c: Codec, text: string, lines: seq<Entry>, tail: Tail) {
    exists body, parts :: Represents(c, body, parts, lines, tail) && text == body + Concat(parts)
  }

  /** The file's registry is in the protocol's state; a file that is not in use may hold anything. */
  ghost predicate Follows(c: Codec, f: FileState, s: State) {
    && f.enabled == s.enabled && f.live == s.live && f.pending == s.pending
    && (f.enabled ==> StandsFor(c, f.text, s.lines, s.tail))
  }

  lemma WriteFollows(c: Codec, f: FileState, s: State, i: nat, written: nat)
    requires IsFaithful(c) && Follows(c, f, s) && i < |f.pending|
    ensures Follows(c, FileNext(c, f, Write(i, written)), Next(s, Step(c, f, Write(i, written))))
  {
    var n := Reached(c, f.pending[i], written);
    OutcomeKeepsLive(s, i, AppendOutcome(c, f.pending[i], n, f.enabled, i));
    if f.enabled {
      TextFollows(c, f.text, s, i, n);
    }
  }

  lemma OutcomeKeepsLive(s: State, i: nat, a: Action)
    requires IsWrite(s, a) && a.i == i
    ensures var t := Next(s, a);
      t.enabled == s.enabled && t.live == s.live && t.pending == RemoveAt(s.pending, i)
  {
  }

  lemma TextFollows(c: Codec, text: string, s: State, i: nat, n: nat)
    requires IsFaithful(c) && s.enabled && i < |s.pending| && n <= |c.encode(s.pending[i])| + 1
    requires StandsFor(c, text, s.lines, s.tail)
    ensures var t := Next(s, AppendOutcome(c, s.pending[i], n, true, i));
      StandsFor(c, Journalled(c, text, s.pending[i], n, true), t.lines, t.tail)
  {
    var body, parts :| Represents(c, body, parts, s.lines, s.tail) && text == body + Concat(parts);
    var body', parts' := WriteRefines(c, s, i, n, body, parts);
  }

  lemma StartFollows(c: Codec, enabled: bool, text: string, lines: seq<Entry>, tail: Tail, clocks: nat -> Clock)
    requires IsFaithful(c) && (enabled ==> StandsFor(c, text, lines, tail))
    ensures Follows(c, Open(c, enabled, text, clocks), Start(enabled, lines, tail, clocks))
  {
    if enabled {
      var body, parts :| Represents(c, body, parts, lines, tail) && text == body + Concat(parts);
      StartRefines(c, enabled, body, parts, lines, tail, clocks);
    }
  }

  lemma NextFollows(c: Codec, f: FileState, s: State, a: FileAction)
    requires IsFaithful(c) && Follows(c, f, s)
    ensures Follows(c, FileNext(c, f, a), Next(s, Step(c, f, a)))
  {
    match a {
      case RegisterRunner(_, _, _) =>
      case TakeHeartbeat(_, _, _) =>
      case Write(i, written) => if i < |f.pending| { WriteFollows(c, f, s, i, written); }
      case Reopen(clocks) => StartFollows(c, f.enabled, f.text, s.lines, s.tail, clocks);
    }
  }

  /** Every run with the file is a run of the protocol. */
  lemma {:induction false} FileRunFollows(c: Codec, f: FileState, s: State, actions: seq<FileAction>)
    requires IsFaithful(c) && Follows(c, f, s)
    ensures Follows(c, FileRun(c, f, actions), Run(s, Steps(c, f, actions)))
  {
    if actions != [] {
      var init, a := actions[..|actions| - 1], actions[|actions| - 1];
      FileRunFollows(c, f, s, init);
      NextFollows(c, FileRun(c, f, init), Run(s, Steps(c, f, init)), a);
      RunAppend(s, Steps(c, f, init), Step(c, FileRun(c, f, init), a));
    }
  }

  lemma RunAppend(s: State, actions: seq<Action>, a: Action)
    ensures Run(s, actions + [a]) == Next(Run(s, actions), a)
  {
    assert (actions + [a])[..|actions|] == actions;
  }

  // ---------------------------------------------------------------------------------------------
  // What the file gives back
  // ---------------------------------------------------------------------------------------------

  /** After every run from a file that stands for a journal, the file's text reads as the protocol's
      journal. */
  lemma FileReadsAsJournal(c: Codec, text: string, lines: seq<Entry>, tail: Tail, clocks: nat -> Clock,
                           actions: seq<FileAction>)
    requires IsFaithful(c) && StandsFor(c, text, lines, tail)
    ensures var f0 := Open(c, true, text, clocks);
      var f, s := FileRun(c, f0, actions), Run(Start(true, lines, tail, clocks), Steps(c, f0, actions));
      f.live == s.live && f.pending == s.pending && ReadJournal(c, f.text) == Journal(s)
  {
    var f0, s0 := Open(c, true, text, clocks), Start(true, lines, tail, clocks);
    StartFollows(c, true, text, lines, tail, clocks);
    FileRunFollows(c, f0, s0, actions);
    StaysEnabled(c, f0, actions);
    var f, s := FileRun(c, f0, actions), Run(s0, Steps(c, f0, actions));
    var body, parts :| Represents(c, body, parts, s.lines, s.tail) && f.text == body + Concat(parts);
    ReplayOfFile(c, body, parts, s.lines, s.tail);
  }

  lemma {:induction false} StaysEnabled(c: Codec, f: FileState, actions: seq<FileAction>)
    ensures FileRun(c, f, actions).enabled == f.enabled
  {
    if actions != [] {
      StaysEnabled(c, f, actions[..|actions| - 1]);
    }
  }

  /** Whatever was written, and however often the registry was started from the file, the text gives
      back runners of the live map only, and after the last start all but those with a pending or
      lost registration and none in the text. */
  lemma FileKeepsTheRunners(c: Codec, text: string, lines: seq<Entry>, tail: Tail, clocks: nat -> Clock,
                            actions: seq<FileAction>, replayClocks: nat -> Clock, id: string)
    requires IsFaithful(c) && StandsFor(c, text, lines, tail)
    ensures var f0 := Open(c, true, text, clocks);
      var f, s := FileRun(c, f0, actions), Run(Start(true, lines, tail, clocks), Steps(c, f0, actions));
      var read := ReadJournal(c, f.text);
      && (id in Replay(read, replayClocks) ==> id in f.live)
      && (id in f.live && id !in Replay(read, replayClocks) <==>
            (HasId(f.pending, id) || HasId(s.lost, id)) && !HasId(read, id))
  {
    var f0 := Open(c, true, text, clocks);
    FileReadsAsJournal(c, text, lines, tail, clocks, actions);
    RunnerSurvives(true, lines, tail, clocks, Steps(c, f0, actions), replayClocks, id);
  }

  /** If the runner's entries reach the file in the order of its updates, and it has none pending and
      lost none, the text gives back its live load. */
  lemma FileKeepsTheLoad(c: Codec, text: string, lines: seq<Entry>, tail: Tail, clocks: nat -> Clock,
                         actions: seq<FileAction>, replayClocks: nat -> Clock, id: string)
    requires IsFaithful(c) && StandsFor(c, text, lines, tail)
    requires RunKeepsOrder(Start(true, lines, tail, clocks), Steps(c, Open(c, true, text, clocks), actions), id)
    ensures var f0 := Open(c, true, text, clocks);
      var f, s := FileRun(c, f0, actions), Run(Start(true, lines, tail, clocks), Steps(c, f0, actions));
      Project(f.pending, id) == [] && Project(s.lost, id) == [] ==>
        LoadAt(Replay(ReadJournal(c, f.text), replayClocks), id) == LoadAt(f.live, id)
  {
    FileReadsAsJournal(c, text, lines, tail, clocks, actions);
    OrderedAppendsAgree(true, lines, tail, clocks, Steps(c, Open(c, true, text, clocks), actions), id, replayClocks);
  }

  /** Every complete text stands for the journal that it reads as: a run can start from any of them,
      the empty one included. */
  lemma CompleteTextStandsForItself(c: Codec, text: string)
    requires IsComplete(text)
    ensures StandsFor(c, text, ReadJournal(c, text), Clean)
  {
    assert Represents(c, text, [], ReadJournal(c, text), Clean);
    assert text == text + Concat([]);
  }
}
