/** The registry as a state machine: handlers update the shared map and append to the journal in
    two separate steps, other handlers run in between, appends fail or stop half-way, and the
    process restarts from the journal. */
module JournalProtocol {
  import opened Text
  import opened RunnerModel
  import opened JournalReplay

  /** What follows the last complete line of the journal: nothing, or the beginning of a line. The
      beginning decodes as an entry only when all of the line but its line feed is there. */
  datatype Tail = Clean | Torn(whole: Option<Entry>)

  datatype State = State(
    enabled: bool,          // a journal path is configured
    live: Runners,          // the shared map
    lines: seq<Entry>,      // the entries of the complete journal lines
    tail: Tail,
    pending: seq<Entry>,    // entries of handlers that updated the map and did not append yet
    base: seq<Entry>,       // since the last start: the journal it found,
    updates: seq<Entry>,    // the entries of the map updates,
    lost: seq<Entry>)       // and the entries that the journal will never give back

  datatype Action =
    | Register(registration: Registration, clock: Clock, recordedAt: nat)
    | Receive(heartbeat: Heartbeat, clock: Clock, recordedAt: nat)
    | Append(i: nat)
    | Fail(i: nat)
    | Tear(i: nat, whole: bool)
    | Restart(clocks: nat -> Clock)

  function TailEntries(tail: Tail): seq<Entry> {
    if tail.Torn? && tail.whole.Some? then [tail.whole.value] else []
  }

  /** The entries that a replay of the journal applies. */
  function Journal(s: State): seq<Entry> {
    s.lines + TailEntries(s.tail)
  }

  /** A process that starts with a given journal. */
  function Start(enabled: bool, lines: seq<Entry>, tail: Tail, clocks: nat -> Clock): State {
    var entries := if enabled then lines + TailEntries(tail) else [];
    State(enabled, Replay(entries, clocks), if enabled then lines else [], if enabled then tail else Clean,
          [], entries, [], [])
  }

  function RemoveAt(pending: seq<Entry>, i: nat): seq<Entry>
    requires i < |pending|
  {
    pending[..i] + pending[i + 1..]
  }

  function Updated(s: State, live: Runners, entry: Entry): State {
    s.(live := live, pending := s.pending + [entry], updates := s.updates + [entry])
  }

  /** The journal after a write that reaches the end of the file behind a torn line, or that
      leaves less than an entry there: what was torn before is lost, and so is the entry. */
  function Lose(s: State, entry: Entry, tail: Tail): State {
    s.(tail := tail, lost := s.lost + (TailEntries(s.tail) + [entry]))
  }

  /** One step; an action that is not possible changes nothing. */
  function Next(s: State, a: Action): State {
    match a
    case Register(r, clock, recordedAt) =>
      Updated(s, s.live[r.runnerId := NewRecord(r, clock)], Registered(r, recordedAt))
    case Receive(h, clock, recordedAt) =>
      if h.runnerId in s.live then
        Updated(s, s.live[h.runnerId := AfterHeartbeat(s.live[h.runnerId], h, clock)], Beat(h, recordedAt))
      else s
    case Append(i) =>
      if i >= |s.pending| then s
      else
        var rest, e := s.(pending := RemoveAt(s.pending, i)), s.pending[i];
        if !s.enabled then rest.(lost := s.lost + [e])
        else if s.tail.Clean? then rest.(lines := s.lines + [e])
        else Lose(rest, e, Clean)
    case Fail(i) =>
      if i >= |s.pending| then s
      else s.(pending := RemoveAt(s.pending, i), lost := s.lost + [s.pending[i]])
    case Tear(i, whole) =>
      if i >= |s.pending| then s
      else
        var rest, e := s.(pending := RemoveAt(s.pending, i)), s.pending[i];
        if !s.enabled then rest.(lost := s.lost + [e])
        else if s.tail.Clean? && whole then rest.(tail := Torn(Some(e)))
        else Lose(rest, e, Torn(None))
    case Restart(clocks) => Start(s.enabled, s.lines, s.tail, clocks)
  }

  function Run(s: State, actions: seq<Action>): State {
    if actions == [] then s else Next(Run(s, actions[..|actions| - 1]), actions[|actions| - 1])
  }

  // ---------------------------------------------------------------------------------------------
  // Conservation: every entry is journalled, pending or lost
  // ---------------------------------------------------------------------------------------------

  ghost predicate Conserved(s: State) {
    multiset(s.base + s.updates) == multiset(Journal(s)) + multiset(s.pending) + multiset(s.lost)
  }

  lemma RemovedOne(pending: seq<Entry>, i: nat)
    requires i < |pending|
    ensures multiset(pending) == multiset(RemoveAt(pending, i)) + multiset{pending[i]}
  {
    assert pending == pending[..i] + [pending[i]] + pending[i + 1..];
  }

  predicate IsWrite(s: State, a: Action) {
    (a.Append? || a.Fail? || a.Tear?) && a.i < |s.pending|
  }

  /** The write puts its entry at the end of the journal. */
  predicate Lands(s: State, a: Action) {
    IsWrite(s, a) && (a.Append? || (a.Tear? && a.whole)) && s.enabled && s.tail.Clean?
  }

  /** What a write that does not land takes away from the journal. */
  function Swallowed(s: State, a: Action): seq<Entry> {
    if a.Fail? || !s.enabled then [] else TailEntries(s.tail)
  }

  /** A write either moves its pending entry to the journal, or loses it and what it swallows. */
  lemma WriteMoves(s: State, a: Action)
    requires IsWrite(s, a)
    ensures var t, e := Next(s, a), s.pending[a.i];
      && t.base == s.base && t.updates == s.updates && t.pending == RemoveAt(s.pending, a.i)
      && if Lands(s, a) then Journal(t) == Journal(s) + [e] && t.lost == s.lost
         else Journal(s) == Journal(t) + Swallowed(s, a) && t.lost == s.lost + (Swallowed(s, a) + [e])
  {
    assert [] + [s.pending[a.i]] == [s.pending[a.i]];
  }

  lemma WriteConserves(s: State, a: Action)
    requires Conserved(s) && IsWrite(s, a)
    ensures Conserved(Next(s, a))
  {
    var e, swallowed := s.pending[a.i], Swallowed(s, a);
    WriteMoves(s, a);
    RemovedOne(s.pending, a.i);
    assert multiset(swallowed + [e]) == multiset(swallowed) + multiset{e};
  }

  /** Every step keeps it: the journal that the start found and the updates since are, as often as
      they occur, the entries journalled, pending and lost. */
  lemma NextConserves(s: State, a: Action)
    requires Conserved(s)
    ensures Conserved(Next(s, a))
  {
    match a {
      case Register(r, clock, recordedAt) =>
        UpdateConserves(s, s.live[r.runnerId := NewRecord(r, clock)], Registered(r, recordedAt));
      case Receive(h, clock, recordedAt) =>
        if h.runnerId in s.live {
          UpdateConserves(s, s.live[h.runnerId := AfterHeartbeat(s.live[h.runnerId], h, clock)], Beat(h, recordedAt));
        }
      case Restart(clocks) => StartConserves(s.enabled, s.lines, s.tail, clocks);
      case Append(i) => if i < |s.pending| { WriteConserves(s, a); }
      case Fail(i) => if i < |s.pending| { WriteConserves(s, a); }
      case Tear(i, _) => if i < |s.pending| { WriteConserves(s, a); }
    }
  }

  lemma UpdateConserves(s: State, live: Runners, e: Entry)
    requires Conserved(s)
    ensures Conserved(Updated(s, live, e))
  {
    ConcatAssociative(s.base, s.updates, [e]);
  }

  lemma StartConserves(enabled: bool, lines: seq<Entry>, tail: Tail, clocks: nat -> Clock)
    ensures Conserved(Start(enabled, lines, tail, clocks))
  {
    var s := Start(enabled, lines, tail, clocks);
    assert Journal(s) == s.base == s.base + s.updates;
  }

  // ---------------------------------------------------------------------------------------------
  // The live map is what the updates make of the starting journal
  // ---------------------------------------------------------------------------------------------

  ghost predicate LiveIsUpdates(s: State) {
    forall id :: LoadAt(s.live, id) == LoadOfEntries(Project(s.base + s.updates, id))
  }

  lemma StartLive(enabled: bool, lines: seq<Entry>, tail: Tail, clocks: nat -> Clock)
    ensures LiveIsUpdates(Start(enabled, lines, tail, clocks))
  {
    var s := Start(enabled, lines, tail, clocks);
    assert s.base + [] == s.base;
    forall id ensures LoadAt(s.live, id) == LoadOfEntries(Project(s.base + s.updates, id)) {
      ReplayIsLocal(s.base, clocks, id);
    }
  }

  lemma UpdateLive(s: State, live: Runners, e: Entry)
    requires LiveIsUpdates(s)
    requires forall id ::
      LoadAt(live, id) == if id == e.RunnerId() then NextLoad(LoadAt(s.live, id), e) else LoadAt(s.live, id)
    ensures LiveIsUpdates(Updated(s, live, e))
  {
    var history := s.base + s.updates;
    ConcatAssociative(s.base, s.updates, [e]);
    forall id ensures LoadAt(live, id) == LoadOfEntries(Project(history + [e], id)) {
      ProjectAppend(history, e, id);
      var before := Project(history, id);
      assert (before + [e])[..|before|] == before;
      assert before + [] == before;
    }
  }

  lemma NextLive(s: State, a: Action)
    requires LiveIsUpdates(s)
    ensures LiveIsUpdates(Next(s, a))
  {
    match a {
      case Register(r, clock, recordedAt) =>
        UpdateLive(s, s.live[r.runnerId := NewRecord(r, clock)], Registered(r, recordedAt));
      case Receive(h, clock, recordedAt) =>
        if h.runnerId in s.live {
          UpdateLive(s, s.live[h.runnerId := AfterHeartbeat(s.live[h.runnerId], h, clock)], Beat(h, recordedAt));
        }
      case Restart(clocks) => StartLive(s.enabled, s.lines, s.tail, clocks);
      case Append(i) =>
      case Fail(i) =>
      case Tear(i, whole) =>
    }
  }

  // ---------------------------------------------------------------------------------------------
  // Whole runs
  // ---------------------------------------------------------------------------------------------

  /** A registry without a journal path has no journal. */
  predicate HasItsJournal(s: State) {
    s.enabled || (s.lines == [] && s.tail == Clean)
  }

  lemma {:induction false} RunConserves(s: State, actions: seq<Action>)
    requires Conserved(s)
    ensures Conserved(Run(s, actions))
  {
    if actions != [] {
      RunConserves(s, actions[..|actions| - 1]);
      NextConserves(Run(s, actions[..|actions| - 1]), actions[|actions| - 1]);
    }
  }

  lemma {:induction false} RunLive(s: State, actions: seq<Action>)
    requires LiveIsUpdates(s)
    ensures LiveIsUpdates(Run(s, actions))
  {
    if actions != [] {
      RunLive(s, actions[..|actions| - 1]);
      NextLive(Run(s, actions[..|actions| - 1]), actions[|actions| - 1]);
    }
  }

  lemma NextHasItsJournal(s: State, a: Action)
    requires HasItsJournal(s)
    ensures HasItsJournal(Next(s, a))
  {
  }

  lemma {:induction false} RunHasItsJournal(s: State, actions: seq<Action>)
    requires HasItsJournal(s)
    ensures HasItsJournal(Run(s, actions))
  {
    if actions != [] {
      RunHasItsJournal(s, actions[..|actions| - 1]);
      NextHasItsJournal(Run(s, actions[..|actions| - 1]), actions[|actions| - 1]);
    }
  }

  lemma RestartReplays(s: State, clocks: nat -> Clock)
    requires HasItsJournal(s)
    ensures Next(s, Restart(clocks)).live == Replay(Journal(s), clocks)
  {
  }

  /** In every reachable state, under any interleaving of updates, appends, failed or torn appends
      and restarts, every entry found or written since the last start is journalled, pending or
      lost; the live map holds the load that the entries found and written give; and a restart
      replays the journal. */
  lemma Reachable(enabled: bool, lines: seq<Entry>, tail: Tail, clocks: nat -> Clock, actions: seq<Action>)
    ensures var s := Run(Start(enabled, lines, tail, clocks), actions);
      && Conserved(s)
      && LiveIsUpdates(s)
      && forall replayClocks :: Next(s, Restart(replayClocks)).live == Replay(Journal(s), replayClocks)
  {
    StartConserves(enabled, lines, tail, clocks);
    StartLive(enabled, lines, tail, clocks);
    RunConserves(Start(enabled, lines, tail, clocks), actions);
    RunLive(Start(enabled, lines, tail, clocks), actions);
    RunHasItsJournal(Start(enabled, lines, tail, clocks), actions);
    forall replayClocks: nat -> Clock {
      RestartReplays(Run(Start(enabled, lines, tail, clocks), actions), replayClocks);
    }
  }

  // ---------------------------------------------------------------------------------------------
  // The runners that a restart keeps
  // ---------------------------------------------------------------------------------------------

  /** The runner has a registration among the entries. */
  ghost predicate HasId(entries: seq<Entry>, id: string) {
    exists e :: e in entries && e.Registered? && e.RunnerId() == id
  }

  lemma HasIdIsRegistered(entries: seq<Entry>, id: string)
    ensures HasId(entries, id) <==> id in RegisteredIds(entries)
  {
    if e :| e in entries && e.Registered? && e.RunnerId() == id {
      var i :| 0 <= i < |entries| && entries[i] == e;
    }
    if i :| 0 <= i < |entries| && entries[i].Registered? && entries[i].RunnerId() == id {
      assert entries[i] in entries;
    }
  }

  lemma LiveIds(s: State, id: string)
    requires LiveIsUpdates(s)
    ensures id in s.live <==> HasId(s.base + s.updates, id)
  {
    var history, clocks := s.base + s.updates, Steady(Clock(0, 0, 0));
    ReplayIsLocal(history, clocks, id);
    ReplayKeys(history, clocks);
    HasIdIsRegistered(history, id);
    assert LoadAt(s.live, id) == LoadAt(Replay(history, clocks), id);
  }

  lemma ConservedIds(s: State, id: string)
    requires Conserved(s)
    ensures HasId(s.base + s.updates, id) <==> HasId(Journal(s), id) || HasId(s.pending, id) || HasId(s.lost, id)
  {
    forall e ensures e in s.base + s.updates <==> e in Journal(s) || e in s.pending || e in s.lost {
      assert e in multiset(s.base + s.updates) <==> e in s.base + s.updates;
    }
  }

  /** In every reachable state, a live runner is missing from a replay exactly when it has a pending
      or lost registration and none in the journal; a replayed runner is always live. */
  lemma RunnerSurvives(enabled: bool, lines: seq<Entry>, tail: Tail, clocks: nat -> Clock,
                       actions: seq<Action>, replayClocks: nat -> Clock, id: string)
    ensures var s := Run(Start(enabled, lines, tail, clocks), actions);
      && (id in Replay(Journal(s), replayClocks) <==> HasId(Journal(s), id))
      && (id in s.live <==> HasId(Journal(s), id) || HasId(s.pending, id) || HasId(s.lost, id))
  {
    var s := Run(Start(enabled, lines, tail, clocks), actions);
    Reachable(enabled, lines, tail, clocks, actions);
    LiveIds(s, id);
    ConservedIds(s, id);
    ReplayKeys(Journal(s), replayClocks);
    HasIdIsRegistered(Journal(s), id);
  }

  /** No run replays a runner that the live map does not have. */
  lemma ReplayedRunnersAreLive(enabled: bool, lines: seq<Entry>, tail: Tail, clocks: nat -> Clock,
                               actions: seq<Action>, replayClocks: nat -> Clock)
    ensures var s := Run(Start(enabled, lines, tail, clocks), actions);
      Replay(Journal(s), replayClocks).Keys <= s.live.Keys
  {
    forall id {
      RunnerSurvives(enabled, lines, tail, clocks, actions, replayClocks, id);
    }
  }

  /** A restart keeps exactly the visible runners if and only if every runner with a pending or lost
      registration has a registration in the journal; in particular when nothing is pending and
      nothing was lost since the last start. */
  lemma RestartKeepsTheRunners(enabled: bool, lines: seq<Entry>, tail: Tail, clocks: nat -> Clock,
                               actions: seq<Action>, replayClocks: nat -> Clock)
    ensures var s := Run(Start(enabled, lines, tail, clocks), actions);
      && (Next(s, Restart(replayClocks)).live.Keys == s.live.Keys <==>
            forall id :: HasId(s.pending, id) || HasId(s.lost, id) ==> HasId(Journal(s), id))
      && (s.pending == [] && s.lost == [] ==> Next(s, Restart(replayClocks)).live.Keys == s.live.Keys)
  {
    var s := Run(Start(enabled, lines, tail, clocks), actions);
    Reachable(enabled, lines, tail, clocks, actions);
    var replayed := Replay(Journal(s), replayClocks);
    assert Next(s, Restart(replayClocks)).live == replayed;
    forall id ensures
      && (id in replayed.Keys <==> HasId(Journal(s), id))
      && (id in s.live.Keys <==> HasId(Journal(s), id) || HasId(s.pending, id) || HasId(s.lost, id))
    {
      RunnerSurvives(enabled, lines, tail, clocks, actions, replayClocks, id);
    }
  }

  // ---------------------------------------------------------------------------------------------
  // Runs that lose runners
  // ---------------------------------------------------------------------------------------------

  /** One failed append is enough: the runner is visible and a restart forgets it. */
  lemma FailedAppendForgetsTheRunner(r: Registration, clock: Clock, at: nat, clocks: nat -> Clock)
    ensures var s := Run(Start(true, [], Clean, clocks), [Register(r, clock, at), Fail(0)]);
      r.runnerId in s.live && Next(s, Restart(clocks)).live == map[]
  {
    var registered := Next(Start(true, [], Clean, clocks), Register(r, clock, at));
    TwoSteps(Start(true, [], Clean, clocks), Register(r, clock, at), Fail(0));
    assert registered.pending == [Registered(r, at)];
  }

  lemma TwoSteps(s: State, a: Action, b: Action)
    ensures Run(s, [a, b]) == Next(Next(s, a), b)
  {
    assert [a, b][..1] == [a] && [a][..0] == [];
    assert Run(s, [a]) == Next(s, a);
  }

  lemma FourSteps(s: State, a: Action, b: Action, c: Action, d: Action)
    ensures Run(s, [a, b, c, d]) == Next(Next(Next(Next(s, a), b), c), d)
  {
    TwoSteps(s, a, b);
    assert [a, b, c, d][..3] == [a, b, c] && [a, b, c][..2] == [a, b];
    assert Run(s, [a, b, c]) == Next(Next(Next(s, a), b), c);
  }

  /** A torn line swallows the next entry, although its own append succeeds: both runners are
      visible and a restart forgets them, even if only the line feed of the first one is missing. */
  lemma TornLineForgetsTwoRunners(a: Registration, b: Registration, whole: bool, clock: Clock, at: nat,
                                  clocks: nat -> Clock)
    ensures var s := Run(Start(true, [], Clean, clocks),
                         [Register(a, clock, at), Register(b, clock, at), Tear(0, whole), Append(0)]);
      a.runnerId in s.live && b.runnerId in s.live && Next(s, Restart(clocks)).live == map[]
  {
    var s0 := Start(true, [], Clean, clocks);
    var s2 := Next(Next(s0, Register(a, clock, at)), Register(b, clock, at));
    FourSteps(s0, Register(a, clock, at), Register(b, clock, at), Tear(0, whole), Append(0));
    assert s2.pending == [Registered(a, at), Registered(b, at)] && s2.lines == [];
    var s3 := Next(s2, Tear(0, whole));
    assert s3.pending == [Registered(b, at)] && s3.tail.Torn?;
    assert Next(s3, Append(0)).lines == [];
  }
}
