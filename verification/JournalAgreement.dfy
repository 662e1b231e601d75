/** When the replayed loads agree with the live ones: the appends of each runner have to land in
    the order of its map updates; different runners may interleave freely. */
module JournalAgreement {
  import opened Text
  import opened RunnerModel
  import opened JournalReplay
  import opened JournalProtocol

  // ---------------------------------------------------------------------------------------------
  // The live load
  // ---------------------------------------------------------------------------------------------

  /** In every reachable state, a runner's live load is that of the digest of its updates. */
  lemma LiveLoadIsDigest(enabled: bool, lines: seq<Entry>, tail: Tail, clocks: nat -> Clock,
                         actions: seq<Action>, id: string)
    ensures var s := Run(Start(enabled, lines, tail, clocks), actions);
      LoadAt(s.live, id) == DigestLoad(Digest(Project(s.base + s.updates, id)))
  {
    Reachable(enabled, lines, tail, clocks, actions);
    var s := Run(Start(enabled, lines, tail, clocks), actions);
    LoadIsDigestLoad(Project(s.base + s.updates, id));
  }

  /** Whatever the order and the losses, replay agrees with the live map on a runner exactly when
      the last journalled and the last updated registration are the same and the last entries carry
      the same numbers, a registration standing for an idle runner. */
  lemma AgreementIff(enabled: bool, lines: seq<Entry>, tail: Tail, clocks: nat -> Clock,
                     actions: seq<Action>, id: string, replayClocks: nat -> Clock)
    ensures var s := Run(Start(enabled, lines, tail, clocks), actions);
      var journal, updates := Journal(s), s.base + s.updates;
      var agrees := LoadAt(Replay(journal, replayClocks), id) == LoadAt(s.live, id);
      && (agrees <==>
            && LastRegistration(journal, id) == LastRegistration(updates, id)
            && (LastRegistration(journal, id).Some? ==> LastNumbers(journal, id) == LastNumbers(updates, id)))
      && (agrees <==> DigestLoad(Digest(Project(journal, id))) == DigestLoad(Digest(Project(updates, id))))
  {
    var s := Run(Start(enabled, lines, tail, clocks), actions);
    Reachable(enabled, lines, tail, clocks, actions);
    ReplayIsDigest(Journal(s), replayClocks, id);
    LiveLoadIsDigest(enabled, lines, tail, clocks, actions, id);
    ReplayIsLocal(Journal(s), replayClocks, id);
    LoadIsLatest(Journal(s), id);
    LoadIsLatest(s.base + s.updates, id);
  }

  // ---------------------------------------------------------------------------------------------
  // Appends in order for one runner
  // ---------------------------------------------------------------------------------------------

  /** An entry of the runner that lands is its oldest pending one. */
  predicate KeepsOrder(s: State, a: Action, id: string) {
    Lands(s, a) && s.pending[a.i].RunnerId() == id ==>
      forall j :: 0 <= j < a.i ==> s.pending[j].RunnerId() != id
  }

  predicate RunKeepsOrder(s: State, actions: seq<Action>, id: string) {
    actions == [] ||
    (RunKeepsOrder(s, actions[..|actions| - 1], id) &&
     KeepsOrder(Run(s, actions[..|actions| - 1]), actions[|actions| - 1], id))
  }

  /** As long as the runner lost nothing, its journalled and pending entries are its updates. */
  ghost predicate InStep(s: State, id: string) {
    Project(s.lost, id) == [] ==> Project(Journal(s) + s.pending, id) == Project(s.base + s.updates, id)
  }

  lemma {:induction false} ProjectNone(entries: seq<Entry>, id: string)
    requires forall j :: 0 <= j < |entries| ==> entries[j].RunnerId() != id
    ensures Project(entries, id) == []
  {
    if entries != [] {
      ProjectNone(entries[..|entries| - 1], id);
    }
  }

  /** Appending the oldest pending entry of a runner, or an entry of another one, keeps the
      runner's sequence of journalled and pending entries. */
  lemma AppendKeepsSequence(appended: seq<Entry>, pending: seq<Entry>, i: nat, id: string)
    requires i < |pending|
    requires pending[i].RunnerId() == id ==> forall j :: 0 <= j < i ==> pending[j].RunnerId() != id
    ensures Project((appended + [pending[i]]) + RemoveAt(pending, i), id) == Project(appended + pending, id)
  {
    var e := pending[i];
    RemoveProjection(pending, i, id);
    ProjectConcat(appended, pending, id);
    ProjectConcat(appended + [e], RemoveAt(pending, i), id);
    ProjectAppend(appended, e, id);
    ConcatAssociative(Project(appended, id), if e.RunnerId() == id then [e] else [], Project(RemoveAt(pending, i), id));
  }

  lemma RemoveProjection(pending: seq<Entry>, i: nat, id: string)
    requires i < |pending|
    requires pending[i].RunnerId() == id ==> forall j :: 0 <= j < i ==> pending[j].RunnerId() != id
    ensures Project(pending, id) ==
      (if pending[i].RunnerId() == id then [pending[i]] else []) + Project(RemoveAt(pending, i), id)
  {
    var e, head, tail := pending[i], pending[..i], pending[i + 1..];
    assert pending == (head + [e]) + tail;
    ProjectConcat(head + [e], tail, id);
    ProjectAppend(head, e, id);
    ProjectConcat(head, tail, id);
    var own := if e.RunnerId() == id then [e] else [];
    if e.RunnerId() == id {
      ProjectNone(head, id);
    }
    assert Project(head, id) + own == own + Project(head, id);
    ConcatAssociative(own, Project(head, id), Project(tail, id));
  }

  lemma UpdateInStep(s: State, live: Runners, e: Entry, id: string)
    requires InStep(s, id)
    ensures InStep(Updated(s, live, e), id)
  {
    ConcatAssociative(Journal(s), s.pending, [e]);
    ConcatAssociative(s.base, s.updates, [e]);
    ProjectAppend(Journal(s) + s.pending, e, id);
    ProjectAppend(s.base + s.updates, e, id);
  }

  /** An entry of another runner that is lost, with entries of others that it swallows, leaves the
      runner's sequence alone. */
  lemma LossKeepsSequence(journal: seq<Entry>, swallowed: seq<Entry>, pending: seq<Entry>, i: nat, id: string)
    requires i < |pending| && pending[i].RunnerId() != id && Project(swallowed, id) == []
    ensures Project(journal + RemoveAt(pending, i), id) == Project((journal + swallowed) + pending, id)
  {
    RemoveProjection(pending, i, id);
    ProjectConcat(journal, swallowed, id);
    ProjectConcat(journal + swallowed, pending, id);
    ProjectConcat(journal, RemoveAt(pending, i), id);
    assert Project(journal, id) + [] == Project(journal, id);
  }

  lemma LossInStep(s: State, a: Action, id: string)
    requires InStep(s, id) && IsWrite(s, a) && !Lands(s, a)
    ensures InStep(Next(s, a), id)
  {
    var t, e, swallowed := Next(s, a), s.pending[a.i], Swallowed(s, a);
    WriteMoves(s, a);
    ProjectConcat(s.lost, swallowed + [e], id);
    ProjectAppend(swallowed, e, id);
    if Project(t.lost, id) == [] {
      LossKeepsSequence(Journal(t), swallowed, s.pending, a.i, id);
    }
  }

  lemma WriteInStep(s: State, a: Action, id: string)
    requires InStep(s, id) && KeepsOrder(s, a, id) && IsWrite(s, a)
    ensures InStep(Next(s, a), id)
  {
    if Lands(s, a) {
      WriteMoves(s, a);
      AppendKeepsSequence(Journal(s), s.pending, a.i, id);
    } else {
      LossInStep(s, a, id);
    }
  }

  lemma NextInStep(s: State, a: Action, id: string)
    requires InStep(s, id) && KeepsOrder(s, a, id)
    ensures InStep(Next(s, a), id)
  {
    match a {
      case Register(r, clock, recordedAt) =>
        UpdateInStep(s, s.live[r.runnerId := NewRecord(r, clock)], Registered(r, recordedAt), id);
      case Receive(h, clock, recordedAt) =>
        if h.runnerId in s.live {
          UpdateInStep(s, s.live[h.runnerId := AfterHeartbeat(s.live[h.runnerId], h, clock)], Beat(h, recordedAt), id);
        }
      case Restart(clocks) => StartInStep(s.enabled, s.lines, s.tail, clocks, id);
      case Append(i) => if i < |s.pending| { WriteInStep(s, a, id); }
      case Fail(i) => if i < |s.pending| { WriteInStep(s, a, id); }
      case Tear(i, _) => if i < |s.pending| { WriteInStep(s, a, id); }
    }
  }

  lemma StartInStep(enabled: bool, lines: seq<Entry>, tail: Tail, clocks: nat -> Clock, id: string)
    ensures InStep(Start(enabled, lines, tail, clocks), id)
  {
    var s := Start(enabled, lines, tail, clocks);
    assert Journal(s) + s.pending == s.base + s.updates;
  }

  lemma {:induction false} RunInStep(s: State, actions: seq<Action>, id: string)
    requires InStep(s, id) && RunKeepsOrder(s, actions, id)
    ensures InStep(Run(s, actions), id)
  {
    if actions != [] {
      RunInStep(s, actions[..|actions| - 1], id);
      NextInStep(Run(s, actions[..|actions| - 1]), actions[|actions| - 1], id);
    }
  }

  /** In any interleaving in which one runner's entries reach the journal in the order of its
      updates, when it has none pending and lost none, replay gives it its live registration,
      running tasks and remaining capacity, whatever happened to the entries of other runners. */
  lemma OrderedAppendsAgree(enabled: bool, lines: seq<Entry>, tail: Tail, clocks: nat -> Clock,
                            actions: seq<Action>, id: string, replayClocks: nat -> Clock)
    requires RunKeepsOrder(Start(enabled, lines, tail, clocks), actions, id)
    ensures var s := Run(Start(enabled, lines, tail, clocks), actions);
      Project(s.pending, id) == [] && Project(s.lost, id) == [] ==>
        LoadAt(Replay(Journal(s), replayClocks), id) == LoadAt(s.live, id)
  {
    var s := Run(Start(enabled, lines, tail, clocks), actions);
    StartInStep(enabled, lines, tail, clocks, id);
    RunInStep(Start(enabled, lines, tail, clocks), actions, id);
    Reachable(enabled, lines, tail, clocks, actions);
    if Project(s.pending, id) == [] {
      ProjectConcat(Journal(s), s.pending, id);
      assert Project(Journal(s), id) + [] == Project(Journal(s), id);
      ReplayIsLocal(Journal(s), replayClocks, id);
    }
  }

  /** Two registrations of one runner whose appends land in the other order: nothing is lost and
      nothing is pending, and replay agrees only if the registrations are the same. */
  lemma SwappedAppends(a: Registration, b: Registration, clock: Clock, at: nat, replayClocks: nat -> Clock)
    requires a.runnerId == b.runnerId
    ensures var s := Run(Start(true, [], Clean, replayClocks),
                         [Register(a, clock, at), Register(b, clock, at), Append(1), Append(0)]);
      && s.lost == [] && s.pending == []
      && (LoadAt(Replay(Journal(s), replayClocks), a.runnerId) == LoadAt(s.live, a.runnerId) <==> a == b)
  {
    var actions := [Register(a, clock, at), Register(b, clock, at), Append(1), Append(0)];
    var s := Run(Start(true, [], Clean, replayClocks), actions);
    SwappedRun(a, b, clock, at, replayClocks);
    AgreementIff(true, [], Clean, replayClocks, actions, a.runnerId, replayClocks);
    LastOfTwo(Registered(b, at), Registered(a, at));
    LastOfTwo(Registered(a, at), Registered(b, at));
  }

  lemma LastOfTwo(a: Entry, b: Entry)
    requires b.Registered?
    ensures LastRegistration([a, b], b.RunnerId()) == Some(b.registration)
    ensures LastNumbers([a, b], b.RunnerId()) == (0, b.registration.maxConcurrency)
  {
  }

  lemma SwappedRun(a: Registration, b: Registration, clock: Clock, at: nat, clocks: nat -> Clock)
    ensures var s := Run(Start(true, [], Clean, clocks),
                         [Register(a, clock, at), Register(b, clock, at), Append(1), Append(0)]);
      && s.lost == [] && s.pending == []
      && Journal(s) == [Registered(b, at), Registered(a, at)]
      && s.base + s.updates == [Registered(a, at), Registered(b, at)]
  {
    var s0 := Start(true, [], Clean, clocks);
    var s2 := Next(Next(s0, Register(a, clock, at)), Register(b, clock, at));
    var s3 := Next(s2, Append(1));
    FourSteps(s0, Register(a, clock, at), Register(b, clock, at), Append(1), Append(0));
    var ea, eb := Registered(a, at), Registered(b, at);
    assert s2.pending == [ea, eb] && s2.updates == [ea, eb] && s2.base == [];
    assert s3.pending == [ea] && s3.lines == [eb];
    assert Next(s3, Append(0)).lines == [eb, ea];
  }
}
