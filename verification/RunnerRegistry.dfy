/** The registry itself: records updated in place, the shared map of them and the journal file. The
    two halves of a handler are two methods, because the lock is released between them. */
module RunnerRegistry {
  import opened Text
  import opened Lists
  import opened RunnerModel
  import opened JournalProtocol
  import opened JournalText
  import opened JournalFile
  import PoolSupply

  class RunnerRecord {
    var registration: Registration
    var lastSeen: int
    var lastSeenUnixSeconds: nat
    var runningTasks: U32
    var capacityRemaining: U32

    function Value(): Record
      reads this
    {
      Record(registration, lastSeen, lastSeenUnixSeconds, runningTasks, capacityRemaining)
    }

    constructor (registration: Registration, clock: Clock)
      ensures Value() == NewRecord(registration, clock)
      ensures Value() == Record(registration, clock.instant, UnixSeconds(clock.wall), 0, registration.maxConcurrency)
    {
      this.registration := registration;
      lastSeen := clock.instant;
      lastSeenUnixSeconds := UnixSeconds(clock.wall);
      runningTasks := 0;
      capacityRemaining := registration.maxConcurrency;
    }

    method Heartbeat(heartbeat: Heartbeat, clock: Clock)
      modifies this
      ensures Value() == AfterHeartbeat(old(Value()), heartbeat, clock)
      ensures Value() == Record(old(registration), clock.instant, UnixSeconds(clock.wall),
                                heartbeat.runningTasks, heartbeat.capacityRemaining)
    {
      lastSeen := clock.instant;
      lastSeenUnixSeconds := UnixSeconds(clock.wall);
      runningTasks := heartbeat.runningTasks;
      capacityRemaining := heartbeat.capacityRemaining;
    }

    method ReplayHeartbeat(heartbeat: Heartbeat, recordedAt: nat, clock: Clock)
      modifies this
      ensures Value() == Record(old(registration), InstantFromWallClock(recordedAt, clock), recordedAt,
                                heartbeat.runningTasks, heartbeat.capacityRemaining)
    {
      runningTasks := heartbeat.runningTasks;
      capacityRemaining := heartbeat.capacityRemaining;
      lastSeenUnixSeconds := recordedAt;
      lastSeen := InstantFromWallClock(recordedAt, clock);
    }
  }

  // ---------------------------------------------------------------------------------------------
  // What dispatch and status list, in the order of the runner ids
  // ---------------------------------------------------------------------------------------------

  ghost predicate InOrder(runners: Runners, order: seq<string>) {
    PoolSupply.IsSorted(order) && forall id :: id in order <==> id in runners
  }

  function Offered(runners: Runners, order: seq<string>, now: int): seq<Registration>
    requires forall id :: id in order ==> id in runners
  {
    if order == [] then []
    else
      var record := runners[order[|order| - 1]];
      Offered(runners, order[..|order| - 1], now) + if IsDispatchable(record, now) then [record.registration] else []
  }

  function Statuses(runners: Runners, order: seq<string>, now: int): seq<Status>
    requires forall id :: id in order ==> id in runners
  {
    if order == [] then []
    else Statuses(runners, order[..|order| - 1], now) + [StatusOf(runners[order[|order| - 1]], now)]
  }

  function DispatchableOnes(statuses: seq<Status>): seq<Registration> {
    if statuses == [] then []
    else
      var last := statuses[|statuses| - 1];
      DispatchableOnes(statuses[..|statuses| - 1]) + if last.dispatchable then [last.registration] else []
  }

  /** At one instant, dispatch offers exactly the runners whose status says that they are
      dispatchable, in the same order. */
  lemma {:induction false} OfferIsDispatchableStatuses(runners: Runners, order: seq<string>, now: int)
    requires forall id :: id in order ==> id in runners
    ensures Offered(runners, order, now) == DispatchableOnes(Statuses(runners, order, now))
  {
    if order != [] {
      var n := |order| - 1;
      OfferIsDispatchableStatuses(runners, order[..n], now);
      var before, last := Statuses(runners, order[..n], now), StatusOf(runners[order[n]], now);
      assert (before + [last])[..|before|] == before;
    }
  }

  /** A registration is offered exactly when it is the one of a dispatchable runner. */
  lemma {:induction false} OfferedAreDispatchable(runners: Runners, order: seq<string>, now: int, r: Registration)
    requires forall id :: id in order ==> id in runners
    ensures r in Offered(runners, order, now) <==>
      exists id :: id in order && runners[id].registration == r && IsDispatchable(runners[id], now)
  {
    if order != [] {
      var n := |order| - 1;
      OfferedAreDispatchable(runners, order[..n], now, r);
      forall id ensures id in order <==> id in order[..n] || id == order[n] {
        assert order == order[..n] + [order[n]];
      }
      if exists id :: id in order[..n] && runners[id].registration == r && IsDispatchable(runners[id], now) {
        var id :| id in order[..n] && runners[id].registration == r && IsDispatchable(runners[id], now);
        assert id in order;
      }
    }
  }

  /** One status for each runner, in the given order. */
  lemma {:induction false} StatusesAreInOrder(runners: Runners, order: seq<string>, now: int)
    requires forall id :: id in order ==> id in runners
    ensures |Statuses(runners, order, now)| == |order|
    ensures forall i :: 0 <= i < |order| ==> Statuses(runners, order, now)[i] == StatusOf(runners[order[i]], now)
  {
    if order != [] {
      StatusesAreInOrder(runners, order[..|order| - 1], now);
    }
  }

  function RunnerIds(registrations: seq<Registration>): seq<string> {
    seq(|registrations|, i requires 0 <= i < |registrations| => registrations[i].runnerId)
  }

  /** The offered registrations keep the order, and come from it. */
  lemma {:induction false} OfferKeepsOrder(runners: Runners, order: seq<string>, now: int)
    requires forall id :: id in order ==> id in runners && runners[id].registration.runnerId == id
    requires PoolSupply.IsSorted(order)
    ensures PoolSupply.IsSorted(RunnerIds(Offered(runners, order, now)))
    ensures forall r :: r in Offered(runners, order, now) ==> r.runnerId in order
  {
    if order != [] {
      var n := |order| - 1;
      var init, before := order[..n], Offered(runners, order[..n], now);
      OfferKeepsOrder(runners, init, now);
      forall i | 0 <= i < |before| ensures PoolSupply.Before(before[i].runnerId, order[n]) {
        assert before[i] in before;
        BeforeTheLast(order, before[i].runnerId);
      }
      assert order == init + [order[n]];
      IdsAfterMore(before, runners[order[n]].registration);
    }
  }

  lemma BeforeTheLast(order: seq<string>, id: string)
    requires PoolSupply.IsSorted(order) && order != [] && id in order[..|order| - 1]
    ensures PoolSupply.Before(id, order[|order| - 1])
  {
    var k :| 0 <= k < |order| - 1 && order[..|order| - 1][k] == id;
    assert order[k] == id;
  }

  lemma IdsAfterMore(before: seq<Registration>, r: Registration)
    requires PoolSupply.IsSorted(RunnerIds(before))
    requires forall i :: 0 <= i < |before| ==> PoolSupply.Before(before[i].runnerId, r.runnerId)
    ensures PoolSupply.IsSorted(RunnerIds(before + [r]))
    ensures before + [] == before
  {
    assert RunnerIds(before + [r]) == RunnerIds(before) + [r.runnerId];
  }

  /** What dispatch has to draw from, said without any function of the program: the registrations of
      the runners within their lease and with capacity, once each, in the order of their ids. */
  ghost predicate IsOffer(runners: Runners, now: int, offered: seq<Registration>) {
    && PoolSupply.IsSorted(RunnerIds(offered))
    && forall r :: r in offered <==>
      exists id :: id in runners && runners[id].registration == r && HoldsLease(runners[id], now)
  }

  predicate HoldsLease(record: Record, now: int) {
    now - record.lastSeen <= record.registration.leaseTtlSeconds * 1_000_000_000 && record.capacityRemaining > 0
  }

  lemma OfferedIsOffer(runners: Runners, order: seq<string>, now: int)
    requires InOrder(runners, order) && forall id :: id in runners ==> runners[id].registration.runnerId == id
    ensures IsOffer(runners, now, Offered(runners, order, now))
  {
    OfferKeepsOrder(runners, order, now);
    forall r ensures r in Offered(runners, order, now) <==>
      exists id :: id in runners && runners[id].registration == r && HoldsLease(runners[id], now)
    {
      OfferedAreDispatchable(runners, order, now, r);
      assert forall id :: id in runners ==> (HoldsLease(runners[id], now) <==> IsDispatchable(runners[id], now));
    }
  }

  /** The statuses of all runners, in the order of their ids. */
  ghost predicate IsStatusList(runners: Runners, now: int, statuses: seq<Status>) {
    && |statuses| == |runners|
    && (forall i :: 0 <= i < |statuses| ==>
          statuses[i].registration.runnerId in runners &&
          statuses[i] == StatusOf(runners[statuses[i].registration.runnerId], now))
    && (forall i, j :: 0 <= i < j < |statuses| ==>
          PoolSupply.Before(statuses[i].registration.runnerId, statuses[j].registration.runnerId))
  }

  lemma StatusesAreStatusList(runners: Runners, order: seq<string>, now: int)
    requires InOrder(runners, order) && forall id :: id in runners ==> runners[id].registration.runnerId == id
    ensures IsStatusList(runners, now, Statuses(runners, order, now))
  {
    StatusesAreInOrder(runners, order, now);
    PoolSupply.SortedIsDistinct(order);
    DistinctCount(order);
    assert (set id | id in order) == runners.Keys;
    assert forall i :: 0 <= i < |order| ==> order[i] in order;
  }

  lemma {:induction false} DistinctCount(order: seq<string>)
    requires AreDistinct(order)
    ensures |set id | id in order| == |order|
  {
    if order == [] {
      assert (set id | id in order) == {};
    } else {
      var init, last := order[..|order| - 1], order[|order| - 1];
      DistinctCount(init);
      assert order == init + [last];
      assert last !in init;
      assert (set id | id in order) == (set id | id in init) + {last};
    }
  }

  // ---------------------------------------------------------------------------------------------
  // Skipped journal lines
  // ---------------------------------------------------------------------------------------------

  /** A line that a replay warns about: not blank, and not an entry. */
  predicate IsSkipped(c: Codec, line: string) {
    Trim(line) != "" && c.decode(line).None?
  }

  predicate IsFirstSkipped(c: Codec, lines: seq<string>, first: Option<nat>) {
    match first
    case None => forall k :: 0 <= k < |lines| ==> !IsSkipped(c, lines[k])
    case Some(number) =>
      && 1 <= number <= |lines|
      && IsSkipped(c, lines[number - 1])
      && forall k :: 0 <= k < number - 1 ==> !IsSkipped(c, lines[k])
  }

  /** The number of lines that a replay warns about. */
  function CountSkipped(c: Codec, lines: seq<string>): nat {
    if lines == [] then 0
    else CountSkipped(c, lines[..|lines| - 1]) + if IsSkipped(c, lines[|lines| - 1]) then 1 else 0
  }

  /** What a replay knows after some lines: their entries, how many lines it skipped and the
      number of the first one. */
  ghost predicate HasRead(c: Codec, lines: seq<string>, entries: seq<Entry>, skipped: nat, first: Option<nat>) {
    && entries == EntriesOf(c, lines)
    && IsFirstSkipped(c, lines, first)
    && (skipped == 0 <==> first.None?)
    && skipped == CountSkipped(c, lines)
  }

  lemma NextLine(c: Codec, lines: seq<string>, i: nat, entries: seq<Entry>, skipped: nat, first: Option<nat>)
    requires i < |lines| && HasRead(c, lines[..i], entries, skipped, first)
    ensures if IsSkipped(c, lines[i]) then
        HasRead(c, lines[..i + 1], entries, skipped + 1, if first.None? then Some(i + 1) else first)
      else HasRead(c, lines[..i + 1], entries + EntryOf(c, lines[i]), skipped, first)
  {
    assert lines[..i + 1][..i] == lines[..i];
    assert forall k :: 0 <= k < i ==> lines[..i + 1][k] == lines[..i][k];
    assert entries + [] == entries;
  }

  datatype Outcome = Blank | Applied | Skipped

  function AfterEntries(runners: Runners, entries: seq<Entry>, clock: Clock): Runners {
    if entries == [] then runners else RunnerModel.ApplyJournalEntry(runners, entries[0], clock)
  }

  lemma NextEntries(entries: seq<Entry>, more: seq<Entry>, clocks: nat -> Clock)
    requires |more| <= 1
    ensures Replay(entries + more, clocks) == AfterEntries(Replay(entries, clocks), more, clocks(|entries|))
  {
    if more == [] {
      assert entries + more == entries;
    } else {
      assert (entries + more)[..|entries|] == entries;
    }
  }

  // ---------------------------------------------------------------------------------------------
  // The registry
  // ---------------------------------------------------------------------------------------------

  class Registry {
    const enabled: bool                     // a journal path is configured
    var runners: map<string, RunnerRecord>
    var journal: string                     // the contents of the journal file

    /** Every runner has a record of its own, kept under its own id. */
    ghost predicate Valid()
      reads this, runners.Values
    {
      && (forall a, b :: a in runners && b in runners && a != b ==> runners[a] != runners[b])
      && (forall id :: id in runners ==> runners[id].registration.runnerId == id)
    }

    function View(): Runners
      reads this, runners.Values
    {
      map id | id in runners :: runners[id].Value()
    }

    /** A start of the process: the map is what a replay of the journal gives. */
    constructor Start(c: Codec, enabled: bool, journal: string, clocks: nat -> Clock)
      ensures Valid() && fresh(runners.Values)
      ensures this.enabled == enabled && this.journal == journal
      ensures View() == Replay(if enabled then ReadJournal(c, journal) else [], clocks)
    {
      this.enabled := enabled;
      this.journal := journal;
      runners := map[];
      new;
      assert View() == map[];
      if enabled {
        var skipped, first := ReplayJournal(c, clocks);
      }
    }

    method ReplayJournal(c: Codec, clocks: nat -> Clock) returns (skipped: nat, first: Option<nat>)
      requires runners == map[]
      modifies this`runners
      ensures Valid() && fresh(runners.Values)
      ensures View() == Replay(ReadJournal(c, journal), clocks)
      ensures HasRead(c, Lines(journal), ReadJournal(c, journal), skipped, first)
    {
      var lines := Lines(journal);
      ghost var entries: seq<Entry> := [];
      var applied: nat := 0;
      skipped, first := 0, None;
      assert View() == map[];
      for i := 0 to |lines|
        invariant Valid() && fresh(runners.Values) && applied == |entries|
        invariant HasRead(c, lines[..i], entries, skipped, first)
        invariant View() == Replay(entries, clocks)
      {
        NextLine(c, lines, i, entries, skipped, first);
        NextEntries(entries, EntryOf(c, lines[i]), clocks);
        var outcome := ReplayLine(c, lines[i], clocks(applied));
        entries := entries + EntryOf(c, lines[i]);
        if outcome == Skipped {
          skipped := skipped + 1;
          first := if first.None? then Some(i + 1) else first;
        } else if outcome == Applied {
          applied := applied + 1;
        }
      }
      assert lines[..|lines|] == lines;
    }

    method ReplayLine(c: Codec, line: string, clock: Clock) returns (outcome: Outcome)
      requires Valid()
      modifies this`runners, runners.Values
      ensures Valid() && fresh(runners.Values - old(runners.Values))
      ensures View() == AfterEntries(old(View()), EntryOf(c, line), clock)
      ensures outcome == if EntryOf(c, line) != [] then Applied else if IsSkipped(c, line) then Skipped else Blank
    {
      if Trim(line) == "" {
        return Blank;
      }
      match c.decode(line)
      case Some(entry) =>
        ApplyJournalEntry(entry, clock);
        outcome := Applied;
      case None =>
        outcome := Skipped;
    }

    method ApplyJournalEntry(entry: Entry, clock: Clock)
      requires Valid()
      modifies this`runners, runners.Values
      ensures Valid() && fresh(runners.Values - old(runners.Values))
      ensures View() == RunnerModel.ApplyJournalEntry(old(View()), entry, clock)
    {
      match entry {
        case Registered(registration, recordedAt) =>
          ReplayRegistration(registration, recordedAt, clock);
        case Beat(heartbeat, recordedAt) =>
          if heartbeat.runnerId in runners {
            var record := runners[heartbeat.runnerId];
            record.ReplayHeartbeat(heartbeat, recordedAt, clock);
            assert View() == old(View())[heartbeat.runnerId := record.Value()];
          }
      }
    }

    method ReplayRegistration(registration: Registration, recordedAt: nat, clock: Clock)
      requires Valid()
      modifies this`runners
      ensures Valid() && fresh(runners.Values - old(runners.Values))
      ensures View() == RunnerModel.ApplyJournalEntry(old(View()), Registered(registration, recordedAt), clock)
    {
      var record := new RunnerRecord(registration, clock);
      record.lastSeenUnixSeconds := recordedAt;
      record.lastSeen := InstantFromWallClock(recordedAt, clock);
      runners := runners[registration.runnerId := record];
      assert View() == old(View())[registration.runnerId := record.Value()];
    }

    /** The map update of a registration; `s` is the protocol state that the registry is in. */
    method Register(registration: Registration, clock: Clock, ghost s: State, ghost recordedAt: nat)
      requires Valid() && s.live == View()
      modifies this`runners
      ensures Valid() && fresh(runners.Values - old(runners.Values))
      ensures View() == old(View())[registration.runnerId := NewRecord(registration, clock)]
      ensures View() == Next(s, Action.Register(registration, clock, recordedAt)).live
    {
      var record := new RunnerRecord(registration, clock);
      runners := runners[registration.runnerId := record];
    }

    /** The map update of a heartbeat: a runner that never registered stays unknown. */
    method Receive(heartbeat: Heartbeat, clock: Clock, ghost s: State, ghost recordedAt: nat) returns (known: bool)
      requires Valid() && s.live == View()
      modifies runners.Values
      ensures Valid() && known == (heartbeat.runnerId in old(View()))
      ensures View() ==
        if known then
          old(View())[heartbeat.runnerId := AfterHeartbeat(old(View())[heartbeat.runnerId], heartbeat, clock)]
        else old(View())
      ensures View() == Next(s, Action.Receive(heartbeat, clock, recordedAt)).live
    {
      known := heartbeat.runnerId in runners;
      if known {
        runners[heartbeat.runnerId].Heartbeat(heartbeat, clock);
      }
    }

    /** The journal append of a handler. The write gets through the first `written` characters:
        none when it fails, all of them when it succeeds. The file then stands for the protocol
        state after a failed, a torn or a complete append. */
    method AppendJournal(c: Codec, entry: Entry, written: nat, ghost s: State, ghost i: nat,
                         ghost body: string, ghost parts: seq<string>)
        returns (ghost body': string, ghost parts': seq<string>)
      requires IsFaithful(c) && written <= |c.encode(entry)| + 1
      requires i < |s.pending| && s.pending[i] == entry && s.enabled == enabled
      requires Represents(c, body, parts, s.lines, s.tail) && journal == body + Concat(parts)
      modifies this`journal
      ensures journal == Journalled(c, old(journal), entry, written, enabled)
      ensures var t := Next(s, AppendOutcome(c, entry, written, enabled, i));
        Represents(c, body', parts', t.lines, t.tail) && journal == body' + Concat(parts')
    {
      body', parts' := WriteRefines(c, s, i, written, body, parts);
      if !enabled {
        return;
      }
      var line := c.encode(entry) + "\n";
      journal := journal + line[..written];
    }

    /** What dispatch draws from when the request names no runners. */
    method Dispatch(requested: seq<Registration>, now: int) returns (offered: seq<Registration>)
      requires Valid()
      ensures requested != [] ==> offered == requested
      ensures requested == [] ==> IsOffer(View(), now, offered)
      ensures requested == [] ==> exists order :: InOrder(View(), order) && offered == Offered(View(), order, now)
    {
      if requested != [] {
        return requested;
      }
      offered := [];
      var order := PoolSupply.SortedKeys(runners.Keys);
      assert InOrder(View(), order);
      for i := 0 to |order|
        invariant offered == Offered(View(), order[..i], now)
      {
        assert order[..i + 1][..i] == order[..i];
        var record := View()[order[i]];
        if IsDispatchable(record, now) {
          offered := offered + [record.registration];
        }
      }
      assert order[..|order|] == order;
      OfferedIsOffer(View(), order, now);
    }

    method ListStatus(now: int) returns (statuses: seq<Status>)
      requires Valid()
      ensures IsStatusList(View(), now, statuses)
      ensures exists order :: InOrder(View(), order) && statuses == Statuses(View(), order, now)
    {
      statuses := [];
      var order := PoolSupply.SortedKeys(runners.Keys);
      assert InOrder(View(), order);
      for i := 0 to |order|
        invariant statuses == Statuses(View(), order[..i], now)
      {
        assert order[..i + 1][..i] == order[..i];
        statuses := statuses + [StatusOf(View()[order[i]], now)];
      }
      assert order[..|order|] == order;
      StatusesAreStatusList(View(), order, now);
    }

    method PoolSupplies(now: int) returns (supplies: seq<PoolSupply.Supply>)
      requires Valid()
      ensures PoolSupply.IsSummary(View(), now, supplies)
    {
      supplies := PoolSupply.RunnerPoolSupplies(View(), now);
    }
  }

}
