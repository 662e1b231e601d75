/** What a replayed journal depends on: per runner, its last registration and the last heartbeat
    after it. */
module JournalReplay {
  import opened Text
  import opened RunnerModel

  /** The entries of one runner, in order. */
  function Project(journal: seq<Entry>, id: string): seq<Entry> {
    if journal == [] then []
    else
      var n := |journal| - 1;
      Project(journal[..n], id) + if journal[n].RunnerId() == id then [journal[n]] else []
  }

  /** The load that a runner's own entries give it. */
  function LoadOfEntries(entries: seq<Entry>): Option<Load> {
    if entries == [] then None
    else NextLoad(LoadOfEntries(entries[..|entries| - 1]), entries[|entries| - 1])
  }

  /** Replay treats every runner by itself: a runner's load depends on its own entries only, and
      not on the clock. */
  lemma {:induction false} ReplayIsLocal(journal: seq<Entry>, clocks: nat -> Clock, id: string)
    ensures LoadAt(Replay(journal, clocks), id) == LoadOfEntries(Project(journal, id))
  {
    if journal != [] {
      var n := |journal| - 1;
      ReplayIsLocal(journal[..n], clocks, id);
      ApplyLoadAt(Replay(journal[..n], clocks), journal[n], clocks(n), id);
      var before := Project(journal[..n], id);
      assert (before + [journal[n]])[..|before|] == before;
      assert before + [] == before;
    }
  }

  /** Two journals with the same entries of every runner, interleaved differently, replay to the
      same loads. */
  lemma SameProjectionsSameLoads(a: seq<Entry>, b: seq<Entry>, clocksA: nat -> Clock, clocksB: nat -> Clock)
    requires forall id :: Project(a, id) == Project(b, id)
    ensures forall id :: LoadAt(Replay(a, clocksA), id) == LoadAt(Replay(b, clocksB), id)
  {
    forall id ensures LoadAt(Replay(a, clocksA), id) == LoadAt(Replay(b, clocksB), id) {
      ReplayIsLocal(a, clocksA, id);
      ReplayIsLocal(b, clocksB, id);
    }
  }

  lemma {:induction false} ProjectConcat(a: seq<Entry>, b: seq<Entry>, id: string)
    ensures Project(a + b, id) == Project(a, id) + Project(b, id)
  {
    if b == [] {
      assert a + b == a;
    } else {
      var init, last := b[..|b| - 1], b[|b| - 1];
      ProjectConcat(a, init, id);
      assert (a + b)[..|a + b| - 1] == a + init;
      ConcatAssociative(Project(a, id), Project(init, id), if last.RunnerId() == id then [last] else []);
    }
  }

  // ---------------------------------------------------------------------------------------------
  // The runners that are there
  // ---------------------------------------------------------------------------------------------

  function RegisteredIds(journal: seq<Entry>): set<string> {
    set i | 0 <= i < |journal| && journal[i].Registered? :: journal[i].RunnerId()
  }

  lemma {:induction false} ReplayKeys(journal: seq<Entry>, clocks: nat -> Clock)
    ensures Replay(journal, clocks).Keys == RegisteredIds(journal)
  {
    if journal != [] {
      var n := |journal| - 1;
      var init := journal[..n];
      ReplayKeys(init, clocks);
      assert forall i :: 0 <= i < n ==> init[i] == journal[i];
      assert RegisteredIds(journal) ==
        RegisteredIds(init) + if journal[n].Registered? then {journal[n].RunnerId()} else {};
    }
  }

  // ---------------------------------------------------------------------------------------------
  // Compaction
  // ---------------------------------------------------------------------------------------------

  /** A runner's last registration and the last heartbeat after it, in order. */
  function Digest(entries: seq<Entry>): seq<Entry> {
    if entries == [] then []
    else
      var last := entries[|entries| - 1];
      var before := Digest(entries[..|entries| - 1]);
      if last.Registered? then [last]
      else if before == [] then []
      else [before[0], last]
  }

  /** The digest is what it says: the last registration, and the last heartbeat if it is later. */
  lemma {:induction false} DigestShape(entries: seq<Entry>)
    ensures if forall i :: 0 <= i < |entries| ==> entries[i].Beat? then Digest(entries) == []
      else exists k :: 0 <= k < |entries| && entries[k].Registered?
             && (forall i :: k < i < |entries| ==> entries[i].Beat?)
             && Digest(entries) == [entries[k]] + if k == |entries| - 1 then [] else [entries[|entries| - 1]]
  {
    if entries != [] {
      var n := |entries| - 1;
      var init := entries[..n];
      DigestShape(init);
      assert forall i :: 0 <= i < n ==> init[i] == entries[i];
      if entries[n].Registered? {
        assert Digest(entries) == [entries[n]] + [];
      } else if !(forall i :: 0 <= i < n ==> init[i].Beat?) {
        var k :| 0 <= k < n && init[k].Registered? && (forall i :: k < i < n ==> init[i].Beat?)
          && Digest(init) == [init[k]] + if k == n - 1 then [] else [init[n - 1]];
        assert entries[k].Registered? && forall i :: k < i < |entries| ==> entries[i].Beat?;
        assert Digest(entries) == [entries[k]] + [entries[n]];
      }
    }
  }

  /** The load that the digest of a runner's entries gives. */
  function DigestLoad(digest: seq<Entry>): Option<Load> {
    if digest == [] || !digest[0].Registered? then None
    else
      var r := digest[0].registration;
      if |digest| > 1 && digest[1].Beat? then
        Some(Load(r, digest[1].heartbeat.runningTasks, digest[1].heartbeat.capacityRemaining))
      else Some(Load(r, 0, r.maxConcurrency))
  }

  lemma {:induction false} LoadIsDigestLoad(entries: seq<Entry>)
    ensures LoadOfEntries(entries) == DigestLoad(Digest(entries))
    ensures Digest(entries) != [] ==> Digest(entries)[0].Registered?
  {
    if entries != [] {
      LoadIsDigestLoad(entries[..|entries| - 1]);
    }
  }

  /** Replay is determined, per runner, by the last registration and the last heartbeat after it;
      without such a heartbeat no task is running and the whole concurrency is free. */
  lemma ReplayIsDigest(journal: seq<Entry>, clocks: nat -> Clock, id: string)
    ensures LoadAt(Replay(journal, clocks), id) == DigestLoad(Digest(Project(journal, id)))
  {
    ReplayIsLocal(journal, clocks, id);
    LoadIsDigestLoad(Project(journal, id));
  }

  // ---------------------------------------------------------------------------------------------
  // The same without projections
  // ---------------------------------------------------------------------------------------------

  /** The runner's last registration in the journal. */
  function LastRegistration(journal: seq<Entry>, id: string): Option<Registration> {
    if journal == [] then None
    else
      var last := journal[|journal| - 1];
      if last.Registered? && last.RunnerId() == id then Some(last.registration)
      else LastRegistration(journal[..|journal| - 1], id)
  }

  /** The running tasks and the remaining capacity in the runner's last entry, a registration
      standing for an idle runner. */
  function LastNumbers(journal: seq<Entry>, id: string): (U32, U32) {
    if journal == [] then (0, 0)
    else
      var last := journal[|journal| - 1];
      if last.RunnerId() != id then LastNumbers(journal[..|journal| - 1], id)
      else if last.Registered? then (0, last.registration.maxConcurrency)
      else (last.heartbeat.runningTasks, last.heartbeat.capacityRemaining)
  }

  /** A runner's entries give its last registration with the numbers of its last entry. */
  lemma {:induction false} LoadIsLatest(journal: seq<Entry>, id: string)
    ensures LoadOfEntries(Project(journal, id)) ==
      match LastRegistration(journal, id)
      case None => None
      case Some(r) => Some(Load(r, LastNumbers(journal, id).0, LastNumbers(journal, id).1))
  {
    if journal != [] {
      var init, last := journal[..|journal| - 1], journal[|journal| - 1];
      LoadIsLatest(init, id);
      var before := Project(init, id);
      assert (before + [last])[..|before|] == before;
      assert before + [] == before;
    }
  }

  /** The same clock reading at every entry. */
  function Steady(clock: Clock): nat -> Clock {
    (i: nat) => clock
  }

  function RecordAt(runners: Runners, id: string): Option<Record> {
    if id in runners then Some(runners[id]) else None
  }

  /** The record that a runner's own entries give it, times included. */
  function RecordOfEntries(entries: seq<Entry>, clock: Clock): Option<Record> {
    if entries == [] then None
    else NextRecord(RecordOfEntries(entries[..|entries| - 1], clock), entries[|entries| - 1], clock)
  }

  function NextRecord(record: Option<Record>, entry: Entry, clock: Clock): Option<Record> {
    var id := entry.RunnerId();
    RecordAt(ApplyJournalEntry(if record.None? then map[] else map[id := record.value], entry, clock), id)
  }

  /** The position of the runner's last entry, 0 when it has none. */
  function LastIndex(journal: seq<Entry>, id: string): nat {
    if journal == [] then 0
    else
      var n := |journal| - 1;
      if journal[n].RunnerId() == id then n else LastIndex(journal[..n], id)
  }

  /** A record with the instant that it has when its last entry is replayed at the clock reading. */
  function ReplayedAt(record: Option<Record>, clock: Clock): Option<Record> {
    if record.None? then None
    else Some(record.value.(lastSeen := InstantFromWallClock(record.value.lastSeenUnixSeconds, clock)))
  }

  /** The clock reading decides the instant of a record and nothing else. */
  lemma {:induction false} ClockDecidesTheInstant(entries: seq<Entry>, a: Clock, b: Clock)
    ensures RecordOfEntries(entries, a) == ReplayedAt(RecordOfEntries(entries, b), a)
  {
    if entries != [] {
      ClockDecidesTheInstant(entries[..|entries| - 1], a, b);
    }
  }

  /** Only the reading at the last entry counts. */
  lemma LastClockCounts(entries: seq<Entry>, e: Entry, a: Clock, b: Clock)
    ensures NextRecord(RecordOfEntries(entries, a), e, b) == RecordOfEntries(entries + [e], b)
  {
    assert (entries + [e])[..|entries|] == entries;
    ClockDecidesTheInstant(entries, a, b);
  }

  /** Whatever the clocks do during a replay, a runner's record depends on its own entries and on
      the clock reading at the last one of them. */
  lemma {:induction false} ReplayRecordIsLocal(journal: seq<Entry>, clocks: nat -> Clock, id: string)
    ensures RecordAt(Replay(journal, clocks), id) ==
      RecordOfEntries(Project(journal, id), clocks(LastIndex(journal, id)))
  {
    if journal != [] {
      var n := |journal| - 1;
      ReplayRecordIsLocal(journal[..n], clocks, id);
      var before := Project(journal[..n], id);
      ApplyRecordAt(Replay(journal[..n], clocks), journal[n], clocks(n), id);
      LastClockCounts(before, journal[n], clocks(LastIndex(journal[..n], id)), clocks(n));
      assert before + [] == before;
    }
  }

  lemma ApplyRecordAt(runners: Runners, entry: Entry, clock: Clock, id: string)
    ensures RecordAt(ApplyJournalEntry(runners, entry, clock), id) ==
      if id == entry.RunnerId() then NextRecord(RecordAt(runners, id), entry, clock) else RecordAt(runners, id)
  {
  }

  lemma {:induction false} RecordOfDigest(entries: seq<Entry>, clock: Clock)
    ensures RecordOfEntries(Digest(entries), clock) == RecordOfEntries(entries, clock)
    ensures Digest(entries) != [] ==> Digest(entries)[0].Registered? && |Digest(entries)| <= 2
  {
    if entries != [] {
      var init, last := entries[..|entries| - 1], entries[|entries| - 1];
      RecordOfDigest(init, clock);
      var before := Digest(init);
      if last.Registered? {
        assert [last][..0] == [];
      } else if before != [] {
        assert [before[0], last][..1] == [before[0]];
        assert [before[0]][..0] == [];
        assert |before| == 2 ==> before[..1] == [before[0]];
        assert |before| == 1 ==> before == [before[0]];
        BeatsReplaceEachOther(before[0], if |before| == 2 then before[1] else last, last, clock);
      }
    }
  }

  /** Of two heartbeats in a row after a registration only the second one counts. */
  lemma BeatsReplaceEachOther(registered: Entry, beat: Entry, last: Entry, clock: Clock)
    requires registered.Registered? && last.Beat?
    ensures beat.Beat? ==>
      NextRecord(NextRecord(RecordOfEntries([registered], clock), beat, clock), last, clock) ==
      NextRecord(RecordOfEntries([registered], clock), last, clock)
  {
  }

  /** The journal without the entries of one runner, or without its heartbeats only. */
  function Without(journal: seq<Entry>, id: string, beatsOnly: bool): seq<Entry> {
    if journal == [] then []
    else
      var last := journal[|journal| - 1];
      Without(journal[..|journal| - 1], id, beatsOnly) +
        if last.RunnerId() == id && (last.Beat? || !beatsOnly) then [] else [last]
  }

  /** Compaction in one pass: an entry drops the entries of its runner that it supersedes, and a
      heartbeat of a runner that has no registration is itself dropped. */
  function Compacted(journal: seq<Entry>): seq<Entry> {
    if journal == [] then []
    else
      var last := journal[|journal| - 1];
      var before := Compacted(journal[..|journal| - 1]);
      if last.Registered? then Without(before, last.RunnerId(), false) + [last]
      else if Project(before, last.RunnerId()) == [] then before
      else Without(before, last.RunnerId(), true) + [last]
  }

  lemma ProjectAppend(journal: seq<Entry>, e: Entry, id: string)
    ensures Project(journal + [e], id) == Project(journal, id) + if e.RunnerId() == id then [e] else []
  {
    assert (journal + [e])[..|journal|] == journal;
  }

  lemma {:induction false} ProjectWithout(journal: seq<Entry>, id: string, beatsOnly: bool, k: string)
    ensures Project(Without(journal, id, beatsOnly), k) ==
      if k != id then Project(journal, k)
      else if beatsOnly then WithoutBeats(Project(journal, k))
      else []
  {
    if journal != [] {
      var init, last := journal[..|journal| - 1], journal[|journal| - 1];
      ProjectWithout(init, id, beatsOnly, k);
      var before := Without(init, id, beatsOnly);
      assert before + [] == before;
      ProjectAppend(before, last, k);
      WithoutBeatsAppend(Project(init, k), last);
      assert Project(init, k) + [] == Project(init, k);
    }
  }

  function WithoutBeats(entries: seq<Entry>): seq<Entry> {
    if entries == [] then []
    else WithoutBeats(entries[..|entries| - 1]) + if entries[|entries| - 1].Beat? then [] else [entries[|entries| - 1]]
  }

  lemma WithoutBeatsAppend(entries: seq<Entry>, e: Entry)
    ensures WithoutBeats(entries + [e]) == WithoutBeats(entries) + if e.Beat? then [] else [e]
  {
    assert (entries + [e])[..|entries|] == entries;
  }

  lemma DigestWithoutBeats(entries: seq<Entry>)
    ensures Digest(entries) != [] ==> WithoutBeats(Digest(entries)) == [Digest(entries)[0]]
  {
    var digest := Digest(entries);
    DigestParts(entries);
    if digest != [] {
      OneRegistration(digest[0]);
      if |digest| == 2 {
        assert digest == [digest[0]] + [digest[1]];
        WithoutBeatsAppend([digest[0]], digest[1]);
        assert [digest[0]] + [] == [digest[0]];
      } else {
        assert digest == [digest[0]];
      }
    }
  }

  lemma OneRegistration(e: Entry)
    requires e.Registered?
    ensures WithoutBeats([e]) == [e]
  {
    WithoutBeatsAppend([], e);
    assert [] + [e] == [e];
  }

  /** A digest is empty, or a registration and at most one heartbeat. */
  lemma {:induction false} DigestParts(entries: seq<Entry>)
    ensures |Digest(entries)| <= 2
    ensures Digest(entries) != [] ==> Digest(entries)[0].Registered?
    ensures |Digest(entries)| == 2 ==> Digest(entries)[1].Beat?
  {
    if entries != [] {
      DigestParts(entries[..|entries| - 1]);
    }
  }

  /** The compacted journal holds exactly the digest of every runner. */
  lemma {:induction false} CompactedProjection(journal: seq<Entry>, id: string)
    ensures Project(Compacted(journal), id) == Digest(Project(journal, id))
  {
    if journal != [] {
      var init, last := journal[..|journal| - 1], journal[|journal| - 1];
      var before, own := Compacted(init), last.RunnerId();
      CompactedProjection(init, id);
      CompactedProjection(init, own);
      ProjectWithout(before, own, last.Beat?, id);
      ProjectAppend(Without(before, own, last.Beat?), last, id);
      var entries := Project(init, id);
      if id == own {
        assert (entries + [last])[..|entries|] == entries;
        DigestWithoutBeats(entries);
      } else {
        assert entries + [] == entries;
        assert Digest(entries) + [] == Digest(entries);
      }
    }
  }

  /** Whatever the clocks do during the two replays, a compacted journal gives every runner the
      record that the journal gives it, wall-clock time included; its instant is the one of the
      clock reading at the runner's last compacted entry. */
  lemma CompactionKeepsRecords(journal: seq<Entry>, a: nat -> Clock, b: nat -> Clock, id: string)
    ensures RecordAt(Replay(Compacted(journal), a), id) ==
      ReplayedAt(RecordAt(Replay(journal, b), id), a(LastIndex(Compacted(journal), id)))
  {
    var entries := Project(journal, id);
    var atA, atB := a(LastIndex(Compacted(journal), id)), b(LastIndex(journal, id));
    ReplayRecordIsLocal(Compacted(journal), a, id);
    ReplayRecordIsLocal(journal, b, id);
    CompactedProjection(journal, id);
    RecordOfDigest(entries, atA);
    ClockDecidesTheInstant(entries, atA, atB);
  }

  /** So it gives every runner the same load and the same wall-clock time. */
  lemma CompactionKeepsLoads(journal: seq<Entry>, a: nat -> Clock, b: nat -> Clock, id: string)
    ensures LoadAt(Replay(Compacted(journal), a), id) == LoadAt(Replay(journal, b), id)
    ensures id in Replay(journal, b) ==>
      Replay(Compacted(journal), a)[id].lastSeenUnixSeconds == Replay(journal, b)[id].lastSeenUnixSeconds
  {
    CompactionKeepsRecords(journal, a, b, id);
    assert RecordAt(Replay(journal, b), id).Some? <==> id in Replay(journal, b);
    assert RecordAt(Replay(Compacted(journal), a), id).Some? <==> id in Replay(Compacted(journal), a);
  }

  /** When both replays read the same clocks throughout, the records are equal, instants included. */
  lemma CompactionReplays(journal: seq<Entry>, clock: Clock)
    ensures Replay(Compacted(journal), Steady(clock)) == Replay(journal, Steady(clock))
  {
    var left, right := Replay(Compacted(journal), Steady(clock)), Replay(journal, Steady(clock));
    forall id ensures RecordAt(left, id) == RecordAt(right, id) {
      ReplayRecordIsLocal(Compacted(journal), Steady(clock), id);
      ReplayRecordIsLocal(journal, Steady(clock), id);
      CompactedProjection(journal, id);
      RecordOfDigest(Project(journal, id), clock);
    }
    SameRecordsSameRunners(left, right);
  }

  lemma SameRecordsSameRunners(a: Runners, b: Runners)
    requires forall id :: RecordAt(a, id) == RecordAt(b, id)
    ensures a == b
  {
    assert forall id :: id in a <==> RecordAt(a, id).Some?;
    assert forall id :: id in b <==> RecordAt(b, id).Some?;
    assert forall id :: id in a ==> RecordAt(a, id) == Some(a[id]);
    assert forall id :: id in b ==> RecordAt(b, id) == Some(b[id]);
  }
}
