/** What dispatch may draw from the registry: runners whose latest contact is within their lease
    and left capacity, and how far a restart can move the age of a record. */
module LeaseSafety {
  import opened Text
  import opened RunnerModel
  import opened JournalReplay
  import opened JournalProtocol

  /** What a status reports, from the registration and the record alone: a lease of so many seconds
      holds up to and including its last nanosecond, the age is in whole seconds, and dispatch goes
      by the same. */
  lemma StatusMeaning(record: Record, now: int)
    ensures var status, age := StatusOf(record, now), now - record.lastSeen;
      var ttl := record.registration.leaseTtlSeconds * 1_000_000_000;
      && (status.stale <==> age > ttl)
      && (status.full <==> record.capacityRemaining == 0)
      && (status.dispatchable <==> age <= ttl && record.capacityRemaining > 0)
      && (IsDispatchable(record, now) <==> age <= ttl && record.capacityRemaining > 0)
      && (age >= 0 ==>
            status.lastSeenAgeSeconds * 1_000_000_000 <= age < (status.lastSeenAgeSeconds + 1) * 1_000_000_000)
      && (age < 0 ==> status.lastSeenAgeSeconds == 0)
      && status.registration == record.registration
      && status.runningTasks == record.runningTasks && status.capacityRemaining == record.capacityRemaining
  {
  }

  /** The age that a status reports in whole seconds never contradicts its flags, and an exactly
      expired lease still holds. */
  lemma StatusAge(record: Record, now: int)
    ensures var status, ttl := StatusOf(record, now), record.registration.leaseTtlSeconds;
      && (status.stale <==> now - record.lastSeen > ttl * SECOND)
      && (status.stale ==> status.lastSeenAgeSeconds >= ttl)
      && (!status.stale ==> status.lastSeenAgeSeconds <= ttl)
      && (now - record.lastSeen == ttl * SECOND ==> !status.stale && status.lastSeenAgeSeconds == ttl)
  {
    StatusMeaning(record, now);
  }

  /** Times recorded in whole seconds are those of the wall clock rounded down, from 1970 on. */
  lemma UnixSecondsAreWhole(wall: int)
    ensures wall >= 0 ==> UnixSeconds(wall) * 1_000_000_000 <= wall < (UnixSeconds(wall) + 1) * 1_000_000_000
    ensures wall < 0 ==> UnixSeconds(wall) == 0
  {
  }

  // ---------------------------------------------------------------------------------------------
  // The latest contact of a runner in a run
  // ---------------------------------------------------------------------------------------------

  /** A registration or a heartbeat that the registry took: when it came, the capacity it left and
      the registration in force. */
  datatype Contact = Contact(instant: int, capacity: U32, registration: Registration)

  /** The runner's latest contact since the last start. */
  function LatestContact(s: State, actions: seq<Action>, id: string): Option<Contact> {
    if actions == [] then None
    else
      var before := actions[..|actions| - 1];
      match actions[|actions| - 1]
      case Register(r, clock, _) =>
        if r.runnerId == id then Some(Contact(clock.instant, r.maxConcurrency, r)) else LatestContact(s, before, id)
      case Receive(h, clock, _) =>
        if h.runnerId == id && id in Run(s, before).live then
          Some(Contact(clock.instant, h.capacityRemaining, Run(s, before).live[id].registration))
        else LatestContact(s, before, id)
      case Restart(_) => None
      case _ => LatestContact(s, before, id)
  }

  /** The live map right after the last start. */
  function LastStart(s: State, actions: seq<Action>): Runners {
    if actions == [] then s.live
    else if actions[|actions| - 1].Restart? then Run(s, actions).live
    else LastStart(s, actions[..|actions| - 1])
  }

  lemma {:induction false} RecordIsLatestContact(s: State, actions: seq<Action>, id: string)
    ensures var live, contact := Run(s, actions).live, LatestContact(s, actions, id);
      if contact.Some? then
        && id in live
        && live[id].lastSeen == contact.value.instant
        && live[id].capacityRemaining == contact.value.capacity
        && live[id].registration == contact.value.registration
      else RecordAt(live, id) == RecordAt(LastStart(s, actions), id)
  {
    if actions != [] {
      RecordIsLatestContact(s, actions[..|actions| - 1], id);
      StepRecord(Run(s, actions[..|actions| - 1]), actions[|actions| - 1], id);
    }
  }

  lemma StepRecord(s: State, a: Action, id: string)
    ensures RecordAt(Next(s, a).live, id) ==
      match a
      case Register(r, clock, _) => if r.runnerId == id then Some(NewRecord(r, clock)) else RecordAt(s.live, id)
      case Receive(h, clock, _) =>
        if h.runnerId == id && id in s.live then Some(AfterHeartbeat(s.live[id], h, clock)) else RecordAt(s.live, id)
      case Restart(clocks) => RecordAt(Start(s.enabled, s.lines, s.tail, clocks).live, id)
      case _ => RecordAt(s.live, id)
  {
  }

  /** Whole-run lease safety: dispatch offers a runner that had contact since the last start if and
      only if its latest contact is at most its lease ago and left capacity; any other one it
      offers only if the record that the start gave it is dispatchable. */
  lemma OfferedRunnersHaveLeases(s: State, actions: seq<Action>, id: string, now: int)
    requires id in Run(s, actions).live
    ensures var contact := LatestContact(s, actions, id);
      IsDispatchable(Run(s, actions).live[id], now) <==>
        if contact.Some? then
          && now - contact.value.instant <= contact.value.registration.leaseTtlSeconds * SECOND
          && contact.value.capacity > 0
        else id in LastStart(s, actions) && IsDispatchable(LastStart(s, actions)[id], now)
  {
    RecordIsLatestContact(s, actions, id);
  }

  // ---------------------------------------------------------------------------------------------
  // Records that a restart gives
  // ---------------------------------------------------------------------------------------------

  /** A replayed record takes its time from the last entry of its runner. */
  lemma {:induction false} ReplayedRecordTime(journal: seq<Entry>, clocks: nat -> Clock, id: string, k: nat)
    requires id in Replay(journal, clocks) && IsLastOf(journal, k, id)
    ensures var record := Replay(journal, clocks)[id];
      && record.lastSeen == InstantFromWallClock(journal[k].recordedAt, clocks(k))
      && record.lastSeenUnixSeconds == journal[k].recordedAt
  {
    var n := |journal| - 1;
    if k < n {
      assert forall j :: 0 <= j < n ==> journal[..n][j] == journal[j];
      ReplayedRecordTime(journal[..n], clocks, id, k);
    }
  }

  predicate IsLastOf(journal: seq<Entry>, k: nat, id: string) {
    k < |journal| && journal[k].RunnerId() == id && forall j :: k < j < |journal| ==> journal[j].RunnerId() != id
  }

  /** The monotonic clock can go back as far as the journal entry is old. */
  predicate CanRepresent(recordedAt: nat, clock: Clock) {
    UnixSeconds(clock.wall) <= recordedAt ||
    clock.instant - (UnixSeconds(clock.wall) - recordedAt) * SECOND >= clock.earliest
  }

  /** A record replayed at `clock` from an entry written at wall time `written`, looked at `later`
      nanoseconds after the replay: if the wall clock did not go back, its age is less than a
      second off the true time since it was written, exactly when the monotonic clock can represent
      the entry's age or the entry was less than a second old. */
  lemma ReplayedAgeIsWithinASecond(written: int, clock: Clock, later: nat)
    requires 0 <= written <= clock.wall
    ensures var age := DurationSince(clock.instant + later, InstantFromWallClock(UnixSeconds(written), clock));
      var trueAge := clock.wall + later - written;
      -SECOND < age - trueAge < SECOND <==>
        CanRepresent(UnixSeconds(written), clock) || clock.wall - written < SECOND
  {
    var recorded, now := UnixSeconds(written), UnixSeconds(clock.wall);
    assert written - SECOND < recorded * SECOND <= written;
    assert clock.wall - SECOND < now * SECOND <= clock.wall;
    WholeSecondsMonotone(written, clock.wall);
    if now == recorded {
      assert InstantFromWallClock(recorded, clock) == clock.instant;
    }
  }

  lemma WholeSecondsMonotone(a: int, b: int)
    requires 0 <= a <= b
    ensures a / SECOND <= b / SECOND
  {
  }

  /** Looked at `later` nanoseconds after the replay, the record is offered although its runner's
      last contact is a lease and a second or more ago. */
  predicate IsOverdue(record: Record, written: int, clock: Clock, later: nat) {
    && IsDispatchable(record, clock.instant + later)
    && clock.wall + later - written >= record.registration.leaseTtlSeconds * SECOND + SECOND
  }

  /** So a replayed runner with capacity whose last journalled contact is at most its lease less one
      second ago is dispatchable; and a dispatchable one had that contact less than its lease and
      one second ago, as long as the monotonic clock can represent the contact's age at the replay
      or the contact was then less than a second old. */
  lemma ReplayedLease(journal: seq<Entry>, clocks: nat -> Clock, id: string, k: nat, written: int, later: nat)
    requires id in Replay(journal, clocks) && IsLastOf(journal, k, id)
    requires journal[k].recordedAt == UnixSeconds(written)
    requires 0 <= written <= clocks(k).wall
    ensures var record, now := Replay(journal, clocks)[id], clocks(k).instant + later;
      var trueAge, ttl := clocks(k).wall + later - written, record.registration.leaseTtlSeconds * SECOND;
      && (trueAge <= ttl - SECOND && record.capacityRemaining > 0 ==> IsDispatchable(record, now))
      && (IsDispatchable(record, now) ==> record.capacityRemaining > 0)
      && (CanRepresent(UnixSeconds(written), clocks(k)) || clocks(k).wall - written < SECOND ==>
            IsDispatchable(record, now) ==> trueAge < ttl + SECOND)
  {
    ReplayedRecordTime(journal, clocks, id, k);
    ReplayedAgeIsWithinASecond(written, clocks(k), later);
  }

  /** These are exactly the cases: otherwise a replayed runner with capacity is offered too late at
      some time. */
  lemma OverdueIff(journal: seq<Entry>, clocks: nat -> Clock, id: string, k: nat, written: int)
    requires id in Replay(journal, clocks) && IsLastOf(journal, k, id)
    requires journal[k].recordedAt == UnixSeconds(written)
    requires 0 <= written <= clocks(k).wall
    ensures var record, clock := Replay(journal, clocks)[id], clocks(k);
      (exists later: nat :: IsOverdue(record, written, clock, later)) <==>
        && !CanRepresent(UnixSeconds(written), clock)
        && clock.wall - written >= SECOND
        && record.capacityRemaining > 0
  {
    var record, clock := Replay(journal, clocks)[id], clocks(k);
    if later: nat :| IsOverdue(record, written, clock, later) {
      ReplayedLease(journal, clocks, id, k, written, later);
    }
    if !CanRepresent(UnixSeconds(written), clock) && clock.wall - written >= SECOND && record.capacityRemaining > 0 {
      var ttl := record.registration.leaseTtlSeconds * SECOND;
      ReplayedRecordTime(journal, clocks, id, k);
      UnrepresentableAgeIsForgotten(record, UnixSeconds(written), clock, ttl);
      assert IsOverdue(record, written, clock, ttl);
    }
  }

  /** When the monotonic clock cannot go back that far, the record counts as seen at the replay,
      however old it is: dispatch offers it for a whole lease again. */
  lemma UnrepresentableAgeIsForgotten(record: Record, recordedAt: nat, clock: Clock, later: nat)
    requires record.lastSeen == InstantFromWallClock(recordedAt, clock) && !CanRepresent(recordedAt, clock)
    ensures IsDispatchable(record, clock.instant + later) <==>
      later <= record.registration.leaseTtlSeconds * SECOND && record.capacityRemaining > 0
  {
  }
}
