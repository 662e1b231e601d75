/** Runner records, the journal entries that restore them, and the clocks both depend on. Times are
    in nanoseconds. */
module RunnerModel {
  import opened Text

  const SECOND := 1_000_000_000
  const U32_MAX := 0xFFFF_FFFF

  type U32 = n: nat | n <= U32_MAX

  /** What the registry looks at in a registration. */
  datatype Registration = Registration(
    runnerId: string,
    roles: seq<string>,
    labels: map<string, string>,
    maxConcurrency: U32,
    leaseTtlSeconds: nat)

  datatype Heartbeat = Heartbeat(runnerId: string, runningTasks: U32, capacityRemaining: U32)

  /** One reading of the two clocks: the monotonic one, with the earliest instant it can
      represent, and the wall clock relative to the Unix epoch. */
  datatype Clock = Clock(instant: int, earliest: int, wall: int)

  function UnixSeconds(wall: int): nat {
    if wall < 0 then 0 else wall / SECOND
  }

  /** `Instant::duration_since`, which is zero when the earlier instant is the later one. */
  function DurationSince(now: int, earlier: int): nat {
    if now < earlier then 0 else now - earlier
  }

  datatype Record = Record(
    registration: Registration,
    lastSeen: int,
    lastSeenUnixSeconds: nat,
    runningTasks: U32,
    capacityRemaining: U32)

  function NewRecord(registration: Registration, clock: Clock): Record {
    Record(registration, clock.instant, UnixSeconds(clock.wall), 0, registration.maxConcurrency)
  }

  function AfterHeartbeat(record: Record, heartbeat: Heartbeat, clock: Clock): Record {
    Record(record.registration, clock.instant, UnixSeconds(clock.wall),
           heartbeat.runningTasks, heartbeat.capacityRemaining)
  }

  function LeaseTtl(registration: Registration): nat {
    registration.leaseTtlSeconds * SECOND
  }

  predicate IsDispatchable(record: Record, now: int) {
    DurationSince(now, record.lastSeen) <= LeaseTtl(record.registration) && record.capacityRemaining > 0
  }

  datatype Status = Status(
    registration: Registration,
    runningTasks: U32,
    capacityRemaining: U32,
    lastSeenAgeSeconds: nat,
    dispatchable: bool,
    stale: bool,
    full: bool)

  function StatusOf(record: Record, now: int): Status {
    var age := DurationSince(now, record.lastSeen);
    var stale := age > LeaseTtl(record.registration);
    var full := record.capacityRemaining == 0;
    Status(record.registration, record.runningTasks, record.capacityRemaining, age / SECOND,
           !stale && !full, stale, full)
  }

  // ---------------------------------------------------------------------------------------------
  // Journal entries
  // ---------------------------------------------------------------------------------------------

  datatype Entry =
    | Registered(registration: Registration, recordedAt: nat)
    | Beat(heartbeat: Heartbeat, recordedAt: nat)
  {
    function RunnerId(): string {
      if Registered? then registration.runnerId else heartbeat.runnerId
    }
  }

  type Runners = map<string, Record>

  function InstantFromWallClock(recordedAt: nat, clock: Clock): int {
    var now := UnixSeconds(clock.wall);
    var elapsed := if now < recordedAt then 0 else now - recordedAt;
    var instant := clock.instant - elapsed * SECOND;
    if instant < clock.earliest then clock.instant else instant
  }

  function ApplyJournalEntry(runners: Runners, entry: Entry, clock: Clock): Runners {
    match entry
    case Registered(registration, recordedAt) =>
      runners[registration.runnerId :=
        NewRecord(registration, clock)
          .(lastSeenUnixSeconds := recordedAt, lastSeen := InstantFromWallClock(recordedAt, clock))]
    case Beat(heartbeat, recordedAt) =>
      if heartbeat.runnerId in runners then
        runners[heartbeat.runnerId :=
          Record(runners[heartbeat.runnerId].registration, InstantFromWallClock(recordedAt, clock), recordedAt,
                 heartbeat.runningTasks, heartbeat.capacityRemaining)]
      else runners
  }

  /** The replay of a journal; `clocks` gives the clock reading at each entry. */
  function Replay(journal: seq<Entry>, clocks: nat -> Clock): Runners {
    if journal == [] then map[]
    else
      var n := |journal| - 1;
      ApplyJournalEntry(Replay(journal[..n], clocks), journal[n], clocks(n))
  }

  // ---------------------------------------------------------------------------------------------
  // The part of a record that does not depend on a clock
  // ---------------------------------------------------------------------------------------------

  datatype Load = Load(registration: Registration, runningTasks: U32, capacityRemaining: U32)

  function LoadOf(record: Record): Load {
    Load(record.registration, record.runningTasks, record.capacityRemaining)
  }

  function LoadAt(runners: Runners, id: string): Option<Load> {
    if id in runners then Some(LoadOf(runners[id])) else None
  }

  /** What one entry makes of the load of its own runner. */
  function NextLoad(load: Option<Load>, entry: Entry): Option<Load> {
    match entry
    case Registered(registration, _) => Some(Load(registration, 0, registration.maxConcurrency))
    case Beat(heartbeat, _) =>
      if load.None? then None
      else Some(Load(load.value.registration, heartbeat.runningTasks, heartbeat.capacityRemaining))
  }

  lemma ApplyLoadAt(runners: Runners, entry: Entry, clock: Clock, id: string)
    ensures LoadAt(ApplyJournalEntry(runners, entry, clock), id) ==
      if id == entry.RunnerId() then NextLoad(LoadAt(runners, id), entry) else LoadAt(runners, id)
  {
  }

  /** Entries of different runners commute: replay order matters only within one runner. */
  lemma EntriesOfDifferentRunnersCommute(runners: Runners, a: Entry, b: Entry, atA: Clock, atB: Clock)
    requires a.RunnerId() != b.RunnerId()
    ensures ApplyJournalEntry(ApplyJournalEntry(runners, a, atA), b, atB) ==
      ApplyJournalEntry(ApplyJournalEntry(runners, b, atB), a, atA)
  {
    var left := ApplyJournalEntry(ApplyJournalEntry(runners, a, atA), b, atB);
    var right := ApplyJournalEntry(ApplyJournalEntry(runners, b, atB), a, atA);
    assert left.Keys == right.Keys;
    assert forall id :: id in left ==> left[id] == right[id];
  }
}
