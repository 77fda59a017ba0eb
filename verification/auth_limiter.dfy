/**
 The failed-authentication throttle of the operator plane (cmd/proxy/operator.go):
 a table of sources that is bounded in size, lockouts that double, and the order
 in which the gate and the session handshake consult it. Times are nanoseconds
 from Go's zero time; requests are handled one after another.
 */
module AuthLimiter {

  const SECOND: int := 1_000_000_000
  const THRESHOLD: nat := 5
  const LOCKOUT_BASE: int := 10 * SECOND
  const LOCKOUT_MAX: int := 15 * 60 * SECOND
  const ENTRY_TTL: int := 30 * 60 * SECOND
  const MAX_SOURCES: nat := 4096
  const TWO_63: int := 0x8000_0000_0000_0000

  // ---- the lockout schedule ----

  function Pow2(k: nat): nat {
    if k == 0 then 1 else 2 * Pow2(k - 1)
  }

  /** The int64 that the bits of x spell. */
  function Wrap64(x: int): int {
    (x + TWO_63) % (2 * TWO_63) - TWO_63
  }

  function Min(a: nat, b: nat): nat {
    if a <= b then a else b
  }

  /** The lockout as the code computes it: a capped shift that could have wrapped. */
  function ShiftedLockout(failures: nat): int
    requires failures >= THRESHOLD
  {
    var shifted := Wrap64(LOCKOUT_BASE * Pow2(Min(failures - THRESHOLD, 16)));
    if shifted > LOCKOUT_MAX || shifted <= 0 then LOCKOUT_MAX else shifted
  }

  /** The lockout that the documentation promises: the base, doubled by every further failure up to the maximum. */
  function Lockout(failures: nat): (lockout: int)
    requires failures >= THRESHOLD
    ensures LOCKOUT_BASE <= lockout <= LOCKOUT_MAX
  {
    if failures == THRESHOLD then LOCKOUT_BASE
    else if 2 * Lockout(failures - 1) > LOCKOUT_MAX then LOCKOUT_MAX
    else 2 * Lockout(failures - 1)
  }

  lemma {:induction false} Pow2Monotone(j: nat, k: nat)
    requires j <= k
    ensures Pow2(j) <= Pow2(k)
  {
    if j < k {
      Pow2Monotone(j, k - 1);
    }
  }

  lemma {:induction false} SmallPowers()
    ensures Pow2(6) == 64 && Pow2(7) == 128 && Pow2(16) == 65536
  {
    assert Pow2(3) == 8;
    assert Pow2(6) == 64;
    assert Pow2(9) == 512;
    assert Pow2(12) == 4096;
    assert Pow2(15) == 32768;
  }

  lemma {:induction false} LockoutIsCappedPower(failures: nat)
    requires failures >= THRESHOLD
    ensures Lockout(failures) ==
            var uncapped := LOCKOUT_BASE * Pow2(failures - THRESHOLD);
            if uncapped > LOCKOUT_MAX then LOCKOUT_MAX else uncapped
    decreases failures
  {
    if failures > THRESHOLD {
      LockoutIsCappedPower(failures - 1);
    }
  }

  /** The shift never wraps, so the code's lockout is the promised one. */
  lemma {:induction false} ShiftIsDoubling(failures: nat)
    requires failures >= THRESHOLD
    ensures ShiftedLockout(failures) == Lockout(failures)
  {
    LockoutIsCappedPower(failures);
    SmallPowers();
    if failures - THRESHOLD > 16 {
      Pow2Monotone(16, failures - THRESHOLD);
      ShiftFits(16);
    } else {
      Pow2Monotone(0, failures - THRESHOLD);
      Pow2Monotone(failures - THRESHOLD, 16);
      ShiftFits(failures - THRESHOLD);
    }
  }

  lemma {:induction false} ShiftFits(k: nat)
    requires 1 <= Pow2(k) <= 65536
    ensures Wrap64(LOCKOUT_BASE * Pow2(k)) == LOCKOUT_BASE * Pow2(k) > 0
  {
  }

  // ---- the table ----

  datatype Entry = Entry(failures: nat, lockedUntil: nat, lastSeen: nat)

  const UNSEEN := Entry(0, 0, 0)

  type Table = map<string, Entry>

  predicate Live(e: Entry, now: nat) {
    now < e.lockedUntil
  }

  predicate Reapable(e: Entry, now: nat) {
    now - e.lastSeen >= ENTRY_TTL
  }

  function Max(a: nat, b: nat): nat {
    if a >= b then a else b
  }

  /** One more failure of a tracked source. */
  function Counted(e: Entry, now: nat): Entry {
    var failures := e.failures + 1;
    if failures < THRESHOLD then Entry(failures, e.lockedUntil, now)
    else Entry(failures, Max(e.lockedUntil, now + Lockout(failures)), now)
  }

  function Earned(e: Entry): int {
    if e.failures < THRESHOLD then 0 else Lockout(e.failures)
  }

  /**
   Whom an eviction may remove: any entry that is past its time; if there is
   none, the unlocked entry seen longest ago; if there is none either, the
   lockout that ends first.
   */
  ghost predicate Victim(entries: Table, key: string, now: nat) {
    && key in entries
    && (|| Reapable(entries[key], now)
        || ((forall k :: k in entries ==> !Reapable(entries[k], now))
            && !Live(entries[key], now)
            && forall k :: k in entries && !Live(entries[k], now) ==> entries[key].lastSeen <= entries[k].lastSeen)
        || ((forall k :: k in entries ==> !Reapable(entries[k], now) && Live(entries[k], now))
            && forall k :: k in entries ==> entries[key].lockedUntil <= entries[k].lockedUntil))
  }

  /** One entry may go, and it is a victim as long as no source has the empty name. */
  ghost predicate Evicted(before: Table, after: Table, now: nat) {
    || (after == before && (before == map[] || "" in before))
    || exists key :: key in before && after == before - {key} && ("" !in before ==> Victim(before, key, now))
  }

  ghost predicate MadeRoom(before: Table, after: Table, now: nat) {
    if |before| < MAX_SOURCES then after == before else Evicted(before, after, now)
  }

  ghost predicate FailureRecorded(before: Table, after: Table, ip: string, now: nat) {
    if ip in before then after == before[ip := Counted(before[ip], now)]
    else
      exists room ::
        && MadeRoom(before, room, now)
        && after == if |room| >= MAX_SOURCES then room else room[ip := Counted(UNSEEN, now)]
  }

  lemma {:induction false} NewcomerRecorded(before: Table, room: Table, after: Table, ip: string, now: nat)
    requires ip !in before && MadeRoom(before, room, now)
    requires after == if |room| >= MAX_SOURCES then room else room[ip := UNSEEN][ip := Counted(UNSEEN, now)]
    ensures FailureRecorded(before, after, ip, now)
  {
    assert room[ip := UNSEEN][ip := Counted(UNSEEN, now)] == room[ip := Counted(UNSEEN, now)];
  }

  class Limiter {
    var entries: Table

    constructor ()
      ensures entries == map[]
    {
      entries := map[];
    }

    /** Whether the source is locked out, and for how long in whole seconds. */
    method Locked(ip: string, now: nat) returns (locked: bool, retry: nat)
      ensures locked <==> ip in entries && Live(entries[ip], now)
      ensures retry % SECOND == 0
      ensures locked ==> entries[ip].lockedUntil <= now + retry < entries[ip].lockedUntil + SECOND
      ensures !locked ==> retry == 0
    {
      if ip !in entries || now >= entries[ip].lockedUntil {
        return false, 0;
      }
      var remaining := entries[ip].lockedUntil - now;
      var r := remaining % SECOND;
      if r != 0 {
        remaining := remaining + SECOND - r;
      }
      return true, remaining;
    }

    method Failure(ip: string, now: nat) returns (lockout: int)
      modifies this
      ensures FailureRecorded(old(entries), entries, ip, now)
      ensures lockout == if ip in entries then Earned(entries[ip]) else 0
    {
      if ip !in entries {
        if |entries| >= MAX_SOURCES {
          EvictOne(now);
        }
        ghost var room := entries;
        assert MadeRoom(old(entries), room, now);
        if |entries| >= MAX_SOURCES {
          NewcomerRecorded(old(entries), room, entries, ip, now);
          return 0;
        }
        entries := entries[ip := UNSEEN];
        lockout := Count(ip, now);
        NewcomerRecorded(old(entries), room, entries, ip, now);
      } else {
        lockout := Count(ip, now);
      }
    }

    method Count(ip: string, now: nat) returns (lockout: int)
      requires ip in entries
      modifies this
      ensures entries == old(entries)[ip := Counted(old(entries)[ip], now)]
      ensures lockout == Earned(entries[ip])
    {
      var e := entries[ip].(lastSeen := now, failures := entries[ip].failures + 1);
      entries := entries[ip := e];
      if e.failures < THRESHOLD {
        return 0;
      }
      lockout := ShiftedLockout(e.failures);
      ShiftIsDoubling(e.failures);
      var until := now + lockout;
      if until > e.lockedUntil {
        entries := entries[ip := e.(lockedUntil := until)];
      }
    }

    /** Scans in no particular order; the empty string stands for "none yet". */
    method EvictOne(now: nat)
      modifies this
      ensures Evicted(old(entries), entries, now)
    {
      var unlockedKey, lockedKey := "", "";
      var unlockedAt, lockedUntil := 0, 0;
      var rest := entries.Keys;
      while rest != {}
        invariant rest <= entries.Keys && entries == old(entries)
        invariant unlockedKey != "" ==>
                    unlockedKey in entries && !Live(entries[unlockedKey], now)
                      && entries[unlockedKey].lastSeen == unlockedAt
        invariant lockedKey != "" ==>
                    lockedKey in entries && Live(entries[lockedKey], now)
                      && entries[lockedKey].lockedUntil == lockedUntil
        invariant forall k :: k in entries && k !in rest ==> !Reapable(entries[k], now)
        invariant "" !in entries ==>
                    forall k :: k in entries && k !in rest ==>
                                  if Live(entries[k], now)
                                  then lockedKey != "" && lockedUntil <= entries[k].lockedUntil
                                  else unlockedKey != "" && unlockedAt <= entries[k].lastSeen
      {
        var key :| key in rest;
        rest := rest - {key};
        var e := entries[key];
        if now - e.lastSeen >= ENTRY_TTL {
          entries := entries - {key};
          return;
        }
        if now < e.lockedUntil {
          if lockedKey == "" || e.lockedUntil < lockedUntil {
            lockedKey, lockedUntil := key, e.lockedUntil;
          }
        } else if unlockedKey == "" || e.lastSeen < unlockedAt {
          unlockedKey, unlockedAt := key, e.lastSeen;
        }
      }
      if unlockedKey != "" {
        entries := entries - {unlockedKey};
        return;
      }
      if lockedKey != "" {
        entries := entries - {lockedKey};
        return;
      }
    }

    method Success(ip: string)
      modifies this
      ensures entries == old(entries) - {ip}
    {
      entries := entries - {ip};
    }
  }

  // ---- the gate and the handshake ----

  /**
   A request at the gate, or at the session handshake (which has no session
   cookie to show). The clock is read when the lockout is checked and again when
   a failure is counted.
   */
  datatype Request = Request(ip: string, session: bool, presented: bool, valid: bool, checkedAt: nat, countedAt: nat)

  datatype Outcome = Admitted | LockedOut(retry: nat) | Denied

  /** Whole seconds, none too few and none too many. */
  predicate CoversWait(retry: int, wait: int) {
    retry % SECOND == 0 && wait <= retry < wait + SECOND
  }

  /** What one request does to the table. */
  ghost predicate Handled(before: Table, after: Table, r: Request, outcome: Outcome) {
    if r.session then after == before && outcome == Admitted
    else if r.presented && r.valid then after == before - {r.ip} && outcome == Admitted
    else if r.ip in before && Live(before[r.ip], r.checkedAt) then
      && after == before
      && outcome.LockedOut? && CoversWait(outcome.retry, before[r.ip].lockedUntil - r.checkedAt)
    else
      && outcome == Denied
      && if r.presented then FailureRecorded(before, after, r.ip, r.countedAt) else after == before
  }

  method Admit(limiter: Limiter, r: Request) returns (outcome: Outcome)
    modifies limiter
    ensures Handled(old(limiter.entries), limiter.entries, r, outcome)
  {
    if r.session {
      return Admitted;
    }
    if r.presented && r.valid {
      limiter.Success(r.ip);
      return Admitted;
    }
    var locked, retry := limiter.Locked(r.ip, r.checkedAt);
    if locked {
      return LockedOut(retry);
    }
    if r.presented {
      var _ := limiter.Failure(r.ip, r.countedAt);
    }
    return Denied;
  }

  // ---- runs ----

  /** The times of the failures that were counted for each source since it was last forgotten. */
  type History = map<string, seq<nat>>

  function TimesOf(history: History, ip: string): seq<nat> {
    if ip in history then history[ip] else []
  }

  /** Keeps the history of the sources that are still tracked, and adds the failure just counted. */
  function Remember(history: History, after: Table, r: Request, outcome: Outcome): History {
    map ip | ip in after ::
      TimesOf(history, ip) + if ip == r.ip && r.presented && outcome == Denied then [r.countedAt] else []
  }

  /** Each failure after a lockout was earned waited for that lockout to end. */
  ghost predicate Spaced(times: seq<nat>) {
    forall k :: THRESHOLD <= k < |times| ==> WaitedFor(times, k)
  }

  /** The failure after the k-th came when the k-th's lockout was over. */
  ghost predicate WaitedFor(times: seq<nat>, k: nat)
    requires THRESHOLD <= k < |times|
  {
    times[k - 1] + Lockout(k) <= times[k]
  }

  /** What an entry says about the failures behind it. */
  ghost predicate Explains(e: Entry, times: seq<nat>) {
    && |times| == e.failures > 0
    && times[|times| - 1] == e.lastSeen
    && e.lockedUntil == (if e.failures < THRESHOLD then 0 else e.lastSeen + Lockout(e.failures))
    && Spaced(times)
  }

  ghost predicate Inv(entries: Table, history: History, clock: nat) {
    && |entries| <= MAX_SOURCES
    && history.Keys == entries.Keys
    && forall ip :: ip in entries ==> Explains(entries[ip], history[ip]) && entries[ip].lastSeen <= clock
  }

  lemma {:induction false} FirstFailure(now: nat)
    ensures Explains(Counted(UNSEEN, now), [now])
  {
  }

  lemma {:induction false} NextFailure(e: Entry, times: seq<nat>, checkedAt: nat, now: nat)
    requires Explains(e, times) && e.lastSeen <= checkedAt <= now && !Live(e, checkedAt)
    ensures Explains(Counted(e, now), times + [now])
  {
    var longer := times + [now];
    assert longer[|longer| - 1] == now;
    forall k | THRESHOLD <= k < |longer|
      ensures WaitedFor(longer, k)
    {
      assert k < |times| ==> WaitedFor(times, k);
    }
  }

  lemma {:induction false} SubsetIsSmaller(a: set<string>, b: set<string>)
    requires a <= b
    ensures |a| <= |b|
    ensures a != b ==> |a| < |b|
  {
    if a != {} {
      var x :| x in a;
      SubsetIsSmaller(a - {x}, b - {x});
    }
  }

  lemma {:induction false} Fewer(entries: Table, keys: set<string>)
    ensures |entries - keys| <= |entries|
  {
    assert (entries - keys).Keys <= entries.Keys;
    SubsetIsSmaller((entries - keys).Keys, entries.Keys);
    assert |entries - keys| == |(entries - keys).Keys| && |entries| == |entries.Keys|;
  }

  /** A table that only lost entries keeps what its entries explain. */
  ghost predicate Shrunk(before: Table, after: Table) {
    after.Keys <= before.Keys && forall k :: k in after ==> after[k] == before[k]
  }

  lemma {:induction false} RoomShrinks(before: Table, room: Table, now: nat)
    requires MadeRoom(before, room, now)
    ensures Shrunk(before, room) && |room| <= |before|
  {
    if |before| >= MAX_SOURCES && room != before {
      var key :| key in before && room == before - {key};
      Fewer(before, {key});
    }
  }

  function CountedSources(r: Request, outcome: Outcome): set<string> {
    if r.presented && outcome == Denied then {r.ip} else {}
  }

  /** The entries of the other sources, and of this one when nothing was counted. */
  lemma {:induction false} UntouchedEntries(before: Table, after: Table, history: History, clock: nat, r: Request,
                                            outcome: Outcome)
    requires Inv(before, history, clock) && Handled(before, after, r, outcome)
    ensures forall ip :: ip in after && ip !in CountedSources(r, outcome) ==>
              && ip in before && after[ip] == before[ip]
              && ip in history && Remember(history, after, r, outcome)[ip] == history[ip]
  {
    if outcome == Denied && r.presented && r.ip !in before {
      var room :| MadeRoom(before, room, r.countedAt)
                  && after == if |room| >= MAX_SOURCES then room else room[r.ip := Counted(UNSEEN, r.countedAt)];
      RoomShrinks(before, room, r.countedAt);
    }
    forall ip | ip in after && ip !in CountedSources(r, outcome)
      ensures ip in before && after[ip] == before[ip]
      ensures Remember(history, after, r, outcome)[ip] == history[ip]
    {
      assert history[ip] + [] == history[ip];
    }
  }

  lemma {:induction false} CountedEntry(before: Table, after: Table, history: History, clock: nat, r: Request,
                                        outcome: Outcome)
    requires Inv(before, history, clock) && Handled(before, after, r, outcome)
    requires clock <= r.checkedAt <= r.countedAt
    requires r.presented && outcome == Denied && r.ip in after
    ensures Explains(after[r.ip], Remember(history, after, r, outcome)[r.ip])
    ensures after[r.ip].lastSeen <= r.countedAt
  {
    if r.ip in before {
      NextFailure(before[r.ip], history[r.ip], r.checkedAt, r.countedAt);
    } else {
      var room :| MadeRoom(before, room, r.countedAt)
                  && after == if |room| >= MAX_SOURCES then room else room[r.ip := Counted(UNSEEN, r.countedAt)];
      RoomShrinks(before, room, r.countedAt);
      FirstFailure(r.countedAt);
      assert TimesOf(history, r.ip) + [r.countedAt] == [r.countedAt];
    }
  }

  lemma {:induction false} SizeIsBounded(before: Table, after: Table, r: Request, outcome: Outcome)
    requires |before| <= MAX_SOURCES && Handled(before, after, r, outcome)
    ensures |after| <= MAX_SOURCES
  {
    if outcome == Denied && r.presented && r.ip !in before {
      var room :| MadeRoom(before, room, r.countedAt)
                  && after == if |room| >= MAX_SOURCES then room else room[r.ip := Counted(UNSEEN, r.countedAt)];
      RoomShrinks(before, room, r.countedAt);
    } else if r.presented && r.valid && !r.session {
      Fewer(before, {r.ip});
    } else {
      assert after.Keys == before.Keys;
      assert |after| == |after.Keys| && |before| == |before.Keys|;
    }
  }

  ghost predicate Stayed(before: Table, after: Table, history: History, history': History, counted: set<string>) {
    && history'.Keys == after.Keys
    && forall ip :: ip in after && ip !in counted ==>
                      && ip in before && after[ip] == before[ip]
                      && ip in history && history'[ip] == history[ip]
  }

  ghost predicate Recorded(after: Table, history': History, counted: set<string>, now: nat) {
    forall ip :: ip in after && ip in counted ==>
                   ip in history' && Explains(after[ip], history'[ip]) && after[ip].lastSeen <= now
  }

  lemma {:induction false} InvFromParts(before: Table, after: Table, history: History, history': History,
                                        counted: set<string>, clock: nat, now: nat)
    requires Inv(before, history, clock) && clock <= now && |after| <= MAX_SOURCES
    requires Stayed(before, after, history, history', counted) && Recorded(after, history', counted, now)
    ensures Inv(after, history', now)
  {
    forall ip | ip in after
      ensures Explains(after[ip], history'[ip]) && after[ip].lastSeen <= now
    {
      if ip !in counted {
        assert ip in before;
      }
    }
  }

  lemma {:induction false} OthersStayed(before: Table, after: Table, history: History, clock: nat, r: Request,
                                        outcome: Outcome)
    requires Inv(before, history, clock) && Handled(before, after, r, outcome)
    ensures Stayed(before, after, history, Remember(history, after, r, outcome), CountedSources(r, outcome))
  {
    UntouchedEntries(before, after, history, clock, r, outcome);
  }

  lemma {:induction false} FailureRemembered(before: Table, after: Table, history: History, clock: nat, r: Request,
                                             outcome: Outcome)
    requires Inv(before, history, clock) && Handled(before, after, r, outcome)
    requires clock <= r.checkedAt <= r.countedAt
    ensures Recorded(after, Remember(history, after, r, outcome), CountedSources(r, outcome), r.countedAt)
  {
    forall ip | ip in after && ip in CountedSources(r, outcome)
      ensures Explains(after[ip], Remember(history, after, r, outcome)[ip]) && after[ip].lastSeen <= r.countedAt
    {
      CountedEntry(before, after, history, clock, r, outcome);
    }
  }

  /** The invariant over one request. */
  lemma {:induction false} HandledKeepsInv(before: Table, after: Table, history: History, clock: nat, r: Request,
                                           outcome: Outcome)
    requires Inv(before, history, clock) && Handled(before, after, r, outcome)
    requires clock <= r.checkedAt <= r.countedAt
    ensures Inv(after, Remember(history, after, r, outcome), r.countedAt)
  {
    SizeIsBounded(before, after, r, outcome);
    OthersStayed(before, after, history, clock, r, outcome);
    FailureRemembered(before, after, history, clock, r, outcome);
    InvFromParts(before, after, history, Remember(history, after, r, outcome), CountedSources(r, outcome), clock,
                 r.countedAt);
  }

  /** Requests handled one after another, from an empty table, under a clock that never goes back. */
  datatype Run = Run(tables: seq<Table>, requests: seq<Request>, outcomes: seq<Outcome>)

  function ClockAt(run: Run, i: nat): nat
    requires i <= |run.requests|
  {
    if i == 0 then 0 else run.requests[i - 1].countedAt
  }

  ghost predicate IsRun(run: Run) {
    && |run.tables| == |run.requests| + 1 && |run.outcomes| == |run.requests|
    && run.tables[0] == map[]
    && forall i :: 0 <= i < |run.requests| ==>
                     && Handled(run.tables[i], run.tables[i + 1], run.requests[i], run.outcomes[i])
                     && ClockAt(run, i) <= run.requests[i].checkedAt <= run.requests[i].countedAt
  }

  function HistoryAt(run: Run, i: nat): History
    requires IsRun(run) && i <= |run.requests|
  {
    if i == 0 then map[]
    else Remember(HistoryAt(run, i - 1), run.tables[i], run.requests[i - 1], run.outcomes[i - 1])
  }

  lemma {:induction false} InvariantOverRuns(run: Run, i: nat)
    requires IsRun(run) && i <= |run.requests|
    ensures Inv(run.tables[i], HistoryAt(run, i), ClockAt(run, i))
  {
    if i > 0 {
      InvariantOverRuns(run, i - 1);
      HandledKeepsInv(run.tables[i - 1], run.tables[i], HistoryAt(run, i - 1), ClockAt(run, i - 1),
                      run.requests[i - 1], run.outcomes[i - 1]);
    }
  }

  // ---- what the throttle is for ----

  /** The lockouts issued from the fifth failure up to, but not including, the k-th. */
  function LockoutsBefore(k: nat): int
    requires k >= THRESHOLD
  {
    if k == THRESHOLD then 0 else LockoutsBefore(k - 1) + Lockout(k - 1)
  }

  lemma {:induction false} GuessesWait(times: seq<nat>, k: nat)
    requires Spaced(times) && THRESHOLD <= k <= |times|
    ensures times[k - 1] >= times[THRESHOLD - 1] + LockoutsBefore(k)
    decreases k
  {
    if k > THRESHOLD {
      GuessesWait(times, k - 1);
      assert WaitedFor(times, k - 1);
    }
  }

  lemma {:induction false} DoublingPhase()
    ensures LockoutsBefore(12) == 1270 * SECOND && Lockout(12) == LOCKOUT_MAX
  {
    assert LockoutsBefore(6) == 10 * SECOND && Lockout(6) == 20 * SECOND;
    assert LockoutsBefore(7) == 30 * SECOND && Lockout(7) == 40 * SECOND;
    assert LockoutsBefore(8) == 70 * SECOND && Lockout(8) == 80 * SECOND;
    assert LockoutsBefore(9) == 150 * SECOND && Lockout(9) == 160 * SECOND;
    assert LockoutsBefore(10) == 310 * SECOND && Lockout(10) == 320 * SECOND;
    assert LockoutsBefore(11) == 630 * SECOND && Lockout(11) == 640 * SECOND;
  }

  /** From the twelfth failure on every further guess costs the full quarter of an hour. */
  lemma {:induction false} WaitGrowsLinearly(k: nat)
    requires k >= 12
    ensures LockoutsBefore(k) == 1270 * SECOND + (k - 12) * LOCKOUT_MAX
    ensures Lockout(k) == LOCKOUT_MAX
    decreases k
  {
    if k == 12 {
      DoublingPhase();
    } else {
      WaitGrowsLinearly(k - 1);
    }
  }

  /**
   In every run: the table is bounded; a lockout ends within the maximum of the
   last failure; an entry that may be reaped is never locked; and the k-th
   counted failure of a tracked source comes no earlier than its fifth plus all
   the lockouts issued in between.
   */
  lemma {:induction false} Throttled(run: Run, i: nat)
    requires IsRun(run) && i <= |run.requests|
    ensures |run.tables[i]| <= MAX_SOURCES
    ensures forall ip :: ip in run.tables[i] ==>
              var e, times := run.tables[i][ip], TimesOf(HistoryAt(run, i), ip);
              && e.lockedUntil <= e.lastSeen + LOCKOUT_MAX
              && (forall now: nat :: Reapable(e, now) ==> !Live(e, now))
              && |times| == e.failures
              && forall k :: THRESHOLD <= k <= |times| ==> times[k - 1] >= times[THRESHOLD - 1] + LockoutsBefore(k)
  {
    InvariantOverRuns(run, i);
    forall ip | ip in run.tables[i]
      ensures run.tables[i][ip].lockedUntil <= run.tables[i][ip].lastSeen + LOCKOUT_MAX
      ensures var times := TimesOf(HistoryAt(run, i), ip);
              && |times| == run.tables[i][ip].failures
              && forall k :: THRESHOLD <= k <= |times| ==> times[k - 1] >= times[THRESHOLD - 1] + LockoutsBefore(k)
    {
      var e, times := run.tables[i][ip], TimesOf(HistoryAt(run, i), ip);
      assert Explains(e, times);
      forall k | THRESHOLD <= k <= |times|
        ensures times[k - 1] >= times[THRESHOLD - 1] + LockoutsBefore(k)
      {
        GuessesWait(times, k);
      }
    }
  }

  /**
   A source that loses a live lockout to another source's request: the table was
   full, and every source in it was under a live lockout that ends no earlier.
   The empty name, which no connection has, is the scan's "none yet".
   */
  lemma {:induction false} LiveLockoutsGoLast(run: Run, i: nat, key: string)
    requires IsRun(run) && i < |run.requests|
    requires "" !in run.tables[i]
    requires key in run.tables[i] && key !in run.tables[i + 1] && key != run.requests[i].ip
    requires Live(run.tables[i][key], run.requests[i].countedAt)
    ensures |run.tables[i]| == MAX_SOURCES
    ensures forall k :: k in run.tables[i] ==>
              && Live(run.tables[i][k], run.requests[i].countedAt)
              && run.tables[i][key].lockedUntil <= run.tables[i][k].lockedUntil
  {
    var before, after, r := run.tables[i], run.tables[i + 1], run.requests[i];
    Throttled(run, i);
    assert Handled(before, after, r, run.outcomes[i]);
    var room :| MadeRoom(before, room, r.countedAt)
                && after == if |room| >= MAX_SOURCES then room else room[r.ip := Counted(UNSEEN, r.countedAt)];
    assert Victim(before, key, r.countedAt);
  }

  /** At capacity a new source takes a victim's place: its failure is always counted. */
  lemma {:induction false} NewcomersAreTracked(before: Table, after: Table, ip: string, now: nat)
    requires |before| <= MAX_SOURCES && "" !in before
    requires FailureRecorded(before, after, ip, now)
    ensures ip in after
    ensures ip !in before ==> after[ip] == Counted(UNSEEN, now)
  {
    if ip !in before {
      var room :| MadeRoom(before, room, now)
                  && after == if |room| >= MAX_SOURCES then room else room[ip := Counted(UNSEEN, now)];
      if |before| == MAX_SOURCES {
        assert before != map[];
        var key :| key in before && room == before - {key};
        assert room.Keys == before.Keys - {key};
        assert |room| == |room.Keys| && |before| == |before.Keys|;
      }
    }
  }

  // ---- the answers, told of the request and of what is known of its source ----

  predicate HasCredential(r: Request) {
    r.session || (r.presented && r.valid)
  }

  /**
   The answer to a request. A session or a valid credential is always admitted,
   locked out or not. Any other request of a source under a lockout is told to wait
   for it, in whole seconds. The rest are denied.
   */
  lemma {:induction false} AnswerIs(before: Table, after: Table, r: Request, outcome: Outcome)
    requires Handled(before, after, r, outcome)
    ensures outcome == Admitted <==> HasCredential(r)
    ensures outcome.LockedOut? <==>
              !HasCredential(r) && r.ip in before && r.checkedAt < before[r.ip].lockedUntil
    ensures outcome.LockedOut? ==>
              && outcome.retry % 1_000_000_000 == 0 && outcome.retry >= 1_000_000_000
              && before[r.ip].lockedUntil <= r.checkedAt + outcome.retry
              && r.checkedAt + outcome.retry < before[r.ip].lockedUntil + 1_000_000_000
  {
  }

  /**
   What a request leaves behind. A valid credential forgets its source, and only
   that one. A wrong credential of a tracked source outside a lockout counts as
   one more failure, and touches no other source. Every other request of a
   tracked source leaves the table as it was.
   */
  lemma {:induction false} TraceLeft(before: Table, after: Table, r: Request, outcome: Outcome)
    requires Handled(before, after, r, outcome)
    ensures !r.session && r.presented && r.valid ==>
              after == map ip | ip in before && ip != r.ip :: before[ip]
    ensures outcome == Denied && r.presented && r.ip in before ==>
              && after.Keys == before.Keys
              && after[r.ip].failures == before[r.ip].failures + 1 && after[r.ip].lastSeen == r.countedAt
              && forall ip :: ip in before && ip != r.ip ==> after[ip] == before[ip]
    ensures r.session || outcome.LockedOut? || !r.presented ==> after == before
  {
  }

  /** The lockout of the n-th failure: none before the fifth, then ten seconds doubling up to a quarter of an hour. */
  function SecondsOf(n: nat): nat {
    if n < 5 then 0
    else if n == 5 then 10
    else if n == 6 then 20
    else if n == 7 then 40
    else if n == 8 then 80
    else if n == 9 then 160
    else if n == 10 then 320
    else if n == 11 then 640
    else 900
  }

  lemma {:induction false} LockoutSeconds(n: nat)
    requires n >= THRESHOLD
    ensures Lockout(n) == SecondsOf(n) * 1_000_000_000
    decreases n
  {
    if n > THRESHOLD {
      LockoutSeconds(n - 1);
    }
  }

  /** A source stays locked out for the seconds of its last failure; a failure never shortens a lockout. */
  lemma {:induction false} CountedFigures(e: Entry, now: nat)
    ensures var counted := Counted(e, now);
            && counted.failures == e.failures + 1 && counted.lastSeen == now
            && counted.lockedUntil == if counted.failures < 5 then e.lockedUntil
                                      else Max(e.lockedUntil, now + SecondsOf(counted.failures) * 1_000_000_000)
  {
    if e.failures + 1 >= THRESHOLD {
      LockoutSeconds(e.failures + 1);
    }
  }

  /** The request has no credential, and its source has to wait after failures at these times. */
  predicate Waits(r: Request, times: seq<nat>) {
    && !HasCredential(r) && |times| >= 5
    && r.checkedAt < times[|times| - 1] + SecondsOf(|times|) * 1_000_000_000
  }

  lemma {:induction false} RequestIsHandled(run: Run, i: nat)
    requires IsRun(run) && i < |run.requests|
    ensures Handled(run.tables[i], run.tables[i + 1], run.requests[i], run.outcomes[i])
  {
  }

  lemma {:induction false} LockedByHistory(entries: Table, history: History, clock: nat, ip: string, now: nat)
    requires Inv(entries, history, clock)
    ensures var times := TimesOf(history, ip);
            ip in entries && now < entries[ip].lockedUntil <==>
              |times| >= 5 && now < times[|times| - 1] + SecondsOf(|times|) * 1_000_000_000
  {
    if ip in entries {
      assert Explains(entries[ip], history[ip]);
      if entries[ip].failures >= THRESHOLD {
        LockoutSeconds(entries[ip].failures);
      }
    }
  }

  lemma {:induction false} AnswerByHistory(before: Table, after: Table, history: History, clock: nat, r: Request,
                                           outcome: Outcome)
    requires Inv(before, history, clock) && Handled(before, after, r, outcome)
    ensures outcome.LockedOut? <==> Waits(r, TimesOf(history, r.ip))
  {
    AnswerIs(before, after, r, outcome);
    LockedByHistory(before, history, clock, r.ip, r.checkedAt);
  }

  /**
   When a run locks a source out: it has no credential, five failures or more
   were counted for it since it was last forgotten, and the seconds that the last
   of them earned are not over.
   */
  lemma {:induction false} LockedOutIff(run: Run, i: nat)
    requires IsRun(run) && i < |run.requests|
    ensures run.outcomes[i].LockedOut? <==> Waits(run.requests[i], TimesOf(HistoryAt(run, i), run.requests[i].ip))
  {
    InvariantOverRuns(run, i);
    RequestIsHandled(run, i);
    AnswerByHistory(run.tables[i], run.tables[i + 1], HistoryAt(run, i), ClockAt(run, i), run.requests[i],
                    run.outcomes[i]);
  }

  /** The bounds of the table in figures: 4096 sources, and half an hour after which an entry may be reaped. */
  lemma {:induction false} BoundsInFigures(run: Run, i: nat, ip: string, now: nat)
    requires IsRun(run) && i <= |run.requests|
    ensures |run.tables[i]| <= 4096
    ensures ip in run.tables[i] ==>
              && run.tables[i][ip].lockedUntil <= run.tables[i][ip].lastSeen + 900 * 1_000_000_000
              && (Reapable(run.tables[i][ip], now) <==>
                    now >= run.tables[i][ip].lastSeen + 1800 * 1_000_000_000)
  {
    Throttled(run, i);
  }
}
