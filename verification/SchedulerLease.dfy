/** One lease row per lease name, shared by any number of scheduler workers: time-limited, renewed only by acquiring
    again, and released only by its owner. */
module SchedulerLease {
  import opened Text

  /** `acquiredAt` is written on insert only; taking over a row keeps the first acquirer's time. */
  datatype Lease = Lease(owner: string, acquiredAt: nat, heartbeatAt: nat, expiresAt: nat)

  type Rows = map<string, Lease>

  /** The `WHERE` clause of the upsert, or no conflicting row at all. */
  predicate Available(rows: Rows, name: string, owner: string, now: nat) {
    name !in rows || rows[name].expiresAt <= now || rows[name].owner == owner
  }

  function Acquired(rows: Rows, name: string, owner: string, ttl: nat, now: nat): Rows {
    if !Available(rows, name, owner, now) then rows
    else rows[name := Lease(owner, if name in rows then rows[name].acquiredAt else now, now, now + ttl)]
  }

  function Released(rows: Rows, name: string, owner: string): Rows {
    if name in rows && rows[name].owner == owner then rows - {name} else rows
  }

  class LeaseTable {
    var rows: Rows

    constructor ()
      ensures rows == map[]
    {
      rows := map[];
    }

    method AcquireSchedulerLease(name: string, owner: string, ttl: nat, now: nat) returns (acquired: bool)
      modifies this
      ensures acquired == old(Available(rows, name, owner, now))
      ensures rows == Acquired(old(rows), name, owner, ttl, now)
      ensures acquired <==> name !in old(rows) || old(rows)[name].expiresAt <= now || old(rows)[name].owner == owner
      ensures acquired ==>
                name in rows && rows[name] == Lease(owner, if name in old(rows) then old(rows)[name].acquiredAt else now, now, now + ttl)
      ensures !acquired ==> rows == old(rows)
      ensures forall n :: n != name ==> (n in rows <==> n in old(rows)) && (n in rows ==> rows[n] == old(rows)[n])
    {
      var expiresAt := now + ttl;
      if name !in rows {
        rows := rows[name := Lease(owner, now, now, expiresAt)];
        return true;
      }
      var row := rows[name];
      acquired := row.expiresAt <= now || row.owner == owner;
      if acquired {
        rows := rows[name := row.(owner := owner, heartbeatAt := now, expiresAt := expiresAt)];
      }
    }

    method ReleaseSchedulerLease(name: string, owner: string)
      modifies this
      ensures rows == Released(old(rows), name, owner)
      ensures forall n :: n in old(rows) && old(rows)[n].owner != owner ==> n in rows && rows[n] == old(rows)[n]
      ensures name in rows <==> name in old(rows) && old(rows)[name].owner != owner
      ensures forall n :: n != name ==> (n in rows <==> n in old(rows)) && (n in rows ==> rows[n] == old(rows)[n])
    {
      if name in rows && rows[name].owner == owner {
        rows := rows - {name};
      }
    }
  }

  const HELD := "scheduler lease held by another worker"

  datatype RunResult = RunResult(runId: string, completedAt: nat, error: Option<string>)

  /** The worker side: one attempt either runs or is skipped, and a leased run gives its lease back. */
  class RunScheduler {
    const ownerId: string
    const leases: LeaseTable?
    var leaseName: string
    var leaseTtl: nat
    var lastRun: Option<RunResult>
    var runsStarted: nat
    var leaseSkips: nat
    var lastError: Option<string>

    constructor (ownerId: string, leases: LeaseTable?, leaseName: string, leaseTtl: nat)
      ensures this.ownerId == ownerId && this.leases == leases
      ensures this.leaseName == leaseName && this.leaseTtl == leaseTtl
      ensures lastRun == None && runsStarted == 0 && leaseSkips == 0 && lastError == None
    {
      this.ownerId, this.leases, this.leaseName, this.leaseTtl := ownerId, leases, leaseName, leaseTtl;
      lastRun, runsStarted, leaseSkips, lastError := None, 0, 0, None;
    }

    method AcquireLease(now: nat) returns (acquired: bool)
      modifies leases
      ensures leases == null ==> acquired
      ensures leases != null ==> acquired == old(Available(leases.rows, leaseName, ownerId, now))
      ensures leases != null ==> leases.rows == Acquired(old(leases.rows), leaseName, ownerId, leaseTtl, now)
    {
      if leases == null {
        return true;
      }
      acquired := leases.AcquireSchedulerLease(leaseName, ownerId, leaseTtl, now);
    }

    method ReleaseLease()
      modifies leases
      ensures leases != null ==> leases.rows == Released(old(leases.rows), leaseName, ownerId)
    {
      if leases != null {
        leases.ReleaseSchedulerLease(leaseName, ownerId);
      }
    }

    /** `failure` is what the runner raised, if anything; no other worker acts during this call. */
    method RunNow(requireLease: bool, runId: string, now: nat, completedAt: nat, failure: Option<string>)
      returns (result: RunResult)
      modifies this, leases
      ensures leaseName == old(leaseName) && leaseTtl == old(leaseTtl)
      ensures lastRun == Some(result) && lastError == result.error && result.runId == runId
      ensures var runs := !requireLease || leases == null || old(Available(leases.rows, leaseName, ownerId, now));
              && runsStarted == old(runsStarted) + (if runs then 1 else 0)
              && leaseSkips == old(leaseSkips) + (if runs then 0 else 1)
              && result == RunResult(runId, completedAt, if runs then failure else Some("scheduler lease held by another worker"))
      ensures leases != null ==>
        leases.rows == if requireLease && old(Available(leases.rows, leaseName, ownerId, now))
                       then old(leases.rows) - {leaseName}
                       else old(leases.rows)
    {
      if requireLease {
        var acquired := AcquireLease(now);
        if !acquired {
          leaseSkips := leaseSkips + 1;
          result := RunResult(runId, completedAt, Some(HELD));
          lastRun, lastError := Some(result), result.error;
          return;
        }
      }
      runsStarted := runsStarted + 1;
      lastError := failure;
      result := RunResult(runId, completedAt, failure);
      if requireLease {
        ReleaseLease();
      }
      lastRun := Some(result);
    }
  }

  // ---- any number of workers, any interleaving ----

  /** A leased run knows when it acquired and until when its lease lasts; `turn` numbers the acquisitions. */
  datatype Run = Run(name: string, turn: nat, acquiredAt: nat, expiresAt: nat)

  /** `runs` holds the owners that are inside a leased run. */
  datatype State = State(now: nat, turns: nat, rows: Rows, runs: map<string, Run>)

  datatype Step =
    | Tick(delay: nat)
    | Acquire(owner: string, name: string, ttl: nat)
    | Finish(owner: string)
    | Crash(owner: string)

  const START := State(0, 0, map[], map[])

  /** A worker starts no second leased run inside its first; a crash ends a run without releasing the lease. */
  predicate Enabled(s: State, step: Step) {
    match step
    case Tick(_) => true
    case Acquire(owner, _, _) => owner !in s.runs
    case Finish(owner) => owner in s.runs
    case Crash(owner) => owner in s.runs
  }

  function Next(s: State, step: Step): State
    requires Enabled(s, step)
  {
    match step
    case Tick(delay) => s.(now := s.now + delay)
    case Acquire(owner, name, ttl) =>
      if Available(s.rows, name, owner, s.now) then
        State(s.now, s.turns + 1, Acquired(s.rows, name, owner, ttl, s.now),
              s.runs[owner := Run(name, s.turns, s.now, s.now + ttl)])
      else s
    case Finish(owner) => s.(rows := Released(s.rows, s.runs[owner].name, owner), runs := s.runs - {owner})
    case Crash(owner) => s.(runs := s.runs - {owner})
  }

  /** The row of its lease is still this run's row. */
  predicate Holds(s: State, owner: string)
    requires owner in s.runs
  {
    var run := s.runs[owner];
    run.name in s.rows && s.rows[run.name].owner == owner && s.rows[run.name].expiresAt == run.expiresAt
  }

  ghost predicate Invariant(s: State) {
    // a run holds its row unless its lease has run out
    && (forall a :: a in s.runs ==> Holds(s, a) || s.runs[a].expiresAt <= s.now)
    && (forall a :: a in s.runs ==> s.runs[a].turn < s.turns && s.runs[a].acquiredAt <= s.now)
    && Orderly(s)
  }

  /** Two owners are inside a run of the same lease only if the earlier one's lease had expired when the later one
      acquired. */
  ghost predicate Orderly(s: State) {
    forall a, b :: a in s.runs && b in s.runs && s.runs[a].name == s.runs[b].name && s.runs[a].turn < s.runs[b].turn ==>
      s.runs[a].expiresAt <= s.runs[b].acquiredAt
  }

  /** What an acquiring owner finds: every other run of that lease has outlived it. */
  lemma OthersExpired(s: State, owner: string, name: string, a: string)
    requires Invariant(s) && Available(s.rows, name, owner, s.now)
    requires a in s.runs && a != owner && s.runs[a].name == name
    ensures s.runs[a].expiresAt <= s.now
  {
    assert Holds(s, a) || s.runs[a].expiresAt <= s.now;
  }

  lemma AcquireKeepsInvariant(s: State, owner: string, name: string, ttl: nat)
    requires Invariant(s) && Enabled(s, Acquire(owner, name, ttl))
    ensures Invariant(Next(s, Acquire(owner, name, ttl)))
  {
    var t := Next(s, Acquire(owner, name, ttl));
    if Available(s.rows, name, owner, s.now) {
      forall a | a in t.runs ensures Holds(t, a) || t.runs[a].expiresAt <= t.now {
        if a != owner {
          if s.runs[a].name == name { OthersExpired(s, owner, name, a); }
          assert Holds(s, a) || s.runs[a].expiresAt <= s.now;
        }
      }
      forall a, b | a in t.runs && b in t.runs && t.runs[a].name == t.runs[b].name && t.runs[a].turn < t.runs[b].turn
        ensures t.runs[a].expiresAt <= t.runs[b].acquiredAt
      {
        if b == owner { OthersExpired(s, owner, name, a); }
      }
    }
  }

  lemma StepKeepsInvariant(s: State, step: Step)
    requires Invariant(s) && Enabled(s, step)
    ensures Invariant(Next(s, step))
  {
    var t := Next(s, step);
    match step
    case Tick(_) =>
    case Crash(owner) =>
      forall a | a in t.runs ensures Holds(t, a) || t.runs[a].expiresAt <= t.now { assert Holds(s, a) <==> Holds(t, a); }
    case Finish(owner) =>
      forall a | a in t.runs ensures Holds(t, a) || t.runs[a].expiresAt <= t.now { assert Holds(s, a) ==> Holds(t, a); }
    case Acquire(owner, name, ttl) =>
      AcquireKeepsInvariant(s, owner, name, ttl);
  }

  /** The state after a sequence of steps, where every step is enabled. */
  ghost predicate Reaches(s: State, steps: seq<Step>, t: State)
    decreases |steps|
  {
    if steps == [] then s == t
    else Enabled(s, steps[0]) && Reaches(Next(s, steps[0]), steps[1..], t)
  }

  lemma {:induction false} RunKeepsInvariant(s: State, steps: seq<Step>, t: State)
    requires Invariant(s) && Reaches(s, steps, t)
    ensures Invariant(t)
    decreases |steps|
  {
    if steps != [] {
      StepKeepsInvariant(s, steps[0]);
      RunKeepsInvariant(Next(s, steps[0]), steps[1..], t);
    }
  }

  /** In every interleaving, overlapping runs of one lease mean that the earlier lease had expired. */
  lemma OverlapOnlyAfterExpiry(steps: seq<Step>, t: State, a: string, b: string)
    requires Reaches(START, steps, t)
    requires a != b && a in t.runs && b in t.runs && t.runs[a].name == t.runs[b].name
    ensures t.runs[a].expiresAt <= t.runs[b].acquiredAt || t.runs[b].expiresAt <= t.runs[a].acquiredAt
  {
    RunKeepsInvariant(START, steps, t);
    TurnsDiffer(START, steps, t);
    assert t.runs[a].turn < t.runs[b].turn || t.runs[b].turn < t.runs[a].turn;
  }

  ghost predicate DistinctTurns(s: State) {
    && (forall a :: a in s.runs ==> s.runs[a].turn < s.turns)
    && forall a, b :: a in s.runs && b in s.runs && a != b ==> s.runs[a].turn != s.runs[b].turn
  }

  lemma {:induction false} TurnsDiffer(s: State, steps: seq<Step>, t: State)
    requires DistinctTurns(s) && Reaches(s, steps, t)
    ensures DistinctTurns(t)
    decreases |steps|
  {
    if steps != [] {
      TurnsDiffer(Next(s, steps[0]), steps[1..], t);
    }
  }

  /** While no lease in use has run out, at most one owner is inside a run of each lease, and it holds the row. */
  lemma ExclusiveWithinTtl(steps: seq<Step>, t: State, a: string, b: string)
    requires Reaches(START, steps, t)
    requires a in t.runs && b in t.runs && t.runs[a].name == t.runs[b].name
    requires t.now < t.runs[a].expiresAt && t.now < t.runs[b].expiresAt
    ensures a == b && Holds(t, a)
  {
    RunKeepsInvariant(START, steps, t);
  }

  /** However late a run finishes, it removes no row but its own. */
  lemma LateReleaseIsHarmless(s: State, owner: string, name: string)
    requires Enabled(s, Finish(owner)) && name in s.rows && s.rows[name].owner != owner
    ensures var t := Next(s, Finish(owner)); name in t.rows && t.rows[name] == s.rows[name]
  {
  }

  /** A run that finishes while it holds its row leaves the lease free for everyone at once. */
  lemma FinishFreesLease(s: State, owner: string, other: string, ttl: nat)
    requires Enabled(s, Finish(owner)) && Holds(s, owner) && other !in s.runs
    ensures var name, finished := s.runs[owner].name, Next(s, Finish(owner));
            && name !in finished.rows && owner !in finished.runs
            && var t := Next(finished, Acquire(other, name, ttl));
               other in t.runs && name in t.rows && t.rows[name].owner == other
  {
  }

  /** After a crash the row stands: another worker gets the lease exactly when it has run out. */
  lemma CrashKeepsLease(s: State, owner: string, other: string, ttl: nat, delay: nat)
    requires Enabled(s, Crash(owner)) && Holds(s, owner) && other !in s.runs && other != owner
    ensures var name, crashed := s.runs[owner].name, Next(s, Crash(owner));
            && crashed.rows == s.rows && owner !in crashed.runs
            && var t := Next(Next(crashed, Tick(delay)), Acquire(other, name, ttl));
               other in t.runs <==> s.runs[owner].expiresAt <= s.now + delay
  {
  }

  /** Whatever happened before, a lease is stuck for an idle worker exactly as long as another owner's unexpired row
      stands; waiting for the expiry is enough. */
  lemma ExpiryFreesLease(s: State, owner: string, name: string, ttl: nat, delay: nat)
    requires owner !in s.runs
    ensures var waited := Next(s, Tick(delay));
            var t := Next(waited, Acquire(owner, name, ttl));
            owner in t.runs <==> name !in s.rows || s.rows[name].owner == owner || s.rows[name].expiresAt <= s.now + delay
  {
  }
}
