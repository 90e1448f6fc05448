/**
 The Valkey lock of internal/storage/valkey/locks.go: SET NX with a time to live, and a
 release that deletes the key whoever owns it. Used by the outbox worker (60 s per event)
 and by the payout dispatcher (30 s per reference).
 */
module Lease {
  import opened Prelude

  type Locks = map<string, int>

  datatype LockError = Unreachable

  predicate Held(locks: Locks, key: string, now: int) {
    key in locks && now < locks[key]
  }

  /** SET key NX PX ttl. */
  function Acquire(locks: Locks, key: string, ttl: int, now: int): Locks {
    if Held(locks, key, now) then locks else locks[key := now + ttl]
  }

  class Locker {
    const connected: bool
    var locks: Locks

    constructor (connected: bool)
      ensures this.connected == connected && locks == map[]
    {
      this.connected, locks := connected, map[];
    }

    method TryAcquire(key: string, ttl: int, now: int, broken: bool) returns (r: Result<bool, LockError>)
      modifies this`locks
      ensures !connected ==> r == Ok(true) && locks == old(locks)
      ensures connected && broken ==> r == Err(Unreachable) && locks == old(locks)
      ensures connected && !broken ==>
                r == Ok(!Held(old(locks), key, now)) && locks == Acquire(old(locks), key, ttl, now)
    {
      if !connected {
        return Ok(true);
      }
      if broken {
        return Err(Unreachable);
      }
      if key in locks && now < locks[key] {
        return Ok(false);
      }
      locks := locks[key := now + ttl];
      return Ok(true);
    }

    method Release(key: string)
      modifies this`locks
      ensures locks == if connected then old(locks) - {key} else old(locks)
    {
      if connected {
        locks := locks - {key};
      }
    }
  }

}

/** Timed runs of any number of workers competing for these locks. */
module LeaseRuns {
  import opened Lease

  type Worker = nat

  /** A worker between a successful TryAcquire and its Release or crash. */
  datatype Hold = Hold(key: string, since: int)

  datatype Config = Config(now: int, locks: Locks, holds: map<Worker, Hold>)

  datatype Step =
    | Tick(d: int)
    | Enter(w: Worker, key: string)
    | Refused(w: Worker, key: string)
    | Leave(w: Worker)
    | Crash(w: Worker)

  ghost predicate Next(ttl: int, c: Config, step: Step, c': Config) {
    match step
    case Tick(d) => d >= 0 && c' == c.(now := c.now + d)
    case Enter(w, key) =>
      && w !in c.holds && !Held(c.locks, key, c.now)
      && c' == c.(locks := Acquire(c.locks, key, ttl, c.now), holds := c.holds[w := Hold(key, c.now)])
    case Refused(w, key) => w !in c.holds && Held(c.locks, key, c.now) && c' == c
    case Leave(w) =>
      && w in c.holds
      && c' == c.(locks := c.locks - {c.holds[w].key}, holds := c.holds - {w})
    case Crash(w) => w in c.holds && c' == c.(holds := c.holds - {w})
  }

  datatype Run = Run(configs: seq<Config>, steps: seq<Step>)

  ghost predicate IsRun(ttl: int, r: Run) {
    && |r.configs| == |r.steps| + 1
    && r.configs[0].locks == map[] && r.configs[0].holds == map[]
    && forall i :: 0 <= i < |r.steps| ==> Next(ttl, r.configs[i], r.steps[i], r.configs[i + 1])
  }

  /** Nobody stays inside for a whole lease. */
  ghost predicate Prompt(ttl: int, c: Config) {
    forall w <- c.holds :: c.now < c.holds[w].since + ttl
  }

  ghost predicate Exclusive(c: Config) {
    forall v, w :: v in c.holds && w in c.holds && c.holds[v].key == c.holds[w].key ==> v == w
  }

  ghost predicate Inv(ttl: int, c: Config) {
    && Exclusive(c)
    && (forall w <- c.holds :: c.holds[w].key in c.locks && c.locks[c.holds[w].key] == c.holds[w].since + ttl)
    && LeasesBounded(ttl, c)
  }

  ghost predicate LeasesBounded(ttl: int, c: Config) {
    forall key <- c.locks :: c.locks[key] <= c.now + ttl
  }

  lemma StepKeepsInv(ttl: int, c: Config, step: Step, c': Config)
    requires Inv(ttl, c) && Prompt(ttl, c) && Next(ttl, c, step, c')
    ensures Inv(ttl, c')
  {
    if step.Enter? {
      forall w <- c.holds ensures c.holds[w].key != step.key {
        assert c.now < c.holds[w].since + ttl;
      }
    }
  }

  lemma {:induction false} RunKeepsInv(ttl: int, r: Run, i: nat)
    requires IsRun(ttl, r) && i < |r.configs|
    requires forall j :: 0 <= j < i ==> Prompt(ttl, r.configs[j])
    ensures Inv(ttl, r.configs[i])
  {
    if i > 0 {
      RunKeepsInv(ttl, r, i - 1);
      StepKeepsInv(ttl, r.configs[i - 1], r.steps[i - 1], r.configs[i]);
    }
  }

  /**
   If every holder releases or crashes within its lease, no two workers are ever inside
   for the same key, although Release deletes the key unconditionally.
   */
  lemma MutualExclusion(ttl: int, r: Run, i: nat)
    requires IsRun(ttl, r) && i < |r.configs|
    requires forall j :: 0 <= j < i ==> Prompt(ttl, r.configs[j])
    ensures Exclusive(r.configs[i])
  {
    RunKeepsInv(ttl, r, i);
  }

  lemma {:induction false} LeaseLapses(ttl: int, r: Run, i: nat, j: nat, key: string)
    requires ttl >= 0 && IsRun(ttl, r) && i <= j < |r.configs|
    requires forall k, w :: i <= k < j ==> r.steps[k] != Enter(w, key)
    ensures LeasesBounded(ttl, r.configs[i])
    ensures r.configs[i].now <= r.configs[j].now
    ensures key in r.configs[j].locks ==> r.configs[j].locks[key] <= r.configs[i].now + ttl
    decreases j
  {
    if i < j {
      LeaseLapses(ttl, r, i, j - 1, key);
      assert Next(ttl, r.configs[j - 1], r.steps[j - 1], r.configs[j]);
    } else if i > 0 {
      LeaseLapses(ttl, r, i - 1, i - 1, key);
      assert Next(ttl, r.configs[i - 1], r.steps[i - 1], r.configs[i]);
    }
  }

  /** A crashed holder blocks the others for at most one lease. */
  lemma CrashBlocksAtMostTtl(ttl: int, r: Run, i: nat, j: nat, key: string)
    requires ttl >= 0 && IsRun(ttl, r) && i <= j < |r.configs|
    requires forall k, w :: i <= k < j ==> r.steps[k] != Enter(w, key)
    requires r.configs[j].now >= r.configs[i].now + ttl
    ensures !Held(r.configs[j].locks, key, r.configs[j].now)
  {
    LeaseLapses(ttl, r, i, j, key);
  }

  /** The run goes on with one more worker getting in. */
  function Entered(ttl: int, r: Run, v: Worker, key: string): Run
    requires r.configs != []
  {
    var c := r.configs[|r.configs| - 1];
    Run(r.configs + [c.(locks := Acquire(c.locks, key, ttl, c.now), holds := c.holds[v := Hold(key, c.now)])],
        r.steps + [Enter(v, key)])
  }

  /** Whoever is let in next, and for whatever key, nobody else is inside for it. */
  ghost predicate ExclusiveAfterAnyEntry(ttl: int, r: Run)
    requires IsRun(ttl, r)
  {
    forall v: Worker, key: string :: IsRun(ttl, Entered(ttl, r, v, key)) ==>
      Exclusive(Entered(ttl, r, v, key).configs[|r.configs|])
  }

  lemma EnteredIsRunIff(ttl: int, r: Run, v: Worker, key: string)
    requires IsRun(ttl, r)
    ensures var c := r.configs[|r.steps|];
            IsRun(ttl, Entered(ttl, r, v, key)) <==> v !in c.holds && !Held(c.locks, key, c.now)
  {
    var n, e := |r.steps|, Entered(ttl, r, v, key);
    assert forall i :: 0 <= i < n ==> e.steps[i] == r.steps[i] && e.configs[i] == r.configs[i];
    assert e.configs[n] == r.configs[n] && e.steps[n] == Enter(v, key);
    assert IsRun(ttl, e) ==> Next(ttl, e.configs[n], e.steps[n], e.configs[n + 1]);
  }

  /** Somebody is always outside. */
  lemma Outsider(holds: map<Worker, Hold>) returns (v: Worker)
    ensures v !in holds
  {
    v := 0;
    var seen: set<Worker> := {};
    while v in holds
      invariant seen <= holds.Keys && forall w: Worker :: w in seen <==> w < v
      decreases holds.Keys - seen
    {
      seen := seen + {v};
      v := v + 1;
    }
  }

  /** The first worker to outstay its lease lets any other one in beside it. */
  lemma OverrunAdmitsAnother(ttl: int, r: Run, w: Worker, v: Worker)
    requires IsRun(ttl, r) && forall j :: 0 <= j < |r.steps| ==> Prompt(ttl, r.configs[j])
    requires var c := r.configs[|r.steps|]; w in c.holds && c.now >= c.holds[w].since + ttl && v !in c.holds
    ensures var e := Entered(ttl, r, v, r.configs[|r.steps|].holds[w].key);
            IsRun(ttl, e) && !Exclusive(e.configs[|r.configs|])
  {
    var c := r.configs[|r.steps|];
    RunKeepsInv(ttl, r, |r.steps|);
    EnteredIsRunIff(ttl, r, v, c.holds[w].key);
    var after := Entered(ttl, r, v, c.holds[w].key).configs[|r.configs|];
    assert v in after.holds && w in after.holds && after.holds[v].key == after.holds[w].key && v != w;
  }

  /**
   A run whose holders have been prompt so far stays exclusive under every further entry
   exactly when nobody inside has outstayed its lease.
   */
  lemma ExclusiveIffNobodyOverran(ttl: int, r: Run)
    requires IsRun(ttl, r) && forall j :: 0 <= j < |r.steps| ==> Prompt(ttl, r.configs[j])
    ensures ExclusiveAfterAnyEntry(ttl, r) <==> Prompt(ttl, r.configs[|r.steps|])
  {
    var c := r.configs[|r.steps|];
    if Prompt(ttl, c) {
      RunKeepsInv(ttl, r, |r.steps|);
      forall v: Worker, key: string | IsRun(ttl, Entered(ttl, r, v, key))
        ensures Exclusive(Entered(ttl, r, v, key).configs[|r.configs|])
      {
        EnteredIsRunIff(ttl, r, v, key);
        StepKeepsInv(ttl, c, Enter(v, key), Entered(ttl, r, v, key).configs[|r.configs|]);
      }
    } else {
      var w :| w in c.holds && c.now >= c.holds[w].since + ttl;
      var v := Outsider(c.holds);
      OverrunAdmitsAnother(ttl, r, w, v);
    }
  }

  /**
   One overrun is enough to lose exclusion for good: worker 0 outstays its lease, worker 1
   takes the lapsed lock, worker 0 deletes it on the way out and lets worker 2 in. At the
   end neither of the two workers inside has overrun.
   */
  lemma OverrunBreaksExclusion(ttl: int, key: string)
    requires ttl > 0
    ensures exists r: Run ::
              && IsRun(ttl, r)
              && !Exclusive(r.configs[|r.steps|])
              && Prompt(ttl, r.configs[|r.steps|])
  {
    var steps := [Enter(0, key), Tick(ttl), Enter(1, key), Leave(0), Enter(2, key)];
    var h0, late := Hold(key, 0), Hold(key, ttl);
    var configs := [
      Config(0, map[], map[]),
      Config(0, map[key := ttl], map[0 := h0]),
      Config(ttl, map[key := ttl], map[0 := h0]),
      Config(ttl, map[key := ttl + ttl], map[0 := h0, 1 := late]),
      Config(ttl, map[key := ttl + ttl] - {key}, map[0 := h0, 1 := late] - {0}),
      Config(ttl, map[key := ttl + ttl], map[1 := late, 2 := late])
    ];
    assert map[0 := h0, 1 := late] - {0} == map[1 := late];
    var r := Run(configs, steps);
    assert Next(ttl, configs[0], steps[0], configs[1]);
    assert Next(ttl, configs[1], steps[1], configs[2]);
    assert Next(ttl, configs[2], steps[2], configs[3]);
    assert Next(ttl, configs[3], steps[3], configs[4]);
    assert Next(ttl, configs[4], steps[4], configs[5]);
    assert IsRun(ttl, r);
    assert 1 in configs[5].holds && 2 in configs[5].holds;
  }
}
