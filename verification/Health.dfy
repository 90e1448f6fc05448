/**
 Gateway health in Valkey (internal/storage/valkey/gateway_health.go): rolling success
 counters, the circuit breaker and the latency samples, all of them keys with a time to
 live. Time is an integer number of nanoseconds; the commands of one call are one instant.
 */
module Health {
  import opened Prelude
  import opened Gateways
  import opened Valkey

  const WINDOW_TTL: int := 600 * SECOND
  const FAILURE_THRESHOLD: int := 5
  const OPEN_TTL: int := 30 * SECOND
  const MAX_LATENCY: int := 60000

  /** The keys `s`, `t`, `f` and `circuit` of one gateway. */
  datatype Record = Record(s: Key, t: Key, f: Key, circuit: Key)

  const FRESH: Record := Record(Absent, Absent, Absent, Absent)

  datatype Sample = Sample(ms: int, at: int)

  /** The sorted set of latencies, ascending, with the expiry of the whole key. */
  datatype Latencies = Latencies(samples: seq<Sample>, expiry: int)

  function RecordStep(r: Record, success: bool, now: int): Record {
    var t := r.t.Incr(now).Expire(now, WINDOW_TTL);
    if success then
      Record(r.s.Incr(now).Expire(now, WINDOW_TTL), t, Absent, r.circuit)
    else
      var f := r.f.Incr(now);
      Record(r.s, t, f, if f.Get(now) < FAILURE_THRESHOLD then r.circuit else Present(1, Some(now + OPEN_TTL)))
  }

  function RateOf(r: Record, now: int): real {
    if r.t.Get(now) <= 0 then 1.0 else r.s.Get(now) as real / r.t.Get(now) as real
  }

  /** The score of a sample: its milliseconds, kept between zero and a minute. */
  function Clamp(ms: int): (score: int)
    ensures 0 <= score <= 60000
    ensures 0 <= ms <= 60000 ==> score == ms
    ensures ms < 0 ==> score == 0
    ensures ms > 60000 ==> score == 60000
  {
    if ms < 0 then 0 else if ms > MAX_LATENCY then MAX_LATENCY else ms
  }

  /** ZADD keeps the set ordered by score. */
  function Insert(samples: seq<Sample>, x: Sample): seq<Sample> {
    if samples == [] || x.ms < samples[0].ms then [x] + samples
    else [samples[0]] + Insert(samples[1..], x)
  }

  function Fresh(samples: seq<Sample>, now: int): seq<Sample> {
    if samples == [] then []
    else
      var n := |samples| - 1;
      Fresh(samples[..n], now) + if samples[n].at < now - WINDOW_TTL then [] else [samples[n]]
  }

  ghost predicate Sorted(samples: seq<Sample>) {
    forall i, j :: 0 <= i <= j < |samples| ==> samples[i].ms <= samples[j].ms
  }

  function RecordOf(records: map<Gateway, Record>, gw: Gateway): Record {
    if gw in records then records[gw] else FRESH
  }

  /** The samples of a key that has not expired. */
  function SamplesIn(l: Option<Latencies>, now: int): seq<Sample> {
    if l.Some? && now < l.value.expiry then l.value.samples else []
  }

  /** A latency is recorded, or the percentile is asked for, which drops stale samples. */
  datatype LatencyOp = Sampled(ms: int, at: int) | Asked(at: int)

  function LatencyStep(l: Option<Latencies>, op: LatencyOp): Option<Latencies> {
    match op
    case Sampled(ms, at) => Some(Latencies(Insert(SamplesIn(l, at), Sample(Clamp(ms), at)), at + WINDOW_TTL))
    case Asked(at) =>
      if SamplesIn(l, at) == [] then l else Some(l.value.(samples := Fresh(SamplesIn(l, at), at)))
  }

  /** How many samples are at most `ms`. */
  function AtMost(samples: seq<Sample>, ms: int): nat {
    if samples == [] then 0
    else AtMost(samples[..|samples| - 1], ms) + if samples[|samples| - 1].ms <= ms then 1 else 0
  }

  /** The smallest sample that at least 95 in 100 samples do not exceed. */
  ghost predicate IsP95(samples: seq<Sample>, ms: int) {
    && (exists i :: 0 <= i < |samples| && samples[i].ms == ms)
    && 100 * AtMost(samples, ms) >= 95 * |samples|
    && forall v :: v < ms ==> 100 * AtMost(samples, v) < 95 * |samples|
  }

  class HealthStore {
    var records: map<Gateway, Record>
    var latencies: map<Gateway, Latencies>

    constructor ()
      ensures records == map[] && latencies == map[]
    {
      records, latencies := map[], map[];
    }

    function Of(gw: Gateway): Record
      reads this
    {
      RecordOf(records, gw)
    }

    function Latency(gw: Gateway): Option<Latencies>
      reads this
    {
      if gw in latencies then Some(latencies[gw]) else None
    }

    function SamplesOf(gw: Gateway, now: int): seq<Sample>
      reads this
    {
      SamplesIn(Latency(gw), now)
    }

    ghost predicate Valid()
      reads this
    {
      forall gw <- latencies :: Sorted(latencies[gw].samples)
    }

    method RecordResult(gw: Gateway, success: bool, now: int)
      modifies this`records
      ensures records == old(records)[gw := RecordStep(old(Of(gw)), success, now)]
    {
      var r := Of(gw);
      r := r.(t := r.t.Incr(now));
      r := r.(t := r.t.Expire(now, WINDOW_TTL));
      if success {
        r := r.(s := r.s.Incr(now));
        r := r.(s := r.s.Expire(now, WINDOW_TTL));
        r := r.(f := Absent);
      } else {
        r := r.(f := r.f.Incr(now));
      }
      records := records[gw := r];
      if !success {
        MaybeOpenCircuit(gw, now);
      }
    }

    method MaybeOpenCircuit(gw: Gateway, now: int)
      modifies this`records
      ensures old(Of(gw)).f.Get(now) < FAILURE_THRESHOLD ==> records == old(records)
      ensures old(Of(gw)).f.Get(now) >= FAILURE_THRESHOLD ==>
                records == old(records)[gw := old(Of(gw)).(circuit := Present(1, Some(now + OPEN_TTL)))]
    {
      var fails := Of(gw).f.Get(now);
      if fails < FAILURE_THRESHOLD {
        return;
      }
      records := records[gw := Of(gw).(circuit := Present(1, Some(now + OPEN_TTL)))];
    }

    method IsCircuitOpen(gw: Gateway, now: int) returns (isOpen: bool)
      ensures isOpen == Of(gw).circuit.Live(now)
    {
      isOpen := Of(gw).circuit.Live(now);
    }

    method SuccessRate(gw: Gateway, now: int) returns (rate: real)
      ensures rate == RateOf(Of(gw), now)
    {
      var s, t := Of(gw).s.Get(now), Of(gw).t.Get(now);
      if t <= 0 {
        return 1.0;
      }
      return s as real / t as real;
    }

    method RecordLatency(gw: Gateway, ms: int, now: int)
      requires Valid()
      modifies this`latencies
      ensures Valid()
      ensures Latency(gw) == LatencyStep(old(Latency(gw)), Sampled(ms, now))
      ensures latencies == old(latencies)[gw := latencies[gw]]
      ensures multiset(latencies[gw].samples) == multiset(old(SamplesOf(gw, now))) + multiset{Sample(Clamp(ms), now)}
    {
      var score := ms;
      if score < 0 {
        score := 0;
      }
      if score > MAX_LATENCY {
        score := MAX_LATENCY;
      }
      InsertSorted(SamplesOf(gw, now), Sample(score, now));
      InsertAdds(SamplesOf(gw, now), Sample(score, now));
      latencies := latencies[gw := Latencies(Insert(SamplesOf(gw, now), Sample(score, now)), now + WINDOW_TTL)];
    }

    /** Stale samples are dropped from the answer and from the store. */
    method P95Latency(gw: Gateway, now: int) returns (ms: int)
      requires Valid()
      modifies this`latencies
      ensures Valid()
      ensures Latency(gw) == LatencyStep(old(Latency(gw)), Asked(now))
      ensures latencies == if old(SamplesOf(gw, now)) == [] then old(latencies) else old(latencies)[gw := latencies[gw]]
      ensures var kept := Fresh(old(SamplesOf(gw, now)), now);
              if kept == [] then ms == 0 else IsP95(kept, ms)
    {
      hide IsP95, AtMost, Sorted, Fresh;
      var scores := SamplesOf(gw, now);
      FreshSteps(scores, now);
      assert scores[..|scores|] == scores;
      if |scores| == 0 {
        return 0;
      }
      var cutoff := now - WINDOW_TTL;
      var kept: seq<Sample> := [];
      var stale := 0;
      for i := 0 to |scores|
        invariant kept == Fresh(scores[..i], now)
        invariant stale == i - |kept| && 0 <= stale
        invariant stale == 0 ==> kept == scores[..i]
      {
        if scores[i].at < cutoff {
          stale := stale + 1;
        } else {
          kept := kept + [scores[i]];
        }
      }
      FreshSorted(scores, now);
      if stale > 0 {
        latencies := latencies[gw := latencies[gw].(samples := kept)];
      }
      if |kept| == 0 {
        return 0;
      }
      var n := |kept|;
      var idx := (95 * n + 99) / 100 - 1;
      if idx < 0 {
        idx := 0;
      }
      if idx >= n {
        idx := n - 1;
      }
      NearestRank(kept, idx);
      return kept[idx].ms;
    }
  }

  // ---------------------------------------------------------------- latency samples

  lemma FreshSteps(samples: seq<Sample>, now: int)
    ensures Fresh(samples[..0], now) == []
    ensures forall i :: 0 <= i < |samples| ==>
              Fresh(samples[..i + 1], now)
              == Fresh(samples[..i], now) + if samples[i].at < now - WINDOW_TTL then [] else [samples[i]]
  {
    forall i | 0 <= i < |samples|
      ensures Fresh(samples[..i + 1], now)
           == Fresh(samples[..i], now) + if samples[i].at < now - WINDOW_TTL then [] else [samples[i]]
    {
      assert samples[..i + 1][..i] == samples[..i];
    }
  }

  lemma {:induction false} InsertAdds(samples: seq<Sample>, x: Sample)
    ensures multiset(Insert(samples, x)) == multiset(samples) + multiset{x}
  {
    if samples != [] && x.ms >= samples[0].ms {
      InsertAdds(samples[1..], x);
      assert samples == [samples[0]] + samples[1..];
    }
  }

  lemma {:induction false} InsertSorted(samples: seq<Sample>, x: Sample)
    requires Sorted(samples)
    ensures Sorted(Insert(samples, x))
  {
    if samples != [] && x.ms >= samples[0].ms {
      InsertSorted(samples[1..], x);
      var rest := Insert(samples[1..], x);
      InsertAdds(samples[1..], x);
      forall i | 0 <= i < |rest| ensures samples[0].ms <= rest[i].ms {
        assert rest[i] in multiset(rest);
        assert rest[i] == x || rest[i] in samples[1..];
      }
    }
  }

  lemma {:induction false} FreshSorted(samples: seq<Sample>, now: int)
    requires Sorted(samples)
    ensures Sorted(Fresh(samples, now))
    ensures forall x | x in Fresh(samples, now) :: x in samples
  {
    if samples != [] {
      var n := |samples| - 1;
      FreshSorted(samples[..n], now);
      var hi := Fresh(samples[..n], now);
      forall i | 0 <= i < |hi| ensures hi[i].ms <= samples[n].ms && hi[i] in samples {
        assert hi[i] in samples[..n];
      }
    }
  }

  /** In a sorted sequence the samples up to `v` are a prefix. */
  lemma {:induction false} AtMostBounds(samples: seq<Sample>, i: nat, v: int)
    requires Sorted(samples) && i < |samples|
    ensures v < samples[i].ms ==> AtMost(samples, v) <= i
    ensures v >= samples[i].ms ==> AtMost(samples, v) >= i + 1
  {
    var n := |samples| - 1;
    if i < n {
      AtMostBounds(samples[..n], i, v);
    } else if n > 0 {
      AtMostBounds(samples[..n], n - 1, v);
      AtMostLength(samples[..n], v);
    }
  }

  lemma AtMostLength(samples: seq<Sample>, v: int)
    ensures AtMost(samples, v) <= |samples|
  {
  }

  lemma NearestRank(samples: seq<Sample>, idx: nat)
    requires Sorted(samples) && idx < |samples|
    requires idx == (95 * |samples| + 99) / 100 - 1
    ensures IsP95(samples, samples[idx].ms)
  {
    forall v {
      AtMostBounds(samples, idx, v);
    }
    AtMostBounds(samples, idx, samples[idx].ms);
  }

  // ---------------------------------------------------------------- histories of samples

  /** How often a sample is in a sequence. */
  function Count(samples: seq<Sample>, x: Sample): nat {
    multiset(samples)[x]
  }

  /** Fresh keeps every sample of the last ten minutes as often as it is there, and no older one. */
  lemma {:induction false} FreshKeeps(samples: seq<Sample>, now: int, x: Sample)
    ensures Count(Fresh(samples, now), x) == if x.at >= now - 600 * SECOND then Count(samples, x) else 0
  {
    if samples != [] {
      var n := |samples| - 1;
      FreshKeeps(samples[..n], now, x);
      assert samples == samples[..n] + [samples[n]];
    }
  }

  function LatencyAfter(ops: seq<LatencyOp>): Option<Latencies> {
    if ops == [] then None else LatencyStep(LatencyAfter(ops[..|ops| - 1]), ops[|ops| - 1])
  }

  /** How often a sample has been recorded. */
  function Recordings(ops: seq<LatencyOp>, x: Sample): nat {
    if ops == [] then 0
    else
      var op := ops[|ops| - 1];
      Recordings(ops[..|ops| - 1], x) + if op.Sampled? && Sample(Clamp(op.ms), op.at) == x then 1 else 0
  }

  ghost predicate OpsInOrder(ops: seq<LatencyOp>, now: int) {
    && (forall i, j :: 0 <= i <= j < |ops| ==> ops[i].at <= ops[j].at)
    && forall i :: 0 <= i < |ops| ==> ops[i].at <= now
  }

  lemma {:induction false} NothingRecordedYet(ops: seq<LatencyOp>, now: int, x: Sample)
    requires OpsInOrder(ops, now) && x.at > now
    ensures Recordings(ops, x) == 0
  {
    if ops != [] {
      NothingRecordedYet(ops[..|ops| - 1], now, x);
    }
  }

  /** The key lives ten minutes from the last recording on. */
  lemma {:induction false} ExpiryAfter(ops: seq<LatencyOp>, now: int, x: Sample)
    requires OpsInOrder(ops, now)
    ensures LatencyAfter(ops).None? ==> Recordings(ops, x) == 0
    ensures LatencyAfter(ops).Some? && x.at > LatencyAfter(ops).value.expiry - WINDOW_TTL ==> Recordings(ops, x) == 0
    ensures LatencyAfter(ops).Some? ==> LatencyAfter(ops).value.expiry <= now + WINDOW_TTL
  {
    hide Clamp, Insert, Fresh;
    if ops != [] {
      var n := |ops| - 1;
      ExpiryAfter(ops[..n], ops[n].at, x);
    }
  }

  lemma {:induction false} StoredSamples(ops: seq<LatencyOp>, now: int, x: Sample)
    requires OpsInOrder(ops, now)
    ensures Count(SamplesIn(LatencyAfter(ops), now), x) <= Recordings(ops, x)
    ensures x.at > now - WINDOW_TTL ==> Count(SamplesIn(LatencyAfter(ops), now), x) == Recordings(ops, x)
  {
    hide Clamp, Insert, Fresh;
    ExpiryAfter(ops, now, x);
    if ops != [] {
      var n := |ops| - 1;
      var l, op := LatencyAfter(ops[..n]), ops[n];
      StoredSamples(ops[..n], op.at, x);
      StoredSamples(ops[..n], now, x);
      match op {
        case Sampled(ms, at) => InsertAdds(SamplesIn(l, at), Sample(Clamp(ms), at));
        case Asked(at) => FreshKeeps(SamplesIn(l, at), at, x);
      }
    }
  }

  /**
   What the percentile is taken of, whatever was asked in between and whenever the key has
   expired: every sample of less than ten minutes ago exactly as often as it was recorded,
   and none from before.
   */
  lemma FreshSamplesOfHistory(ops: seq<LatencyOp>, now: int, x: Sample)
    requires OpsInOrder(ops, now)
    ensures var n := Count(Fresh(SamplesIn(LatencyAfter(ops), now), now), x);
            && (x.at > now - 600 * SECOND ==> n == Recordings(ops, x))
            && (x.at < now - 600 * SECOND ==> n == 0)
            && n <= Recordings(ops, x)
  {
    hide Fresh, LatencyAfter, Recordings;
    StoredSamples(ops, now, x);
    FreshKeeps(SamplesIn(LatencyAfter(ops), now), now, x);
  }

  // ---------------------------------------------------------------- histories

  datatype Outcome = Outcome(success: bool, at: int)

  ghost predicate InOrder(h: seq<Outcome>, now: int) {
    && (forall i, j :: 0 <= i <= j < |h| ==> h[i].at <= h[j].at)
    && (forall i :: 0 <= i < |h| ==> h[i].at <= now)
  }

  function After(h: seq<Outcome>): Record {
    if h == [] then FRESH
    else RecordStep(After(h[..|h| - 1]), h[|h| - 1].success, h[|h| - 1].at)
  }

  /** Length of the run of failures the history ends in. */
  function TrailingFailures(h: seq<Outcome>): nat {
    if h == [] || h[|h| - 1].success then 0 else 1 + TrailingFailures(h[..|h| - 1])
  }

  /** The result at `i` is at least the fifth failure in a row. */
  ghost predicate Trips(h: seq<Outcome>, i: nat)
    requires i < |h|
  {
    TrailingFailures(h[..i + 1]) >= FAILURE_THRESHOLD
  }

  lemma {:induction false} FailureCounter(h: seq<Outcome>)
    ensures After(h).f == if TrailingFailures(h) == 0 then Absent else Present(TrailingFailures(h), None)
  {
    if h != [] {
      FailureCounter(h[..|h| - 1]);
    }
  }

  /** The circuit is open exactly while a fifth (or later) failure is less than 30 s old. */
  lemma {:induction false} CircuitOpenIff(h: seq<Outcome>, now: int)
    requires InOrder(h, now)
    ensures After(h).circuit.Live(now) <==> exists i :: 0 <= i < |h| && Trips(h, i) && now - h[i].at < OPEN_TTL
  {
    if h != [] {
      var n := |h| - 1;
      CircuitOpenIff(h[..n], now);
      FailureCounter(h);
      assert h[..n + 1] == h;
      forall i | 0 <= i < n ensures Trips(h, i) <==> Trips(h[..n], i) {
        assert h[..n][..i + 1] == h[..i + 1];
      }
      if Trips(h, n) {
        assert After(h).circuit == Present(1, Some(h[n].at + OPEN_TTL));
      } else {
        assert After(h).circuit == After(h[..n]).circuit;
        if i :| 0 <= i < n && Trips(h[..n], i) && now - h[..n][i].at < OPEN_TTL {
          assert Trips(h, i);
        }
      }
    }
  }

  /** A success does not close an open circuit. */
  lemma SuccessLeavesCircuitOpen(h: seq<Outcome>, at: int, now: int)
    requires InOrder(h + [Outcome(true, at)], now)
    ensures After(h + [Outcome(true, at)]).circuit.Live(now) <==>
              exists i :: 0 <= i < |h| && Trips(h, i) && now - h[i].at < OPEN_TTL
  {
    var all := h + [Outcome(true, at)];
    assert all[..|h|] == h && forall i :: 0 <= i < |h| ==> all[i] == h[i];
    CircuitOpenIff(h, now);
  }

  lemma {:induction false} FailuresExtend(h: seq<Outcome>, more: seq<Outcome>)
    requires forall o <- more :: !o.success
    ensures TrailingFailures(h + more) == TrailingFailures(h) + |more|
  {
    if more == [] {
      assert h + more == h;
    } else {
      var n := |more| - 1;
      FailuresExtend(h, more[..n]);
      assert (h + more)[..|h| + n] == h + more[..n];
    }
  }

  /**
   Once the run has reached five, waiting does not help: after the cooldown one more
   failure opens the circuit again for 30 s. A success does help: the next four failures
   leave it closed.
   */
  lemma HalfOpenProbe(h: seq<Outcome>, probe: Outcome, more: seq<Outcome>, now: int)
    requires TrailingFailures(h) >= FAILURE_THRESHOLD
    requires InOrder(h + [probe] + more, now)
    requires !After(h).circuit.Live(probe.at)
    requires |more| < FAILURE_THRESHOLD && forall o <- more :: !o.success
    ensures !probe.success && now < probe.at + OPEN_TTL ==> After(h + [probe] + more).circuit.Live(now)
    ensures probe.success ==> !After(h + [probe] + more).circuit.Live(now)
  {
    var all := h + [probe] + more;
    CircuitOpenIff(all, now);
    if probe.success {
      assert forall i :: 0 <= i < |h| ==> h[i] == all[i];
      assert InOrder(h, probe.at) by {
        assert all[|h|] == probe;
      }
      CircuitOpenIff(h, probe.at);
      forall i | 0 <= i < |all| && Trips(all, i) ensures now - all[i].at >= OPEN_TTL {
        ProbeClears(h, probe, more, i);
        assert probe.at == all[|h|].at <= now;
      }
    } else {
      assert all[..|h| + 1] == h + [probe];
      assert (h + [probe])[..|h|] == h;
      assert Trips(all, |h|);
    }
  }

  /** After a successful probe and at most four failures, only results before it trip. */
  lemma ProbeClears(h: seq<Outcome>, probe: Outcome, more: seq<Outcome>, i: nat)
    requires probe.success && |more| < FAILURE_THRESHOLD && forall o <- more :: !o.success
    requires i < |h + [probe] + more| && Trips(h + [probe] + more, i)
    ensures i < |h| && Trips(h, i)
  {
    var all := h + [probe] + more;
    if i < |h| {
      assert all[..i + 1] == h[..i + 1];
    } else {
      var tail := more[..i - |h|];
      assert all[..i + 1] == (h + [probe]) + tail;
      FailuresExtend(h + [probe], tail);
    }
  }

  // ---------------------------------------------------------------- the rolling rate

  /**
   The most recent of `times`, as long as no two neighbours (nor the last one and `now`)
   are a whole window apart.
   */
  function Recent(times: seq<int>, now: int): nat {
    if times == [] || now - times[|times| - 1] >= WINDOW_TTL then 0
    else 1 + Recent(times[..|times| - 1], times[|times| - 1])
  }

  function Times(h: seq<Outcome>): seq<int> {
    seq(|h|, i requires 0 <= i < |h| => h[i].at)
  }

  function SuccessTimes(h: seq<Outcome>): seq<int> {
    if h == [] then []
    else SuccessTimes(h[..|h| - 1]) + if h[|h| - 1].success then [h[|h| - 1].at] else []
  }

  /** A counter refreshed at each of `times`, given as its value and expiry. */
  ghost predicate Counts(k: Key, times: seq<int>) {
    if times == [] then k == Absent
    else
      && k.Present?
      && k.value == Recent(times, Last(times))
      && k.expiry == Some(Last(times) + WINDOW_TTL)
  }

  function Last(times: seq<int>): int
    requires times != []
  {
    times[|times| - 1]
  }

  lemma CountsNext(k: Key, times: seq<int>, now: int)
    requires Counts(k, times) && (times != [] ==> Last(times) <= now)
    ensures Counts(k.Incr(now).Expire(now, WINDOW_TTL), times + [now])
    ensures k.Get(now) == Recent(times, now)
  {
    assert (times + [now])[..|times|] == times;
    assert Last(times + [now]) == now;
    if times != [] && now - Last(times) < WINDOW_TTL {
      assert Recent(times, now) == Recent(times, Last(times));
    }
  }

  lemma RecentNext(times: seq<int>, at: int, now: int)
    ensures Recent(times + [at], now) == if now - at >= WINDOW_TTL then 0 else 1 + Recent(times, at)
  {
    assert (times + [at])[..|times|] == times;
  }

  lemma TimesNext(h: seq<Outcome>, o: Outcome)
    ensures Times(h + [o]) == Times(h) + [o.at]
    ensures SuccessTimes(h + [o]) == SuccessTimes(h) + if o.success then [o.at] else []
    ensures After(h + [o]) == RecordStep(After(h), o.success, o.at)
  {
    assert (h + [o])[..|h|] == h;
  }

  lemma {:induction false} CountersAfter(h: seq<Outcome>, now: int)
    requires InOrder(h, now)
    ensures Counts(After(h).t, Times(h)) && Counts(After(h).s, SuccessTimes(h))
    ensures Times(h) != [] ==> Last(Times(h)) <= now
    ensures SuccessTimes(h) != [] ==> Last(SuccessTimes(h)) <= now
  {
    if h != [] {
      var before, o := h[..|h| - 1], h[|h| - 1];
      CountersAfter(before, o.at);
      CounterStep(before, o);
      assert h == before + [o];
    }
  }

  lemma CounterStep(h: seq<Outcome>, o: Outcome)
    requires Counts(After(h).t, Times(h)) && Counts(After(h).s, SuccessTimes(h))
    requires Times(h) != [] ==> Last(Times(h)) <= o.at
    requires SuccessTimes(h) != [] ==> Last(SuccessTimes(h)) <= o.at
    ensures var all := h + [o]; Counts(After(all).t, Times(all)) && Counts(After(all).s, SuccessTimes(all))
    ensures var all := h + [o]; SuccessTimes(all) != [] ==> Last(SuccessTimes(all)) <= o.at
    ensures Last(Times(h + [o])) == o.at
  {
    hide Counts, Recent, After, Times, SuccessTimes;
    TimesNext(h, o);
    assert SuccessTimes(h) + [] == SuccessTimes(h);
    CountsNext(After(h).t, Times(h), o.at);
    CountsNext(After(h).s, SuccessTimes(h), o.at);
  }

  /** Leaving out the failures never lengthens the recent run. */
  lemma {:induction false} FewerSuccesses(h: seq<Outcome>, now: int)
    requires InOrder(h, now)
    ensures Recent(SuccessTimes(h), now) <= Recent(Times(h), now)
  {
    if h == [] {
    } else {
      hide Recent, Times, SuccessTimes, After, Counts;
      var before, o := h[..|h| - 1], h[|h| - 1];
      assert h == before + [o];
      assert SuccessTimes(before) + [] == SuccessTimes(before);
      FewerSuccesses(before, o.at);
      CountersAfter(before, o.at);
      TimesNext(before, o);
      RecentNext(Times(before), o.at, now);
      RecentNext(SuccessTimes(before), o.at, now);
      RecentShrinks(SuccessTimes(before), o.at, now);
    }
  }

  lemma RecentShrinks(times: seq<int>, earlier: int, now: int)
    requires earlier <= now
    ensures Recent(times, now) <= Recent(times, earlier)
    ensures now - earlier >= WINDOW_TTL && (times != [] ==> Last(times) <= earlier) ==> Recent(times, now) == 0
  {
  }

  /**
   The reported rate is the recent successes over the recent attempts, although the two
   counters expire separately; it is a fraction between 0 and 1.
   */
  lemma RateOfHistory(h: seq<Outcome>, now: int)
    requires InOrder(h, now)
    ensures var s, t := Recent(SuccessTimes(h), now), Recent(Times(h), now);
            && s <= t
            && RateOf(After(h), now) == (if t == 0 then 1.0 else s as real / t as real)
            && 0.0 <= RateOf(After(h), now) <= 1.0
  {
    hide Recent, Counts, After, SuccessTimes;
    CountersAfter(h, now);
    FewerSuccesses(h, now);
    CountsNext(After(h).t, Times(h), now);
    CountsNext(After(h).s, SuccessTimes(h), now);
    Ratio(Recent(SuccessTimes(h), now), Recent(Times(h), now));
  }

  lemma Ratio(s: nat, t: nat)
    requires s <= t
    ensures t > 0 ==> 0.0 <= s as real / t as real <= 1.0
  {
  }
}
