/**
 Routing and health as one loop: InitiateWithFallback (internal/gateway/router.go) reads the
 circuits that its own recorded results (internal/storage/valkey/gateway_health.go) have
 opened.
 */
module Breaker {
  import opened Prelude
  import opened Gateways
  import opened Router
  import H = Health

  /** One call: when it reads the circuits, when each result is recorded, how the gateways answer. */
  datatype Attempt = Attempt(ref: string, start: int, ends: nat -> int, initiate: Initiate)

  datatype Mark = Mark(gateway: Gateway, outcome: H.Outcome)

  /** The results of one gateway. */
  function Of(marks: seq<Mark>, g: Gateway): seq<H.Outcome> {
    if marks == [] then []
    else
      var n := |marks| - 1;
      Of(marks[..n], g) + if marks[n].gateway == g then [marks[n].outcome] else []
  }

  /** What IsCircuitOpen answers after these results. */
  function CircuitsAt(marks: seq<Mark>, now: int): Circuits {
    g => if H.After(Of(marks, g)).circuit.Live(now) then Open else Closed
  }

  function RouteAt(setup: Setup, marks: seq<Mark>, now: int): seq<Gateway> {
    setup.Route(CircuitsAt(marks, now))
  }

  function MarksOf(recorded: seq<Recorded>, ends: nat -> int): seq<Mark> {
    seq(|recorded|, i requires 0 <= i < |recorded| =>
      Mark(recorded[i].gateway, H.Outcome(recorded[i].success, ends(i))))
  }

  /** What one call records. */
  function Added(setup: Setup, marks: seq<Mark>, a: Attempt): seq<Mark> {
    MarksOf(FallbackSpec(RouteAt(setup, marks, a.start), setup.adapters, a.ref, a.initiate, NoneTried).recorded, a.ends)
  }

  /** Everything recorded by a sequence of calls. */
  function Run(setup: Setup, calls: seq<Attempt>): seq<Mark> {
    if calls == [] then []
    else
      var n := |calls| - 1;
      Run(setup, calls[..n]) + Added(setup, Run(setup, calls[..n]), calls[n])
  }

  /** The health store after these results, recorded one by one. */
  function RecordsAfter(marks: seq<Mark>): map<Gateway, H.Record> {
    if marks == [] then map[]
    else
      var n := |marks| - 1;
      var records, m := RecordsAfter(marks[..n]), marks[n];
      records[m.gateway := H.RecordStep(H.RecordOf(records, m.gateway), m.outcome.success, m.outcome.at)]
  }

  /** The store keeps every gateway's record as if there were no other. */
  lemma {:induction false} RecordsFollowHistories(marks: seq<Mark>, g: Gateway)
    ensures H.RecordOf(RecordsAfter(marks), g) == H.After(Of(marks, g))
  {
    hide H.RecordStep;
    if marks != [] {
      var n := |marks| - 1;
      RecordsFollowHistories(marks[..n], g);
      var before := Of(marks[..n], g);
      H.TimesNext(before, marks[n].outcome);
      assert before + [] == before;
    }
  }

  /** Calls do not overlap, and all are over by `now`. */
  ghost predicate InTurn(calls: seq<Attempt>, now: int) {
    && (forall i, k: nat :: 0 <= i < |calls| ==> calls[i].start <= calls[i].ends(k) <= now)
    && (forall i, k: nat, l: nat :: 0 <= i < |calls| && k <= l ==> calls[i].ends(k) <= calls[i].ends(l))
    && (forall i, j, k: nat :: 0 <= i < j < |calls| ==> calls[i].ends(k) <= calls[j].start)
  }

  /** A fifth or later failure in a row of `g` is less than 30 s old. */
  ghost predicate Tripped(marks: seq<Mark>, g: Gateway, now: int) {
    var h := Of(marks, g);
    exists i :: 0 <= i < |h| && H.Trips(h, i) && now - h[i].at < H.OPEN_TTL
  }

  ghost predicate MarksInOrder(marks: seq<Mark>, now: int) {
    && (forall i, j :: 0 <= i <= j < |marks| ==> marks[i].outcome.at <= marks[j].outcome.at)
    && forall i :: 0 <= i < |marks| ==> marks[i].outcome.at <= now
  }

  lemma {:induction false} OfConcat(a: seq<Mark>, b: seq<Mark>, g: Gateway)
    ensures Of(a + b, g) == Of(a, g) + Of(b, g)
  {
    if b == [] {
      assert a + b == a;
    } else {
      var n := |b| - 1;
      assert (a + b)[..|a| + n] == a + b[..n];
      OfConcat(a, b[..n], g);
    }
  }

  lemma {:induction false} OfInOrder(marks: seq<Mark>, g: Gateway, now: int)
    requires MarksInOrder(marks, now)
    ensures H.InOrder(Of(marks, g), now)
    ensures marks != [] ==> forall o <- Of(marks, g) :: o.at <= marks[|marks| - 1].outcome.at
  {
    if marks != [] {
      var n := |marks| - 1;
      OfInOrder(marks[..n], g, now);
      if n > 0 {
        assert marks[..n][n - 1] == marks[n - 1];
        assert marks[n - 1].outcome.at <= marks[n].outcome.at;
      }
    }
  }

  lemma AppendInOrder(a: seq<Mark>, b: seq<Mark>, mid: int, now: int)
    requires MarksInOrder(a, mid) && MarksInOrder(b, now) && mid <= now
    requires forall i :: 0 <= i < |b| ==> mid <= b[i].outcome.at
    ensures MarksInOrder(a + b, now)
  {
  }

  lemma AddedInOrder(setup: Setup, marks: seq<Mark>, a: Attempt, now: int)
    requires forall k: nat :: a.start <= a.ends(k) <= now
    requires forall k: nat, l: nat :: k <= l ==> a.ends(k) <= a.ends(l)
    ensures MarksInOrder(Added(setup, marks, a), now)
    ensures forall i :: 0 <= i < |Added(setup, marks, a)| ==> a.start <= Added(setup, marks, a)[i].outcome.at
  {
    hide FallbackSpec, RouteAt;
  }

  lemma {:induction false} RunInOrder(setup: Setup, calls: seq<Attempt>, now: int)
    requires InTurn(calls, now)
    ensures MarksInOrder(Run(setup, calls), now)
  {
    hide MarksInOrder, Added;
    if calls == [] {
      NoneInOrder(now);
    } else {
      var n := |calls| - 1;
      var before := Run(setup, calls[..n]);
      RunInOrder(setup, calls[..n], calls[n].start);
      AddedInOrder(setup, before, calls[n], now);
      assert calls[n].start <= calls[n].ends(0) <= now;
      AppendInOrder(before, Added(setup, before, calls[n]), calls[n].start, now);
    }
  }

  lemma NoneInOrder(now: int)
    ensures MarksInOrder([], now)
  {
  }

  /**
   The loop closed: a gateway is left out of the route exactly while a fifth consecutive
   recorded failure of its own is less than 30 s old and some other gateway has none.
   */
  lemma LeftOutIff(setup: Setup, calls: seq<Attempt>, g: Gateway, now: int)
    requires Valid(setup.primary) && Valid(g) && InTurn(calls, now)
    ensures var marks := Run(setup, calls);
            g !in RouteAt(setup, marks, now) <==>
              setup.monitored && Tripped(marks, g, now) && exists h :: Valid(h) && !Tripped(marks, h, now)
  {
    RunInOrder(setup, calls, now);
    var marks := Run(setup, calls);
    forall h ensures H.After(Of(marks, h)).circuit.Live(now) <==> Tripped(marks, h, now) {
      OfInOrder(marks, h, now);
      H.CircuitOpenIff(Of(marks, h), now);
    }
    hide H.After, Tripped, Of, RouteSpec;
    RouteProperties(setup.primary, if setup.monitored then Some(CircuitsAt(marks, now)) else None);
  }

  /** A walk records each gateway of the route at most once, and no other. */
  lemma {:induction false} RecordedOnce(route: seq<Gateway>, adapters: set<Gateway>, ref: string,
                                        initiate: Initiate, last: Refusal)
    requires NoRepeats(route)
    ensures var recorded := FallbackSpec(route, adapters, ref, initiate, last).recorded;
            && (forall r <- recorded :: r.gateway in route)
            && forall i, j :: 0 <= i < j < |recorded| ==> recorded[i].gateway != recorded[j].gateway
  {
    hide AttemptRef;
    if route != [] {
      var g, tail := route[0], route[1..];
      assert forall h <- tail :: h in route && h != g;
      RecordedOnce(tail, adapters, ref, initiate, NextRefusal(adapters, ref, initiate, g, last));
    }
  }

  lemma {:induction false} OfOnce(recorded: seq<Recorded>, ends: nat -> int, g: Gateway)
    requires forall i, j :: 0 <= i < j < |recorded| ==> recorded[i].gateway != recorded[j].gateway
    ensures |Of(MarksOf(recorded, ends), g)| <= 1
    ensures Of(MarksOf(recorded, ends), g) != [] ==>
              exists k :: && 0 <= k < |recorded| && recorded[k].gateway == g
                          && Of(MarksOf(recorded, ends), g)[0].at == ends(k)
    ensures (forall r <- recorded :: r.gateway != g) ==> Of(MarksOf(recorded, ends), g) == []
  {
    if recorded != [] {
      var n := |recorded| - 1;
      assert MarksOf(recorded, ends)[..n] == MarksOf(recorded[..n], ends);
      OfOnce(recorded[..n], ends, g);
    }
  }

  /** One call adds at most one result of a gateway, and none of a gateway left out of its route. */
  lemma AddedOnce(setup: Setup, marks: seq<Mark>, a: Attempt, g: Gateway)
    requires Valid(setup.primary)
    ensures |Of(Added(setup, marks, a), g)| <= 1
    ensures Of(Added(setup, marks, a), g) != [] ==>
              g in RouteAt(setup, marks, a.start) && exists k: nat :: Of(Added(setup, marks, a), g)[0].at == a.ends(k)
  {
    hide RouteSpec, AttemptRef;
    RouteProperties(setup.primary, if setup.monitored then Some(CircuitsAt(marks, a.start)) else None);
    var route := RouteAt(setup, marks, a.start);
    RecordedOnce(route, setup.adapters, a.ref, a.initiate, NoneTried);
    var recorded := FallbackSpec(route, setup.adapters, a.ref, a.initiate, NoneTried).recorded;
    assert forall i, j :: 0 <= i < j < |recorded| ==> recorded[i].gateway != recorded[j].gateway;
    OfOnce(recorded, a.ends, g);
  }

  /** At the start of every call some gateway is untripped. */
  ghost predicate AlwaysOneHealthy(setup: Setup, calls: seq<Attempt>) {
    forall n :: 0 <= n < |calls| ==> OneHealthy(setup, calls, n)
  }

  ghost predicate OneHealthy(setup: Setup, calls: seq<Attempt>, n: nat)
    requires n < |calls|
  {
    exists h :: Valid(h) && !Tripped(Run(setup, calls[..n]), h, calls[n].start)
  }

  /**
   A failing gateway is spared: as long as there is always another one to turn to, the next
   result after a fifth or later failure in a row comes at least 30 s after it.
   */
  lemma {:induction false} FailingGatewayRests(setup: Setup, calls: seq<Attempt>, g: Gateway, now: int, i: nat)
    requires Valid(setup.primary) && Valid(g) && setup.monitored && InTurn(calls, now) && AlwaysOneHealthy(setup, calls)
    requires i + 1 < |Of(Run(setup, calls), g)| && H.Trips(Of(Run(setup, calls), g), i)
    ensures var h := Of(Run(setup, calls), g); h[i + 1].at - h[i].at >= H.OPEN_TTL
  {
    hide Tripped, H.Trips, RouteAt, Added;
    assert calls != [];
    var n := |calls| - 1;
    var before, a := calls[..n], calls[n];
    var marks := Run(setup, before);
    var old0, new0 := Of(marks, g), Of(Added(setup, marks, a), g);
    OfConcat(marks, Added(setup, marks, a), g);
    AddedOnce(setup, marks, a, g);
    assert |old0| >= i + 1;
    PrefixTrips(old0, new0, i);
    PrefixHealthy(setup, calls, n);
    if |old0| > i + 1 {
      FailingGatewayRests(setup, before, g, a.start, i);
    } else {
      assert OneHealthy(setup, calls, n);
      LeftOutIff(setup, before, g, a.start);
      assert !Tripped(marks, g, a.start);
      NotTripped(marks, g, a.start, i);
    }
  }

  lemma PrefixTrips(h: seq<H.Outcome>, more: seq<H.Outcome>, i: nat)
    requires i < |h| && H.Trips(h + more, i)
    ensures H.Trips(h, i)
  {
    assert (h + more)[..i + 1] == h[..i + 1];
  }

  lemma PrefixHealthy(setup: Setup, calls: seq<Attempt>, n: nat)
    requires n <= |calls| && AlwaysOneHealthy(setup, calls)
    ensures AlwaysOneHealthy(setup, calls[..n])
  {
    hide Run, Tripped;
    forall m | 0 <= m < n ensures OneHealthy(setup, calls[..n], m) {
      assert OneHealthy(setup, calls, m);
      assert calls[..n][..m] == calls[..m];
    }
  }

  lemma NotTripped(marks: seq<Mark>, g: Gateway, now: int, i: nat)
    requires !Tripped(marks, g, now) && i < |Of(marks, g)| && H.Trips(Of(marks, g), i)
    ensures now - Of(marks, g)[i].at >= H.OPEN_TTL
  {
  }
}
