/** Gateway ranking and fallback (internal/gateway/router.go). */
module Router {
  import opened Prelude
  import opened Gateways
  import opened Reference

  /** IsCircuitOpen's reply; `Unknown` when the health store fails. */
  datatype Circuit = Closed | Open | Unknown

  type Circuits = Gateway -> Circuit

  /** How an adapter answers Initiate. */
  datatype Reply = Accepted(externalRef: string, url: string) | NotConfigured | Rejected

  /** The adapters, as one function of the gateway and the reference it is sent. */
  type Initiate = (Gateway, string) -> Reply

  datatype Refusal = NoneTried | Unconfigured | GatewayFailed(gateway: Gateway)

  datatype Acceptance = Acceptance(gateway: Gateway, externalRef: string, url: string)

  datatype Sent = Sent(gateway: Gateway, ref: string)

  datatype Recorded = Recorded(gateway: Gateway, success: bool)

  /** Calls made, results forwarded to the health store, and the answer. */
  datatype Outcome = Outcome(sent: seq<Sent>, recorded: seq<Recorded>, result: Result<Acceptance, Refusal>)

  const ALL: seq<Gateway> := [HUBTEL, PAYSTACK, MOOLRE]

  function Without(gs: seq<Gateway>, g: Gateway): seq<Gateway> {
    if gs == [] then []
    else Without(gs[..|gs| - 1], g) + if gs[|gs| - 1] == g then [] else [gs[|gs| - 1]]
  }

  function ClosedOnly(gs: seq<Gateway>, circuits: Circuits): seq<Gateway> {
    if gs == [] then []
    else ClosedOnly(gs[..|gs| - 1], circuits) + if circuits(gs[|gs| - 1]) == Closed then [gs[|gs| - 1]] else []
  }

  function RouteSpec(primary: Gateway, circuits: Option<Circuits>): seq<Gateway> {
    var order := [primary] + Without(ALL, primary);
    if circuits.None? then order
    else if ClosedOnly(order, circuits.value) == [] then order
    else ClosedOnly(order, circuits.value)
  }

  /** The router's configuration. */
  datatype Setup = Setup(primary: Gateway, adapters: set<Gateway>, monitored: bool) {
    function Route(circuits: Circuits): seq<Gateway> {
      RouteSpec(primary, if monitored then Some(circuits) else None)
    }
  }

  /** The reference an attempt on `g` carries. */
  function AttemptRef(ref: string, g: Gateway): string {
    var parsed := ParseReference(ref);
    if parsed.Some? then BuildReference(parsed.value.product, g, parsed.value.ulid) else ref
  }

  function NextRefusal(adapters: set<Gateway>, ref: string, initiate: Initiate, g: Gateway, last: Refusal): Refusal {
    if g !in adapters then last
    else if initiate(g, AttemptRef(ref, g)).NotConfigured? then Unconfigured
    else GatewayFailed(g)
  }

  /** The attempts along a route, given the last error so far. */
  function FallbackSpec(route: seq<Gateway>, adapters: set<Gateway>, ref: string, initiate: Initiate,
                        last: Refusal): Outcome {
    if route == [] then Outcome([], [], Err(last))
    else
      var g := route[0];
      if g !in adapters then FallbackSpec(route[1..], adapters, ref, initiate, last)
      else
        var call := Sent(g, AttemptRef(ref, g));
        match initiate(g, call.ref)
        case Accepted(externalRef, url) => Outcome([call], [Recorded(g, true)], Ok(Acceptance(g, externalRef, url)))
        case NotConfigured =>
          var rest := FallbackSpec(route[1..], adapters, ref, initiate, Unconfigured);
          rest.(sent := [call] + rest.sent)
        case Rejected =>
          var rest := FallbackSpec(route[1..], adapters, ref, initiate, GatewayFailed(g));
          Outcome([call] + rest.sent, [Recorded(g, false)] + rest.recorded, rest.result)
  }

  /** What is done so far, followed by `rest`, is the whole. */
  ghost predicate Continues(whole: Outcome, sent0: seq<Sent>, recorded0: seq<Recorded>,
                            sent: seq<Sent>, recorded: seq<Recorded>, rest: Outcome) {
    && whole.result == rest.result
    && sent0 + whole.sent == sent + rest.sent
    && recorded0 + whole.recorded == recorded + rest.recorded
  }

  lemma Shift<T>(s: seq<T>, x: T, t: seq<T>)
    ensures s + ([x] + t) == s + [x] + t
  {
  }

  lemma FallbackStep(route: seq<Gateway>, i: nat, adapters: set<Gateway>, ref: string, initiate: Initiate,
                     last: Refusal)
    requires i < |route|
    ensures var g := route[i];
            var call := Sent(g, AttemptRef(ref, g));
            var o := FallbackSpec(route[i..], adapters, ref, initiate, last);
            && (g !in adapters ==> o == FallbackSpec(route[i + 1..], adapters, ref, initiate, last))
            && (g in adapters ==>
                  match initiate(g, call.ref)
                  case Accepted(externalRef, url) =>
                    o == Outcome([call], [Recorded(g, true)], Ok(Acceptance(g, externalRef, url)))
                  case NotConfigured =>
                    var rest := FallbackSpec(route[i + 1..], adapters, ref, initiate, Unconfigured);
                    o == rest.(sent := [call] + rest.sent)
                  case Rejected =>
                    var rest := FallbackSpec(route[i + 1..], adapters, ref, initiate, GatewayFailed(g));
                    o == Outcome([call] + rest.sent, [Recorded(g, false)] + rest.recorded, rest.result))
  {
    assert route[i..][0] == route[i] && route[i..][1..] == route[i + 1..];
  }

  lemma FallbackEnd(route: seq<Gateway>, adapters: set<Gateway>, ref: string, initiate: Initiate, last: Refusal)
    ensures FallbackSpec(route[|route|..], adapters, ref, initiate, last) == Outcome([], [], Err(last))
  {
  }

  class ChargerRouter {
    const primary: Gateway
    const adapters: set<Gateway>
    const monitored: bool
    var sent: seq<Sent>
    var recorded: seq<Recorded>

    /** An unknown primary falls back to Paystack. */
    constructor (primary: Gateway, adapters: set<Gateway>, monitored: bool)
      ensures this.primary == (if Valid(primary) then primary else PAYSTACK)
      ensures this.adapters == adapters && this.monitored == monitored && sent == [] && recorded == []
    {
      this.primary := if Valid(primary) then primary else PAYSTACK;
      this.adapters, this.monitored, sent, recorded := adapters, monitored, [], [];
    }

    function Config(): Setup {
      Setup(primary, adapters, monitored)
    }

    function Health(circuits: Circuits): Option<Circuits> {
      if monitored then Some(circuits) else None
    }

    method Route(circuits: Circuits) returns (route: seq<Gateway>)
      ensures route == RouteSpec(primary, Health(circuits))
    {
      var order := [primary];
      for i := 0 to |ALL|
        invariant order == [primary] + Without(ALL[..i], primary)
      {
        assert ALL[..i + 1][..i] == ALL[..i];
        if ALL[i] != primary {
          order := order + [ALL[i]];
        }
      }
      assert ALL[..|ALL|] == ALL;
      if !monitored {
        return order;
      }
      var out: seq<Gateway> := [];
      for i := 0 to |order|
        invariant out == ClosedOnly(order[..i], circuits)
      {
        assert order[..i + 1][..i] == order[..i];
        var state := circuits(order[i]);
        if state == Unknown || state == Open {
          continue;
        }
        out := out + [order[i]];
      }
      assert order[..|order|] == order;
      if |out| == 0 {
        return order;
      }
      return out;
    }

    method InitiateWithFallback(ref: string, circuits: Circuits, initiate: Initiate)
      returns (r: Result<Acceptance, Refusal>)
      modifies this
      ensures var o := FallbackSpec(RouteSpec(primary, Health(circuits)), adapters, ref, initiate, NoneTried);
              r == o.result && sent == old(sent) + o.sent && recorded == old(recorded) + o.recorded
    {
      var lastErr := NoneTried;
      var product, ulid, canRebuild := "", "", false;
      var parsed := ParseReference(ref);
      if parsed.Some? {
        product, ulid, canRebuild := parsed.value.product, parsed.value.ulid, true;
      }
      var route := Route(circuits);
      ghost var whole := FallbackSpec(route, adapters, ref, initiate, NoneTried);
      assert route[0..] == route;
      hide FallbackSpec, RouteSpec, BuildReference, ParseReference;
      for i := 0 to |route|
        invariant canRebuild == parsed.Some?
        invariant canRebuild ==> product == parsed.value.product && ulid == parsed.value.ulid
        invariant Continues(whole, old(sent), old(recorded), sent, recorded,
                            FallbackSpec(route[i..], adapters, ref, initiate, lastErr))
      {
        var g := route[i];
        FallbackStep(route, i, adapters, ref, initiate, lastErr);
        ghost var ahead := FallbackSpec(route[i + 1..], adapters, ref, initiate,
                                        NextRefusal(adapters, ref, initiate, g, lastErr));
        Shift(sent, Sent(g, AttemptRef(ref, g)), ahead.sent);
        Shift(recorded, Recorded(g, false), ahead.recorded);
        if g !in adapters {
          continue;
        }
        var attemptRef := ref;
        if canRebuild {
          attemptRef := BuildReference(product, g, ulid);
        }
        sent := sent + [Sent(g, attemptRef)];
        match initiate(g, attemptRef) {
          case Accepted(externalRef, url) =>
            recorded := recorded + [Recorded(g, true)];
            return Ok(Acceptance(g, externalRef, url));
          case NotConfigured =>
            lastErr := Unconfigured;
            continue;
          case Rejected =>
            recorded := recorded + [Recorded(g, false)];
            lastErr := GatewayFailed(g);
        }
      }
      FallbackEnd(route, adapters, ref, initiate, lastErr);
      return Err(lastErr);
    }

    method Adapter(g: Gateway) returns (known: bool)
      ensures known == (g in adapters)
    {
      known := g in adapters;
    }
  }

  // ---------------------------------------------------------------- properties

  ghost predicate NoRepeats(gs: seq<Gateway>) {
    forall i, j :: 0 <= i < j < |gs| ==> gs[i] != gs[j]
  }

  lemma {:induction false} ClosedOnlyKeeps(gs: seq<Gateway>, circuits: Circuits)
    requires NoRepeats(gs)
    ensures NoRepeats(ClosedOnly(gs, circuits))
    ensures forall g :: g in ClosedOnly(gs, circuits) <==> g in gs && circuits(g) == Closed
    ensures gs != [] && circuits(gs[0]) == Closed ==>
              ClosedOnly(gs, circuits) != [] && ClosedOnly(gs, circuits)[0] == gs[0]
  {
    if gs != [] {
      var n := |gs| - 1;
      ClosedOnlyKeeps(gs[..n], circuits);
      assert gs == gs[..n] + [gs[n]];
      assert n > 0 ==> gs[..n][0] == gs[0];
    }
  }

  lemma RankedOrder(primary: Gateway)
    requires Valid(primary)
    ensures var order := [primary] + Without(ALL, primary);
            NoRepeats(order) && forall g :: g in order <==> Valid(g)
  {
    assert ALL[..2] == [HUBTEL, PAYSTACK] && [HUBTEL, PAYSTACK][..1] == [HUBTEL] && [HUBTEL][..0] == [];
    assert HUBTEL[0] == 'h' && PAYSTACK[0] == 'p' && MOOLRE[0] == 'm';
    assert Without([HUBTEL], primary) == if primary == HUBTEL then [] else [HUBTEL];
    assert Without([HUBTEL, PAYSTACK], primary)
        == Without([HUBTEL], primary) + if primary == PAYSTACK then [] else [PAYSTACK];
    var rest := Without(ALL, primary);
    assert rest == if primary == HUBTEL then [PAYSTACK, MOOLRE]
                   else if primary == PAYSTACK then [HUBTEL, MOOLRE] else [HUBTEL, PAYSTACK];
  }

  /**
   A route is never empty and never names a gateway twice; it holds the gateways whose
   circuit is closed, or all of them when none is, and the primary leads if it is in it.
   */
  lemma RouteProperties(primary: Gateway, circuits: Option<Circuits>)
    requires Valid(primary)
    ensures var route := RouteSpec(primary, circuits);
            && route != [] && NoRepeats(route)
            && (primary in route ==> route[0] == primary)
            && forall g :: g in route <==>
                 Valid(g) && (circuits.None? || circuits.value(g) == Closed
                              || forall h :: Valid(h) ==> circuits.value(h) != Closed)
  {
    var order := [primary] + Without(ALL, primary);
    RankedOrder(primary);
    if circuits.Some? {
      ClosedOnlyKeeps(order, circuits.value);
      var closed := ClosedOnly(order, circuits.value);
      if closed == [] {
        forall g | Valid(g) ensures circuits.value(g) != Closed {
          assert g in order;
        }
      } else {
        assert closed[0] in closed;
      }
    }
  }

  /** The fixed ranking behind the primary. */
  ghost function Rank(primary: Gateway, g: Gateway): int {
    if g == primary then 0 else if g == "hubtel" then 1 else if g == "paystack" then 2 else 3
  }

  ghost predicate Ranked(primary: Gateway, gs: seq<Gateway>) {
    forall i, j :: 0 <= i < j < |gs| ==> Rank(primary, gs[i]) < Rank(primary, gs[j])
  }

  lemma RankedAppend(primary: Gateway, gs: seq<Gateway>, g: Gateway)
    requires Ranked(primary, gs) && forall h <- gs :: Rank(primary, h) < Rank(primary, g)
    ensures Ranked(primary, gs + [g])
  {
    hide Rank;
    var all, n := gs + [g], |gs|;
    forall i, j | 0 <= i < j < |all| ensures Rank(primary, all[i]) < Rank(primary, all[j]) {
      assert all[i] == gs[i] && gs[i] in gs;
      assert j < n ==> all[j] == gs[j];
    }
  }

  lemma {:induction false} ClosedOnlyRanked(primary: Gateway, gs: seq<Gateway>, circuits: Circuits)
    requires Ranked(primary, gs)
    ensures Ranked(primary, ClosedOnly(gs, circuits))
    ensures forall g <- ClosedOnly(gs, circuits) :: g in gs
  {
    hide Rank;
    if gs == [] {
      return;
    }
    var n := |gs| - 1;
    var before := ClosedOnly(gs[..n], circuits);
    ClosedOnlyRanked(primary, gs[..n], circuits);
    forall g <- before ensures g in gs && Rank(primary, g) < Rank(primary, gs[n]) {
      var i :| 0 <= i < |gs[..n]| && gs[..n][i] == g;
      assert gs[i] == g;
    }
    RankedAppend(primary, before, gs[n]);
    assert before + [] == before;
  }

  /** Whatever is open, a route tries the primary first and the others in the order hubtel, paystack, moolre. */
  lemma RouteIsRanked(primary: Gateway, circuits: Option<Circuits>)
    requires Valid(primary)
    ensures Ranked(primary, RouteSpec(primary, circuits))
  {
    var order := [primary] + Without(ALL, primary);
    assert ALL[..2] == [HUBTEL, PAYSTACK] && [HUBTEL, PAYSTACK][..1] == [HUBTEL] && [HUBTEL][..0] == [];
    assert HUBTEL[0] == 'h' && PAYSTACK[0] == 'p' && MOOLRE[0] == 'm';
    assert Without([HUBTEL], primary) == if primary == HUBTEL then [] else [HUBTEL];
    assert Without([HUBTEL, PAYSTACK], primary)
        == Without([HUBTEL], primary) + if primary == PAYSTACK then [] else [PAYSTACK];
    assert Ranked(primary, order);
    if circuits.Some? {
      ClosedOnlyRanked(primary, order, circuits.value);
    }
  }

  ghost predicate Accepts(adapters: set<Gateway>, ref: string, initiate: Initiate, g: Gateway) {
    g in adapters && initiate(g, AttemptRef(ref, g)).Accepted?
  }

  /** The first gateway along the route that accepts. */
  ghost predicate IsFirstAcceptor(route: seq<Gateway>, adapters: set<Gateway>, ref: string, initiate: Initiate,
                                  k: int) {
    && 0 <= k < |route|
    && Accepts(adapters, ref, initiate, route[k])
    && forall j :: 0 <= j < k ==> !Accepts(adapters, ref, initiate, route[j])
  }

  /** A charge succeeds exactly when some gateway on the route accepts it, and goes to the first that does. */
  lemma {:induction false} FirstAcceptorWins(route: seq<Gateway>, adapters: set<Gateway>, ref: string,
                                             initiate: Initiate, last: Refusal)
    ensures var o := FallbackSpec(route, adapters, ref, initiate, last);
            && (o.result.Ok? <==> exists k :: IsFirstAcceptor(route, adapters, ref, initiate, k))
            && (o.result.Ok? ==>
                  exists k :: IsFirstAcceptor(route, adapters, ref, initiate, k) && route[k] == o.result.value.gateway)
  {
    if route != [] {
      var g, tail := route[0], route[1..];
      if Accepts(adapters, ref, initiate, g) {
        assert IsFirstAcceptor(route, adapters, ref, initiate, 0);
      } else {
        FirstAcceptorWins(tail, adapters, ref, initiate, NextRefusal(adapters, ref, initiate, g, last));
        forall k
          ensures IsFirstAcceptor(tail, adapters, ref, initiate, k)
             <==> IsFirstAcceptor(route, adapters, ref, initiate, k + 1)
        {
          assert 0 <= k < |tail| ==> tail[k] == route[k + 1];
          AcceptorShifts(route, adapters, ref, initiate, k);
        }
        if k :| IsFirstAcceptor(route, adapters, ref, initiate, k) {
          assert IsFirstAcceptor(tail, adapters, ref, initiate, k - 1);
        }
      }
    }
  }

  lemma AcceptorShifts(route: seq<Gateway>, adapters: set<Gateway>, ref: string, initiate: Initiate, k: int)
    requires route != [] && !Accepts(adapters, ref, initiate, route[0])
    ensures IsFirstAcceptor(route[1..], adapters, ref, initiate, k) ==>
              IsFirstAcceptor(route, adapters, ref, initiate, k + 1)
    ensures IsFirstAcceptor(route, adapters, ref, initiate, k + 1) ==>
              k >= 0 && IsFirstAcceptor(route[1..], adapters, ref, initiate, k)
    ensures !IsFirstAcceptor(route, adapters, ref, initiate, 0)
  {
    var tail := route[1..];
    assert forall j :: 0 <= j < |tail| ==> tail[j] == route[j + 1];
    assert forall j :: 1 <= j < |route| ==> route[j] == tail[j - 1];
  }

  /**
   Every call carries the reference of the gateway it goes to, and only the last one can
   have been accepted: the accepting gateway got exactly the reference of the result.
   */
  lemma {:induction false} OnlyTheLastCallIsAccepted(route: seq<Gateway>, adapters: set<Gateway>, ref: string,
                                                     initiate: Initiate, last: Refusal)
    ensures var o := FallbackSpec(route, adapters, ref, initiate, last);
            && (forall i :: 0 <= i < |o.sent| ==>
                  && o.sent[i].gateway in route && o.sent[i].gateway in adapters
                  && o.sent[i].ref == AttemptRef(ref, o.sent[i].gateway)
                  && (initiate(o.sent[i].gateway, o.sent[i].ref).Accepted? <==> o.result.Ok? && i == |o.sent| - 1))
            && (o.result.Ok? ==>
                  && o.sent != [] && o.sent[|o.sent| - 1].gateway == o.result.value.gateway
                  && initiate(o.sent[|o.sent| - 1].gateway, o.sent[|o.sent| - 1].ref)
                     == Accepted(o.result.value.externalRef, o.result.value.url))
  {
    hide ParseReference, BuildReference, AttemptRef;
    if route != [] {
      var g, tail := route[0], route[1..];
      OnlyTheLastCallIsAccepted(tail, adapters, ref, initiate, NextRefusal(adapters, ref, initiate, g, last));
    }
  }

  /** The last gateway along the route that has an adapter. */
  ghost predicate IsLastKnown(route: seq<Gateway>, adapters: set<Gateway>, k: int) {
    && 0 <= k < |route| && route[k] in adapters
    && forall j :: k < j < |route| ==> route[j] !in adapters
  }

  /** The refusal of a gateway that is asked and does not accept. */
  ghost function RefusalOf(ref: string, initiate: Initiate, g: Gateway): Refusal {
    if initiate(g, AttemptRef(ref, g)).NotConfigured? then Unconfigured else GatewayFailed(g)
  }

  lemma LastKnownNext(route: seq<Gateway>, adapters: set<Gateway>, k: int)
    requires route != [] && IsLastKnown(route, adapters, k)
    ensures k > 0 ==> IsLastKnown(route[1..], adapters, k - 1) && route[1..][k - 1] == route[k]
    ensures k == 0 ==> forall h <- route[1..] :: h !in adapters
  {
    var tail := route[1..];
    assert forall j :: 0 <= j < |tail| ==> tail[j] == route[j + 1];
  }

  /** A walk that nobody accepts fails for the reason of the last gateway asked. */
  lemma {:induction false} FailedWalk(route: seq<Gateway>, adapters: set<Gateway>, ref: string,
                                      initiate: Initiate, last: Refusal)
    requires forall g <- route :: !Accepts(adapters, ref, initiate, g)
    ensures (forall g <- route :: g !in adapters) ==>
              FallbackSpec(route, adapters, ref, initiate, last).result == Err(last)
    ensures forall k :: IsLastKnown(route, adapters, k) ==>
              FallbackSpec(route, adapters, ref, initiate, last).result == Err(RefusalOf(ref, initiate, route[k]))
  {
    hide AttemptRef, IsLastKnown;
    if route == [] {
      LastKnownInRange(route, adapters);
      return;
    }
    var g, tail := route[0], route[1..];
    var next := NextRefusal(adapters, ref, initiate, g, last);
    assert g in route && forall h <- tail :: h in route;
    var result := FallbackSpec(tail, adapters, ref, initiate, next).result;
    assert FallbackSpec(route, adapters, ref, initiate, last).result == result;
    FailedWalk(tail, adapters, ref, initiate, next);
    LastKnownInRange(route, adapters);
    forall k | 0 <= k < |route| && IsLastKnown(route, adapters, k)
      ensures result == Err(RefusalOf(ref, initiate, route[k]))
    {
      LastKnownNext(route, adapters, k);
      if k == 0 {
        HeadIsKnown(route, adapters);
      }
    }
  }

  lemma LastKnownInRange(route: seq<Gateway>, adapters: set<Gateway>)
    ensures forall k :: IsLastKnown(route, adapters, k) ==> 0 <= k < |route|
  {
  }

  lemma HeadIsKnown(route: seq<Gateway>, adapters: set<Gateway>)
    requires IsLastKnown(route, adapters, 0)
    ensures route[0] in adapters
  {
  }

  ghost predicate Sends(sent: seq<Sent>, g: Gateway) {
    exists i :: 0 <= i < |sent| && sent[i].gateway == g
  }

  /** Every gateway with an adapter is asked, up to the first that accepts, and no other. */
  ghost predicate Asked(route: seq<Gateway>, adapters: set<Gateway>, ref: string, initiate: Initiate, sent: seq<Sent>) {
    forall k :: 0 <= k < |route| ==>
      (Sends(sent, route[k]) <==> route[k] in adapters && NoneAccepts(route[..k], adapters, ref, initiate))
  }

  ghost predicate NoneAccepts(gs: seq<Gateway>, adapters: set<Gateway>, ref: string, initiate: Initiate) {
    forall g <- gs :: !Accepts(adapters, ref, initiate, g)
  }

  /** What reaches the health store of these calls: acceptance and rejection, but not a missing configuration. */
  function Results(sent: seq<Sent>, initiate: Initiate): seq<Recorded> {
    if sent == [] then []
    else
      var reply := initiate(sent[0].gateway, sent[0].ref);
      (if reply.NotConfigured? then [] else [Recorded(sent[0].gateway, reply.Accepted?)]) + Results(sent[1..], initiate)
  }

  /** What is recorded is what the gateways answered. */
  lemma {:induction false} RecordedIsWhatHappened(route: seq<Gateway>, adapters: set<Gateway>, ref: string,
                                                  initiate: Initiate, last: Refusal)
    ensures var o := FallbackSpec(route, adapters, ref, initiate, last); o.recorded == Results(o.sent, initiate)
  {
    hide AttemptRef;
    if route != [] {
      var g, tail := route[0], route[1..];
      var rest := FallbackSpec(tail, adapters, ref, initiate, NextRefusal(adapters, ref, initiate, g, last));
      RecordedIsWhatHappened(tail, adapters, ref, initiate, NextRefusal(adapters, ref, initiate, g, last));
      assert ([Sent(g, AttemptRef(ref, g))] + rest.sent)[1..] == rest.sent;
    }
  }

  lemma {:induction false} NobodyIsSkipped(route: seq<Gateway>, adapters: set<Gateway>, ref: string, initiate: Initiate,
                                           last: Refusal)
    requires NoRepeats(route)
    ensures Asked(route, adapters, ref, initiate, FallbackSpec(route, adapters, ref, initiate, last).sent)
    ensures forall s <- FallbackSpec(route, adapters, ref, initiate, last).sent :: s.gateway in route
  {
    hide AttemptRef, Accepts, Sends;
    if route != [] {
      var g, tail := route[0], route[1..];
      var rest := FallbackSpec(tail, adapters, ref, initiate, NextRefusal(adapters, ref, initiate, g, last)).sent;
      var sent := FallbackSpec(route, adapters, ref, initiate, last).sent;
      assert forall h <- tail :: h in route && h != g;
      NobodyIsSkipped(tail, adapters, ref, initiate, NextRefusal(adapters, ref, initiate, g, last));
      FirstAsked(route, adapters, ref, initiate, last);
      forall k | 0 <= k < |route|
        ensures Sends(sent, route[k]) <==> route[k] in adapters && NoneAccepts(route[..k], adapters, ref, initiate)
      {
        if k > 0 {
          assert route[..k] == [g] + tail[..k - 1] && tail[k - 1] == route[k];
          assert NoneAccepts(route[..k], adapters, ref, initiate) <==>
                   !Accepts(adapters, ref, initiate, g) && NoneAccepts(tail[..k - 1], adapters, ref, initiate);
        }
      }
    }
  }

  lemma SendsCons(call: Sent, rest: seq<Sent>, g: Gateway)
    ensures Sends([call] + rest, g) <==> call.gateway == g || Sends(rest, g)
  {
    var sent := [call] + rest;
    assert sent[0] == call && forall i :: 0 <= i < |rest| ==> sent[i + 1] == rest[i];
    if i :| 0 <= i < |sent| && sent[i].gateway == g {
      assert i > 0 ==> rest[i - 1].gateway == g;
    }
    if i :| 0 <= i < |rest| && rest[i].gateway == g {
      assert sent[i + 1].gateway == g;
    }
  }

  lemma SomeSends(sent: seq<Sent>, g: Gateway)
    requires Sends(sent, g)
    ensures exists s <- sent :: s.gateway == g
  {
    var i :| 0 <= i < |sent| && sent[i].gateway == g;
    assert sent[i] in sent;
  }

  lemma FirstAsked(route: seq<Gateway>, adapters: set<Gateway>, ref: string, initiate: Initiate, last: Refusal)
    requires route != [] && forall h <- route[1..] :: h != route[0]
    requires var next := NextRefusal(adapters, ref, initiate, route[0], last);
             forall s <- FallbackSpec(route[1..], adapters, ref, initiate, next).sent :: s.gateway in route[1..]
    ensures var g, next := route[0], NextRefusal(adapters, ref, initiate, route[0], last);
            var rest := FallbackSpec(route[1..], adapters, ref, initiate, next).sent;
            var sent := FallbackSpec(route, adapters, ref, initiate, last).sent;
            && (Sends(sent, g) <==> g in adapters)
            && (forall h :: h != g ==> (Sends(sent, h) <==> !Accepts(adapters, ref, initiate, g) && Sends(rest, h)))
            && forall s <- sent :: s.gateway in route
  {
    hide AttemptRef, Sends;
    var g, next := route[0], NextRefusal(adapters, ref, initiate, route[0], last);
    var rest := FallbackSpec(route[1..], adapters, ref, initiate, next).sent;
    var sent := FallbackSpec(route, adapters, ref, initiate, last).sent;
    var call := [Sent(g, AttemptRef(ref, g))];
    assert g !in adapters ==> sent == rest;
    assert Accepts(adapters, ref, initiate, g) ==> sent == call;
    assert g in adapters && !Accepts(adapters, ref, initiate, g) ==> sent == call + rest;
    assert call[0] in call && call + [] == call;
    forall h ensures Sends(call + rest, h) <==> h == g || Sends(rest, h) {
      SendsCons(call[0], rest, h);
    }
    forall h ensures Sends(call, h) <==> h == g {
      SendsCons(call[0], [], h);
      assert !Sends([], h) by {
        if Sends([], h) {
          SomeSends([], h);
        }
      }
    }
    forall h | Sends(rest, h) ensures h in route[1..] {
      SomeSends(rest, h);
    }
  }

  /** `g` comes before `h` along the route. */
  ghost predicate Before(route: seq<Gateway>, g: Gateway, h: Gateway) {
    exists p, q :: 0 <= p < q < |route| && route[p] == g && route[q] == h
  }

  lemma {:induction false} AskedInRouteOrder(route: seq<Gateway>, adapters: set<Gateway>, ref: string,
                                             initiate: Initiate, last: Refusal)
    ensures var sent := FallbackSpec(route, adapters, ref, initiate, last).sent;
            && (forall s <- sent :: s.gateway in route)
            && forall i, j :: 0 <= i < j < |sent| ==> Before(route, sent[i].gateway, sent[j].gateway)
  {
    hide AttemptRef, Before;
    if route != [] {
      var g, tail := route[0], route[1..];
      var rest := FallbackSpec(tail, adapters, ref, initiate, NextRefusal(adapters, ref, initiate, g, last)).sent;
      var sent := FallbackSpec(route, adapters, ref, initiate, last).sent;
      AskedInRouteOrder(tail, adapters, ref, initiate, NextRefusal(adapters, ref, initiate, g, last));
      assert forall h <- tail :: h in route;
      forall i, j | 0 <= i < j < |sent| ensures Before(route, sent[i].gateway, sent[j].gateway) {
        if sent == rest {
          BeforeInTail(route, sent[i].gateway, sent[j].gateway);
        } else {
          assert sent[j] == rest[j - 1] && rest[j - 1] in rest;
          if i > 0 {
            assert sent[i] == rest[i - 1];
            BeforeInTail(route, sent[i].gateway, sent[j].gateway);
          } else {
            HeadBefore(route, sent[j].gateway);
          }
        }
      }
    }
  }

  lemma BeforeInTail(route: seq<Gateway>, g: Gateway, h: Gateway)
    requires route != [] && Before(route[1..], g, h)
    ensures Before(route, g, h)
  {
    var p, q :| 0 <= p < q < |route[1..]| && route[1..][p] == g && route[1..][q] == h;
    assert route[p + 1] == g && route[q + 1] == h;
  }

  lemma HeadBefore(route: seq<Gateway>, h: Gateway)
    requires route != [] && h in route[1..]
    ensures Before(route, route[0], h)
  {
    var q :| 0 <= q < |route[1..]| && route[1..][q] == h;
    assert route[q + 1] == h;
  }
}
