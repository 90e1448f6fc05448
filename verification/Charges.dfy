/**
 Charge initiation (internal/charges/service.go): validation, the idempotency guard,
 ranked fallback, and the intent and outbox event stored under the reference that was
 really sent.
 */
module Charges {
  import opened Prelude
  import opened Gateways
  import opened Money
  import opened Reference
  import opened Router
  import opened Store
  import opened Protocol
  import opened Accounting

  datatype ChargeRequest = ChargeRequest(product: string, amount: Money, wallet: string, phone: string, key: string)

  datatype ChargeResult =
    | Invalid
    | NoGateway
    | Reused(ref: string)
    | Started(ref: string, gateway: Gateway, externalRef: string, url: string)
    | Parked(ref: string, gateway: Gateway)
    | ChargeFailed(reason: Refusal)

  /** Everything one call meets: the two health readings, the adapters, and the fresh identifiers. */
  datatype Call = Call(req: ChargeRequest, first: Circuits, second: Circuits, initiate: Initiate,
                       ulid: string, eventId: string, now: int)

  predicate ValidRequest(req: ChargeRequest) {
    && req.product != ""
    && !req.amount.IsNegative() && !req.amount.IsZero()
    && (req.wallet != "" || req.phone != "")
  }

  function IdemKey(req: ChargeRequest): string {
    req.product + ":" + req.key
  }

  predicate Seen(s: State, req: ChargeRequest) {
    req.key != "" && IdemKey(req) in s.idemKeys
  }

  function BaseRef(setup: Setup, c: Call): string
    requires Valid(setup.primary)
  {
    RouteProperties(setup.primary, if setup.monitored then Some(c.first) else None);
    BuildReference(c.req.product, setup.Route(c.first)[0], c.ulid)
  }

  function Attempts(setup: Setup, c: Call): Outcome
    requires Valid(setup.primary)
  {
    FallbackSpec(setup.Route(c.second), setup.adapters, BaseRef(setup, c), c.initiate, NoneTried)
  }

  /** A call that has passed validation and the idempotency guard; what it answers does not depend on the store. */
  function AfterGuard(s: State, setup: Setup, c: Call): (State, ChargeResult)
    requires Valid(setup.primary)
  {
    var base := BaseRef(setup, c);
    match Attempts(setup, c).result
    case Err(Unconfigured) =>
      RouteProperties(setup.primary, if setup.monitored then Some(c.first) else None);
      var g := setup.Route(c.first)[0];
      (ChargeSpec(s, base, c.req.product, c.req.key, g, "", c.eventId, c.now), Parked(base, g))
    case Err(e) => (s, ChargeFailed(e))
    case Ok(a) =>
      var parsed := ParseReference(base);
      var ref := if parsed.Some? && parsed.value.gateway != a.gateway
                 then BuildReference(parsed.value.product, a.gateway, parsed.value.ulid) else base;
      (ChargeSpec(s, ref, c.req.product, c.req.key, a.gateway, a.url, c.eventId, c.now),
       Started(ref, a.gateway, a.externalRef, a.url))
  }

  /** What a whole call leaves behind: the store, and its answer. */
  function InitiateSpec(s: State, setup: Setup, c: Call): (State, ChargeResult)
    requires Valid(setup.primary)
  {
    if !ValidRequest(c.req) then (s, Invalid)
    else if Seen(s, c.req) then (s, Reused(s.idemKeys[IdemKey(c.req)]))
    else AfterGuard(s, setup, c)
  }

  /** Calls made to gateways: none for an invalid or repeated request. */
  function SentBy(s: State, setup: Setup, c: Call): seq<Sent>
    requires Valid(setup.primary)
  {
    if !ValidRequest(c.req) || Seen(s, c.req) then [] else Attempts(setup, c).sent
  }

  class ChargeService {
    const store: MemoryStore
    const router: ChargerRouter

    constructor (store: MemoryStore, router: ChargerRouter)
      ensures this.store == store && this.router == router
    {
      this.store, this.router := store, router;
    }

    function Config(): Setup {
      router.Config()
    }

    method Initiate(c: Call) returns (r: ChargeResult)
      requires Valid(router.primary)
      modifies store, router
      ensures (store.St(), r) == InitiateSpec(old(store.St()), Config(), c)
      ensures router.sent == old(router.sent) + SentBy(old(store.St()), Config(), c)
    {
      var req := c.req;
      if req.product == "" || req.amount.IsNegative() || req.amount.IsZero() || (req.wallet == "" && req.phone == "") {
        return Invalid;
      }
      if req.key != "" {
        var found := store.FindByIdempotencyKey(req.product, req.key);
        if found.Some? {
          return Reused(found.value);
        }
      }
      hide RouteSpec, FallbackSpec, ParseReference, BuildReference, WithIntent, WithOutboxEvent, Valid;
      var ordered := router.Route(c.first);
      assert |ordered| > 0 by { RouteProperties(router.primary, router.Health(c.first)); }
      if |ordered| == 0 {
        return NoGateway;
      }
      var baseRef := BuildReference(req.product, ordered[0], c.ulid);
      var attempt := router.InitiateWithFallback(baseRef, c.second, c.initiate);
      match attempt {
        case Err(Unconfigured) =>
          var chosen := ordered[0];
          store.CreateIntent(baseRef, req.product, req.key, chosen, "");
          store.InsertOutboxEvent(c.eventId, baseRef, chosen, c.now);
          return Parked(baseRef, chosen);
        case Err(reason) =>
          return ChargeFailed(reason);
        case Ok(resp) =>
          var actualRef := baseRef;
          var parsed := ParseReference(baseRef);
          if parsed.Some? && parsed.value.gateway != resp.gateway {
            actualRef := BuildReference(parsed.value.product, resp.gateway, parsed.value.ulid);
          }
          store.CreateIntent(actualRef, req.product, req.key, resp.gateway, resp.url);
          store.InsertOutboxEvent(c.eventId, actualRef, resp.gateway, c.now);
          return Started(actualRef, resp.gateway, resp.externalRef, resp.url);
      }
    }

    /** Status asks the gateway named by the reference; `None` when there is none to ask. */
    method Status(ref: string, verify: (Gateway, string) -> Verdict)
      returns (asked: Option<Gateway>, r: Option<Verdict>)
      ensures asked == StatusTarget(ref, router.adapters)
      ensures r == if asked.Some? then Some(verify(asked.value, ref)) else None
    {
      var parsed := ParseReference(ref);
      if parsed.None? {
        return None, None;
      }
      var known := router.Adapter(parsed.value.gateway);
      if !known {
        return None, None;
      }
      return Some(parsed.value.gateway), Some(verify(parsed.value.gateway, ref));
    }
  }

  function StatusTarget(ref: string, adapters: set<Gateway>): Option<Gateway> {
    var parsed := ParseReference(ref);
    if parsed.Some? && parsed.value.gateway in adapters then Some(parsed.value.gateway) else None
  }

  // ---------------------------------------------------------------- one call

  lemma RefsOfCall(setup: Setup, c: Call, g: Gateway)
    requires Valid(setup.primary) && c.req.product != "" && DASH !in c.ulid && Valid(g)
    ensures AttemptRef(BaseRef(setup, c), g) == BuildReference(c.req.product, g, c.ulid)
    ensures ParseReference(BaseRef(setup, c)) == Some(Parsed(c.req.product, setup.Route(c.first)[0], c.ulid))
    ensures setup.Route(c.first) != [] && Valid(setup.Route(c.first)[0])
  {
    var circuits := if setup.monitored then Some(c.first) else None;
    RouteProperties(setup.primary, circuits);
    var lead := RouteSpec(setup.primary, circuits)[0];
    assert lead in RouteSpec(setup.primary, circuits);
    ParseOfBuilt(c.req.product, lead, c.ulid);
  }

  predicate Stores(r: ChargeResult) {
    r.Started? || r.Parked?
  }

  /** Past the guard a call leaves the store alone or stores one charge under its own reference. */
  lemma StoredPastGuard(s: State, setup: Setup, c: Call)
    requires Valid(setup.primary) && DASH !in c.ulid && ValidRequest(c.req)
    ensures var (s', r) := AfterGuard(s, setup, c);
            && (Stores(r) ==>
                  && Valid(r.gateway) && r.ref == BuildReference(c.req.product, r.gateway, c.ulid)
                  && s' == ChargeSpec(s, r.ref, c.req.product, c.req.key, r.gateway, if r.Started? then r.url else "",
                                      c.eventId, c.now))
            && (!Stores(r) ==> s' == s)
  {
    var o := Attempts(setup, c);
    RefsOfCall(setup, c, HUBTEL);
    if o.result.Ok? {
      var circuits := if setup.monitored then Some(c.second) else None;
      RouteProperties(setup.primary, circuits);
      var route := RouteSpec(setup.primary, circuits);
      OnlyTheLastCallIsAccepted(route, setup.adapters, BaseRef(setup, c), c.initiate, NoneTried);
      assert o.sent[|o.sent| - 1].gateway in route;
    }
  }

  /** A call either leaves the store alone or stores one charge under its own reference. */
  lemma StoredReference(s: State, setup: Setup, c: Call)
    requires Valid(setup.primary) && DASH !in c.ulid
    ensures var (s', r) := InitiateSpec(s, setup, c);
            && (Stores(r) ==>
                  && ValidRequest(c.req) && !Seen(s, c.req)
                  && Valid(r.gateway) && r.ref == BuildReference(c.req.product, r.gateway, c.ulid)
                  && s' == ChargeSpec(s, r.ref, c.req.product, c.req.key, r.gateway, if r.Started? then r.url else "",
                                      c.eventId, c.now))
            && (!Stores(r) ==> s' == s)
  {
    hide AfterGuard;
    if ValidRequest(c.req) {
      StoredPastGuard(s, setup, c);
    }
  }

  /**
   Even if health changes between the two rankings of a call, the intent is stored under
   the very reference the accepting gateway was sent; no other gateway accepted, and
   Status on that reference asks that gateway.
   */
  lemma StoredReferenceIsTheSentOne(s: State, setup: Setup, c: Call)
    requires Valid(setup.primary) && DASH !in c.ulid && InitiateSpec(s, setup, c).1.Started?
    ensures var (s', r) := InitiateSpec(s, setup, c);
            var sent := SentBy(s, setup, c);
            && sent != [] && sent[|sent| - 1] == Sent(r.gateway, r.ref)
            && c.initiate(r.gateway, r.ref) == Reply.Accepted(r.externalRef, r.url)
            && (forall i :: 0 <= i < |sent| - 1 ==> !c.initiate(sent[i].gateway, sent[i].ref).Accepted?)
            && r.ref in s'.intents && s'.intents[r.ref] == Intent(r.gateway, Pending, c.req.product, r.url)
            && StatusTarget(r.ref, setup.adapters) == Some(r.gateway)
  {
    var r := InitiateSpec(s, setup, c).1;
    StoredReference(s, setup, c);
    RefsOfCall(setup, c, r.gateway);
    OnlyTheLastCallIsAccepted(setup.Route(c.second), setup.adapters, BaseRef(setup, c), c.initiate, NoneTried);
    ParseOfBuilt(c.req.product, r.gateway, c.ulid);
  }

  /** Before any gateway is asked: what is refused, and what is answered from the key. */
  lemma GuardDecides(s: State, setup: Setup, c: Call)
    requires Valid(setup.primary)
    ensures var (s', r) := InitiateSpec(s, setup, c);
            var unpayable := c.req.wallet == "" && c.req.phone == "";
            var invalid := c.req.product == "" || c.req.amount.minorUnits <= 0 || unpayable;
            var key := c.req.product + ":" + c.req.key;
            var known := c.req.key != "" && key in s.idemKeys;
            && (r.Invalid? <==> invalid)
            && (r.Reused? <==> !invalid && known)
            && (r.Reused? ==> r.ref == s.idemKeys[key])
            && (invalid || known ==> s' == s && SentBy(s, setup, c) == [])
            && (!invalid && !known ==> (s', r) == AfterGuard(s, setup, c))
  {
    hide ParseReference, BuildReference, ChargeSpec;
  }

  /** Status asks gateway `g` exactly when it has an adapter and the reference is a printed one that names it. */
  lemma StatusAsksIff(ref: string, adapters: set<Gateway>, g: Gateway)
    ensures StatusTarget(ref, adapters) == Some(g) <==>
              && g in adapters && Valid(g)
              && exists product, ulid :: product != "" && DASH !in ulid && ref == BuildReference(product, g, ulid)
  {
    hide ParseReference, BuildReference;
    if ParseReference(ref).Some? {
      BuildOfParsed(ref);
    }
    forall product: string, ulid: string |
      product != "" && DASH !in ulid && Valid(g) && ref == BuildReference(product, g, ulid)
      ensures ParseReference(ref) == Some(Parsed(product, g, ulid))
    {
      ParseOfBuilt(product, g, ulid);
    }
  }

  /** What gateway `g` answers a call. */
  ghost function ReplyOf(c: Call, g: Gateway): Reply {
    c.initiate(g, BuildReference(c.req.product, g, c.ulid))
  }

  ghost predicate SomeAccepts(setup: Setup, c: Call) {
    exists g <- setup.Route(c.second) :: g in setup.adapters && ReplyOf(c, g).Accepted?
  }

  /** The last gateway asked when none accepts: the last on the route with an adapter. */
  ghost predicate IsLastAsked(setup: Setup, c: Call, g: Gateway) {
    exists k :: IsLastKnown(setup.Route(c.second), setup.adapters, k) && setup.Route(c.second)[k] == g
  }

  lemma RouteReplies(setup: Setup, c: Call)
    requires Valid(setup.primary) && c.req.product != "" && DASH !in c.ulid
    ensures forall g <- setup.Route(c.second) ::
              && c.initiate(g, AttemptRef(BaseRef(setup, c), g)) == ReplyOf(c, g)
              && (Accepts(setup.adapters, BaseRef(setup, c), c.initiate, g) <==>
                    g in setup.adapters && ReplyOf(c, g).Accepted?)
  {
    hide BaseRef, AttemptRef;
    RouteProperties(setup.primary, if setup.monitored then Some(c.second) else None);
    forall g <- setup.Route(c.second)
      ensures AttemptRef(BaseRef(setup, c), g) == BuildReference(c.req.product, g, c.ulid)
    {
      RefsOfCall(setup, c, g);
    }
  }

  lemma LastKnownExists(route: seq<Gateway>, adapters: set<Gateway>) returns (k: int)
    requires exists g <- route :: g in adapters
    ensures IsLastKnown(route, adapters, k)
  {
    k := |route| - 1;
    while route[k] !in adapters
      invariant 0 <= k < |route| && forall j :: k < j < |route| ==> route[j] !in adapters
      decreases k
    {
      assert exists g <- route :: g in adapters;
      var i :| 0 <= i < |route| && route[i] in adapters;
      k := k - 1;
    }
  }

  /**
   Which answer a valid, unseen call gets, from the replies of the gateways on the second
   route alone: Started when one accepts; otherwise Parked, under the leader of the first
   route, when the last one asked is not configured; otherwise failed, naming the last one
   asked or nobody.
   */
  lemma AnswerOfCall(s: State, setup: Setup, c: Call)
    requires Valid(setup.primary) && c.req.product != "" && DASH !in c.ulid
    ensures var r := AfterGuard(s, setup, c).1;
            && (r.Started? <==> SomeAccepts(setup, c))
            && (r.Parked? <==>
                  !SomeAccepts(setup, c) && exists g :: IsLastAsked(setup, c, g) && ReplyOf(c, g).NotConfigured?)
            && (r.Parked? ==>
                  && r.gateway == setup.Route(c.first)[0]
                  && r.ref == BuildReference(c.req.product, setup.Route(c.first)[0], c.ulid))
            && (!r.Started? && !r.Parked? ==>
                  r == ChargeFailed(r.reason) && (
                    || (r.reason == NoneTried && forall g <- setup.Route(c.second) :: g !in setup.adapters)
                    || exists g :: IsLastAsked(setup, c, g) && ReplyOf(c, g).Rejected? && r.reason == GatewayFailed(g)))
  {
    hide ParseReference, BuildReference, ChargeSpec, AttemptRef, RouteSpec;
    var route, base := setup.Route(c.second), BaseRef(setup, c);
    RouteReplies(setup, c);
    FirstAcceptorWins(route, setup.adapters, base, c.initiate, NoneTried);
    RefsOfCall(setup, c, HUBTEL);
    if !SomeAccepts(setup, c) {
      FailedWalk(route, setup.adapters, base, c.initiate, NoneTried);
      if exists g <- route :: g in setup.adapters {
        var k := LastKnownExists(route, setup.adapters);
        assert route[k] in route && IsLastAsked(setup, c, route[k]);
      }
    } else {
      AcceptorExists(route, setup.adapters, base, c.initiate);
    }
  }

  lemma AcceptorExists(route: seq<Gateway>, adapters: set<Gateway>, ref: string, initiate: Initiate)
    requires exists g <- route :: Accepts(adapters, ref, initiate, g)
    ensures exists k :: IsFirstAcceptor(route, adapters, ref, initiate, k)
  {
    hide Accepts;
    var g :| g in route && Accepts(adapters, ref, initiate, g);
    var k := 0;
    while !Accepts(adapters, ref, initiate, route[k])
      invariant 0 <= k < |route| && forall j :: 0 <= j < k ==> !Accepts(adapters, ref, initiate, route[j])
      decreases |route| - k
    {
      assert forall j :: 0 <= j <= k ==> route[j] != g;
      k := k + 1;
    }
    assert IsFirstAcceptor(route, adapters, ref, initiate, k);
  }

  // ---------------------------------------------------------------- idempotency keys

  /** Where a colon-separated key can be cut in two ways. */
  ghost predicate Overlaps(p1: string, k1: string, p2: string, k2: string) {
    exists x: string :: p2 == p1 + ":" + x && k1 == x + ":" + k2
  }

  /** Two pairs share their idempotency key exactly when they are equal or a product reaches past its colon. */
  lemma KeyCollisionIff(p1: string, k1: string, p2: string, k2: string)
    ensures p1 + ":" + k1 == p2 + ":" + k2 <==>
              (p1 == p2 && k1 == k2) || Overlaps(p1, k1, p2, k2) || Overlaps(p2, k2, p1, k1)
    ensures ':' !in p1 && ':' !in p2 ==> !Overlaps(p1, k1, p2, k2) && !Overlaps(p2, k2, p1, k1)
  {
    if p1 + ":" + k1 == p2 + ":" + k2 {
      if |p1| <= |p2| {
        CutAtColon(p1, k1, p2, k2);
      } else {
        CutAtColon(p2, k2, p1, k1);
      }
    }
    if x: string :| p2 == p1 + ":" + x && k1 == x + ":" + k2 {
      assert p1 + ":" + k1 == p1 + ":" + x + ":" + k2;
      assert p2[|p1|] == ':';
    }
    if x: string :| p1 == p2 + ":" + x && k2 == x + ":" + k1 {
      assert p2 + ":" + k2 == p2 + ":" + x + ":" + k1;
      assert p1[|p2|] == ':';
    }
  }

  /** What fails: a call whose pair overlaps with a charged one is answered with that charge's reference. */
  lemma OverlappingPairsShareReference(s: State, setup: Setup, p: ChargeRequest, c: Call)
    requires Valid(setup.primary) && Seen(s, p) && ValidRequest(c.req) && c.req.key != ""
    requires || Overlaps(p.product, p.key, c.req.product, c.req.key)
             || Overlaps(c.req.product, c.req.key, p.product, p.key)
    ensures InitiateSpec(s, setup, c) == (s, Reused(s.idemKeys[IdemKey(p)])) && SentBy(s, setup, c) == []
  {
    hide AfterGuard;
    KeyCollisionIff(p.product, p.key, c.req.product, c.req.key);
  }

  /** For instance these two, which name different products. */
  lemma TwoWaysToCut()
    ensures Overlaps("a", "b:c", "a:b", "c")
  {
    assert "a:b" == "a" + ":" + "b" && "b:c" == "b" + ":" + "c";
  }

  lemma CutAtColon(p1: string, k1: string, p2: string, k2: string)
    requires p1 + ":" + k1 == p2 + ":" + k2 && |p1| <= |p2|
    ensures (p1 == p2 && k1 == k2) || Overlaps(p1, k1, p2, k2)
  {
    var all, n := p1 + ":" + k1, |p1|;
    assert p1 == all[..n] == p2[..n];
    assert k1 == all[n + 1..] && k2 == all[|p2| + 1..];
    if n < |p2| {
      var x := p2[n + 1..];
      assert p2[n] == all[n] == ':';
      assert p2 == p1 + ":" + x;
      assert k1 == x + ":" + k2;
    }
  }
}
