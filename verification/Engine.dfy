/**
 The engine as a whole: charge calls that overlap between their idempotency lookup and
 their store, webhooks, any number of workers with claims of any age, and payouts, in any
 order on one store.
 */
module Engine {
  import opened Prelude
  import opened Gateways
  import opened Reference
  import opened Router
  import opened Store
  import opened Settlement
  import opened Charges
  import M = Money
  import P = Protocol
  import A = Accounting

  /** A charge call past its lookup; `since` counts the keyed charges stored until then. */
  datatype Flight = Flight(call: Call, since: nat)

  /** A charge stored under an idempotency key, by a call that looked it up at `since`. */
  datatype Sale = Sale(key: string, ref: string, since: nat)

  /**
   The store, the calls and claims under way, the keyed charges so far, and the request
   behind each ULID and the event ids drawn so far.
   */
  datatype System = System(s: State, flights: map<nat, Flight>, claims: map<nat, Event>, sales: seq<Sale>,
                           asked: map<string, ChargeRequest>, ids: set<string>)

  const IDLE: System := System(EMPTY, map[], map[], [], map[], {})

  datatype Act =
    | Look(r: nat, call: Call)
    | Finish(r: nat)
    | Drop(r: nat)
    | Hook(r: nat, d: Delivery, adapters: set<Gateway>, verify: Verify)
    | Claim(r: nat, id: string)
    | Work(r: nat, adapters: set<Gateway>, verify: Verify, now: int)
    | PayOut(ref: string, entry: Entry)

  predicate Free(sys: System, r: nat) {
    r !in sys.flights && r !in sys.claims
  }

  /** When an act can happen; ULIDs and event ids are drawn afresh. */
  predicate Enabled(sys: System, act: Act) {
    match act
    case Look(r, call) =>
      Free(sys, r) && DASH !in call.ulid && call.ulid !in sys.asked && call.eventId !in sys.ids
    case Finish(r) => r in sys.flights
    case Drop(r) => r in sys.flights || r in sys.claims
    case Hook(r, _, _, _) => Free(sys, r)
    case Claim(r, id) => Free(sys, r) && id in PendingIds(sys.s)
    case Work(r, _, _, _) => r in sys.claims
    case PayOut(_, entry) => entry.kind == VendorPayout
  }

  /** The guard of a charge call: whether it goes on to ask a gateway. */
  predicate Passes(s: State, req: ChargeRequest) {
    ValidRequest(req) && !Seen(s, req)
  }

  /** The key a finished call has stored its charge under, if any. */
  function Sold(f: Flight, r: ChargeResult): seq<Sale> {
    if Stores(r) && f.call.req.key != "" then [Sale(IdemKey(f.call.req), r.ref, f.since)] else []
  }

  function Do(setup: Setup, sys: System, act: Act): System
    requires Valid(setup.primary) && Enabled(sys, act)
  {
    match act
    case Look(r, call) =>
      if !Passes(sys.s, call.req) then sys
      else
        sys.(flights := sys.flights[r := Flight(call, |sys.sales|)],
             asked := sys.asked[call.ulid := call.req], ids := sys.ids + {call.eventId})
    case Finish(r) =>
      var f := sys.flights[r];
      var (s', answer) := AfterGuard(sys.s, setup, f.call);
      sys.(s := s', flights := sys.flights - {r}, sales := sys.sales + Sold(f, answer))
    case Drop(r) => sys.(flights := sys.flights - {r}, claims := sys.claims - {r})
    case Hook(_, d, adapters, verify) => sys.(s := ProcessSpec(sys.s, adapters, verify, d).0)
    case Claim(r, id) => sys.(claims := sys.claims[r := sys.s.outbox[id]])
    case Work(r, adapters, verify, now) =>
      sys.(s := ProcessOneSpec(sys.s, adapters, verify, sys.claims[r], now), claims := sys.claims - {r})
    case PayOut(ref, entry) => sys.(s := WithEntries(sys.s, ref, [entry]))
  }

  ghost predicate Legal(setup: Setup, sys: System, acts: seq<Act>)
    requires Valid(setup.primary)
    decreases |acts|, 0
  {
    acts == [] || (
      && Legal(setup, sys, acts[..|acts| - 1])
      && Enabled(Execute(setup, sys, acts[..|acts| - 1]), acts[|acts| - 1]))
  }

  ghost function Execute(setup: Setup, sys: System, acts: seq<Act>): System
    requires Valid(setup.primary) && Legal(setup, sys, acts)
    decreases |acts|, 1
  {
    if acts == [] then sys
    else Do(setup, Execute(setup, sys, acts[..|acts| - 1]), acts[|acts| - 1])
  }

  // ---------------------------------------------------------------- invariant

  ghost predicate SoldBefore(sales: seq<Sale>, n: nat, key: string) {
    exists i :: 0 <= i < n <= |sales| && sales[i].key == key
  }

  /** The reference the latest charge under a key was stored with. */
  function LastRef(sales: seq<Sale>, key: string): Option<string> {
    if sales == [] then None
    else if sales[|sales| - 1].key == key then Some(sales[|sales| - 1].ref)
    else LastRef(sales[..|sales| - 1], key)
  }

  /** A reference printed for `req`, or at least with its ULID. */
  ghost predicate BelongsTo(ref: string, asked: map<string, ChargeRequest>) {
    ParseReference(ref).Some? && ParseReference(ref).value.ulid in asked
  }

  ghost predicate KeyInv(sys: System, key: string) {
    && (key in sys.s.idemKeys <==> LastRef(sys.sales, key).Some?)
    && (key in sys.s.idemKeys ==>
          var ref := sys.s.idemKeys[key];
          && LastRef(sys.sales, key) == Some(ref) && ref in sys.s.intents
          && BelongsTo(ref, sys.asked) && IdemKey(sys.asked[ParseReference(ref).value.ulid]) == key)
  }

  ghost predicate FlightInv(sys: System, r: nat)
    requires r in sys.flights
  {
    var f := sys.flights[r];
    && ValidRequest(f.call.req) && DASH !in f.call.ulid
    && f.call.ulid in sys.asked && sys.asked[f.call.ulid] == f.call.req
    && f.call.eventId in sys.ids && f.call.eventId !in sys.s.outbox
    && (forall ref <- sys.s.intents :: ParseReference(ref).Some? ==> ParseReference(ref).value.ulid != f.call.ulid)
    && f.since <= |sys.sales|
    && (f.call.req.key != "" ==> !SoldBefore(sys.sales, f.since, IdemKey(f.call.req)))
  }

  ghost predicate FlightsDiffer(sys: System) {
    forall q, r :: q in sys.flights && r in sys.flights && q != r ==>
      && sys.flights[q].call.ulid != sys.flights[r].call.ulid
      && sys.flights[q].call.eventId != sys.flights[r].call.eventId
  }

  /** Of two charges under one key the later call looked its key up before the earlier one was stored. */
  ghost predicate SalesOverlap(sales: seq<Sale>) {
    forall i, j :: 0 <= i < j < |sales| && sales[i].key == sales[j].key ==> sales[j].since <= i
  }

  ghost predicate Inv(sys: System) {
    && (forall ref <- sys.s.intents :: BelongsTo(ref, sys.asked))
    && (forall key :: KeyInv(sys, key))
    && (forall r <- sys.flights :: FlightInv(sys, r))
    && FlightsDiffer(sys) && sys.flights.Keys !! sys.claims.Keys
    && sys.s.outbox.Keys <= sys.ids
    && SalesOverlap(sys.sales)
  }

  /** Settlement touches neither the keys nor the set of intents and events. */
  ghost predicate SameCharges(s: State, s': State) {
    s'.intents.Keys == s.intents.Keys && s'.idemKeys == s.idemKeys && s'.outbox.Keys == s.outbox.Keys
  }

  lemma HookKeepsCharges(s: State, adapters: set<Gateway>, verify: Verify, d: Delivery)
    ensures SameCharges(s, ProcessSpec(s, adapters, verify, d).0)
  {
  }

  lemma OutcomeKeepsCharges(s: State, ev: Event, view: WorkerIntent, answer: Answer)
    ensures SameCharges(s, P.WorkOutcome(s, ev, view, answer))
  {
    hide SettledAmount, Entries;
  }

  lemma WorkKeepsCharges(s: State, adapters: set<Gateway>, verify: Verify, ev: Event, now: int)
    ensures SameCharges(s, ProcessOneSpec(s, adapters, verify, ev, now))
  {
    hide P.WorkOutcome, IntentAmount;
    if view: WorkerIntent :| ViewIntent(s, ev.ref) == Some(view) {
      OutcomeKeepsCharges(s, ev, view, ZeroAmount(view.status, now));
      var verdict := verify(ev.gateway, ev.ref);
      if verdict.Answered? {
        OutcomeKeepsCharges(s, ev, view, verdict.answer);
      }
    }
  }

  lemma SameChargesKeepInv(sys: System, sys': System)
    requires Inv(sys) && SameCharges(sys.s, sys'.s)
    requires sys' == sys.(s := sys'.s, claims := sys'.claims, flights := sys'.flights)
    requires forall r <- sys'.flights :: r in sys.flights && sys'.flights[r] == sys.flights[r] && r !in sys'.claims
    ensures Inv(sys')
  {
    forall key ensures KeyInv(sys', key) {
      assert KeyInv(sys, key);
    }
    forall r <- sys'.flights ensures FlightInv(sys', r) {
      assert FlightInv(sys, r);
    }
  }

  /** `sys` after `call` has passed its guard as `r`. */
  ghost predicate Looks(sys: System, r: nat, call: Call, sys': System) {
    && Free(sys, r) && Passes(sys.s, call.req)
    && DASH !in call.ulid && call.ulid !in sys.asked && call.eventId !in sys.ids
    && sys' == sys.(flights := sys.flights[r := Flight(call, |sys.sales|)],
                    asked := sys.asked[call.ulid := call.req], ids := sys.ids + {call.eventId})
  }

  lemma LookKeepsKey(sys: System, r: nat, call: Call, sys': System, key: string)
    requires Looks(sys, r, call, sys') && KeyInv(sys, key)
    ensures KeyInv(sys', key)
  {
    hide ParseReference, LastRef, Passes, IdemKey;
  }

  lemma LookStartsFlight(sys: System, r: nat, call: Call, sys': System)
    requires Looks(sys, r, call, sys') && Inv(sys)
    ensures FlightInv(sys', r)
    ensures forall q <- sys.flights ::
              sys.flights[q].call.ulid != call.ulid && sys.flights[q].call.eventId != call.eventId
  {
    hide ParseReference, LastRef, KeyInv, SalesOverlap;
    NeverSold(sys, call.req);
    forall q <- sys.flights
      ensures sys.flights[q].call.ulid != call.ulid && sys.flights[q].call.eventId != call.eventId
    {
      assert FlightInv(sys, q);
    }
  }

  lemma LookKeepsFlight(sys: System, r: nat, call: Call, sys': System, q: nat)
    requires Looks(sys, r, call, sys') && q in sys.flights && q != r && FlightInv(sys, q)
    ensures FlightInv(sys', q)
  {
    hide ParseReference, Passes, IdemKey, SoldBefore;
  }

  lemma LookKeepsInv(sys: System, r: nat, call: Call, sys': System)
    requires Inv(sys) && Looks(sys, r, call, sys')
    ensures Inv(sys')
  {
    hide ParseReference, Passes, KeyInv, FlightInv, SalesOverlap;
    LookStartsFlight(sys, r, call, sys');
    forall key ensures KeyInv(sys', key) {
      LookKeepsKey(sys, r, call, sys', key);
    }
    forall q <- sys'.flights ensures FlightInv(sys', q) {
      if q != r {
        LookKeepsFlight(sys, r, call, sys', q);
      }
    }
  }

  lemma NeverSold(sys: System, req: ChargeRequest)
    requires Inv(sys) && Passes(sys.s, req)
    ensures req.key != "" ==> !SoldBefore(sys.sales, |sys.sales|, IdemKey(req))
  {
    assert KeyInv(sys, IdemKey(req));
    LastRefIff(sys.sales, IdemKey(req));
  }

  lemma {:induction false} LastRefIff(sales: seq<Sale>, key: string)
    ensures LastRef(sales, key).Some? <==> SoldBefore(sales, |sales|, key)
  {
    if sales != [] {
      var n := |sales| - 1;
      LastRefIff(sales[..n], key);
      if i :| 0 <= i < n && sales[i].key == key {
        assert sales[..n][i] == sales[i];
      }
    }
  }

  /** `sys` after call `r` has stored its charge under `ref`. */
  ghost predicate Sells(sys: System, r: nat, ref: string, sys': System) {
    && r in sys.flights
    && var f := sys.flights[r];
       && ParseReference(ref).Some? && ParseReference(ref).value.ulid == f.call.ulid
       && sys'.s.intents.Keys == sys.s.intents.Keys + {ref}
       && sys'.s.outbox.Keys == sys.s.outbox.Keys + {f.call.eventId}
       && sys'.flights == sys.flights - {r} && sys' == sys.(s := sys'.s, flights := sys'.flights, sales := sys'.sales)
       && if f.call.req.key == "" then sys'.s.idemKeys == sys.s.idemKeys && sys'.sales == sys.sales
          else && sys'.s.idemKeys == sys.s.idemKeys[IdemKey(f.call.req) := ref]
               && sys'.sales == sys.sales + [Sale(IdemKey(f.call.req), ref, f.since)]
  }

  lemma SaleKeepsKey(sys: System, r: nat, ref: string, sys': System, key: string)
    requires Sells(sys, r, ref, sys') && FlightInv(sys, r) && KeyInv(sys, key)
    ensures KeyInv(sys', key)
  {
    hide ParseReference, IdemKey, ValidRequest, SoldBefore;
    if sys'.sales != sys.sales {
      assert sys'.sales[..|sys.sales|] == sys.sales;
    }
  }

  lemma SaleKeepsFlight(sys: System, r: nat, ref: string, sys': System, q: nat)
    requires Sells(sys, r, ref, sys') && FlightsDiffer(sys) && q in sys'.flights && FlightInv(sys, q)
    ensures FlightInv(sys', q)
  {
    hide ParseReference, IdemKey, ValidRequest;
    assert |sys'.sales| >= |sys.sales| && forall i :: 0 <= i < |sys.sales| ==> sys'.sales[i] == sys.sales[i];
  }

  lemma SaleKeepsOverlap(sys: System, r: nat, ref: string, sys': System)
    requires Sells(sys, r, ref, sys') && FlightInv(sys, r) && SalesOverlap(sys.sales)
    ensures SalesOverlap(sys'.sales)
  {
    hide ParseReference, IdemKey, ValidRequest;
    if sys'.sales == sys.sales {
      return;
    }
    var f, n := sys.flights[r], |sys.sales|;
    assert forall i :: 0 <= i < f.since ==> sys.sales[i].key != IdemKey(f.call.req);
    forall i, j | 0 <= i < j < |sys'.sales| && sys'.sales[i].key == sys'.sales[j].key
      ensures sys'.sales[j].since <= i
    {
      assert i < n && sys'.sales[i] == sys.sales[i];
      if j < n {
        assert sys'.sales[j] == sys.sales[j];
      } else {
        assert sys'.sales[j] == Sale(IdemKey(f.call.req), ref, f.since);
      }
    }
  }

  lemma SaleKeepsInv(sys: System, r: nat, ref: string, sys': System)
    requires Inv(sys) && Sells(sys, r, ref, sys')
    ensures Inv(sys')
  {
    hide ParseReference, IdemKey, KeyInv, FlightInv, SalesOverlap;
    SaleIsOwned(sys, r, ref, sys');
    SaleKeepsOverlap(sys, r, ref, sys');
    forall key ensures KeyInv(sys', key) {
      SaleKeepsKey(sys, r, ref, sys', key);
    }
    forall q <- sys'.flights ensures FlightInv(sys', q) {
      SaleKeepsFlight(sys, r, ref, sys', q);
    }
  }

  lemma SaleIsOwned(sys: System, r: nat, ref: string, sys': System)
    requires Sells(sys, r, ref, sys') && FlightInv(sys, r)
    ensures BelongsTo(ref, sys'.asked) && sys.flights[r].call.eventId in sys'.ids
  {
    hide ParseReference, IdemKey;
  }

  lemma FinishSells(setup: Setup, sys: System, r: nat)
    requires Valid(setup.primary) && r in sys.flights && FlightInv(sys, r)
    ensures var answer := AfterGuard(sys.s, setup, sys.flights[r].call).1;
            if Stores(answer) then Sells(sys, r, answer.ref, Do(setup, sys, Finish(r)))
            else Do(setup, sys, Finish(r)) == sys.(flights := sys.flights - {r})
  {
    hide AfterGuard, BuildReference, ParseReference, SoldBefore;
    var call := sys.flights[r].call;
    StoredPastGuard(sys.s, setup, call);
    var answer := AfterGuard(sys.s, setup, call).1;
    assert sys.sales + [] == sys.sales;
    if Stores(answer) {
      ParseOfBuilt(call.req.product, answer.gateway, call.ulid);
    }
  }

  lemma FinishKeepsInv(setup: Setup, sys: System, r: nat)
    requires Valid(setup.primary) && Inv(sys) && r in sys.flights
    ensures Inv(Do(setup, sys, Finish(r)))
  {
    hide AfterGuard, KeyInv, FlightInv, SalesOverlap, Do;
    var sys' := Do(setup, sys, Finish(r));
    FinishSells(setup, sys, r);
    var answer := AfterGuard(sys.s, setup, sys.flights[r].call).1;
    if Stores(answer) {
      SaleKeepsInv(sys, r, answer.ref, sys');
    } else {
      SameChargesKeepInv(sys, sys');
    }
  }

  lemma FlightsAreNotClaims(sys: System)
    requires Inv(sys)
    ensures sys.flights.Keys !! sys.claims.Keys
  {
  }

  /** Every act keeps the invariant. */
  lemma ActKeepsInv(setup: Setup, sys: System, act: Act)
    requires Valid(setup.primary) && Inv(sys) && Enabled(sys, act)
    ensures Inv(Do(setup, sys, act))
  {
    hide Inv, ProcessSpec, ProcessOneSpec, AfterGuard;
    FlightsAreNotClaims(sys);
    match act {
      case Look(r, call) =>
        if Passes(sys.s, call.req) {
          LookKeepsInv(sys, r, call, Do(setup, sys, act));
        }
      case Finish(r) => FinishKeepsInv(setup, sys, r);
      case Hook(_, d, adapters, verify) =>
        HookKeepsCharges(sys.s, adapters, verify, d);
        SameChargesKeepInv(sys, Do(setup, sys, act));
      case Work(r, adapters, verify, now) =>
        WorkKeepsCharges(sys.s, adapters, verify, sys.claims[r], now);
        SameChargesKeepInv(sys, Do(setup, sys, act));
      case _ => SameChargesKeepInv(sys, Do(setup, sys, act));
    }
  }

  lemma {:induction false} RunKeepsInv(setup: Setup, sys: System, acts: seq<Act>)
    requires Valid(setup.primary) && Inv(sys) && Legal(setup, sys, acts)
    ensures Inv(Execute(setup, sys, acts))
  {
    hide Inv, Do, Enabled;
    if acts != [] {
      var n := |acts| - 1;
      RunKeepsInv(setup, sys, acts[..n]);
      ActKeepsInv(setup, Execute(setup, sys, acts[..n]), acts[n]);
    }
  }

  lemma IdleInv()
    ensures Inv(IDLE)
  {
  }

  ghost predicate Reached(setup: Setup, sys: System)
    requires Valid(setup.primary)
  {
    exists acts: seq<Act> :: Legal(setup, IDLE, acts) && Execute(setup, IDLE, acts) == sys
  }

  lemma ReachedInv(setup: Setup, sys: System)
    requires Valid(setup.primary) && Reached(setup, sys)
    ensures Inv(sys)
  {
    hide Inv, Do, Enabled;
    var acts: seq<Act> :| Legal(setup, IDLE, acts) && Execute(setup, IDLE, acts) == sys;
    IdleInv();
    RunKeepsInv(setup, IDLE, acts);
  }

  // ---------------------------------------------------------------- fresh references

  /**
   With webhooks, workers, payouts and other charges in between, a charge always lands on a
   reference and an event id that are new to the store.
   */
  lemma ChargesAreFresh(setup: Setup, sys: System, r: nat)
    requires Valid(setup.primary) && Reached(setup, sys) && r in sys.flights
    ensures var call := sys.flights[r].call;
            var answer := AfterGuard(sys.s, setup, call).1;
            Stores(answer) ==> answer.ref !in sys.s.intents && call.eventId !in sys.s.outbox
  {
    hide AfterGuard, KeyInv, SalesOverlap, BuildReference, ParseReference, Reached;
    ReachedInv(setup, sys);
    assert FlightInv(sys, r);
    FinishParses(setup, sys, r);
  }

  lemma FinishParses(setup: Setup, sys: System, r: nat)
    requires Valid(setup.primary) && r in sys.flights && FlightInv(sys, r)
    ensures var call := sys.flights[r].call;
            var answer := AfterGuard(sys.s, setup, call).1;
            Stores(answer) ==> ParseReference(answer.ref).Some? && ParseReference(answer.ref).value.ulid == call.ulid
  {
    hide Do, Enabled;
    FinishSells(setup, sys, r);
  }

  /** A call of Initiate that nothing disturbs is its lookup followed, if it passes, by its end. */
  lemma InitiateIsLookAndFinish(setup: Setup, sys: System, r: nat, call: Call)
    requires Valid(setup.primary) && Enabled(sys, Look(r, call))
    ensures var looked := Do(setup, sys, Look(r, call));
            if r in looked.flights then Do(setup, looked, Finish(r)).s == InitiateSpec(sys.s, setup, call).0
            else looked.s == InitiateSpec(sys.s, setup, call).0
  {
    hide AfterGuard;
  }

  // ---------------------------------------------------------------- the idempotency guard

  /** Another call has stored a charge under the key of call `r` since that looked. */
  ghost predicate Overtaken(sys: System, r: nat)
    requires r in sys.flights
  {
    var f := sys.flights[r];
    exists i :: f.since <= i < |sys.sales| && sys.sales[i].key == IdemKey(f.call.req)
  }

  /**
   When the guard fails: the charge a call stores is a second one under its key exactly
   when another call has stored one since it looked.
   */
  lemma SecondChargeIff(setup: Setup, sys: System, r: nat)
    requires Valid(setup.primary) && Reached(setup, sys) && r in sys.flights && sys.flights[r].call.req.key != ""
    ensures var call := sys.flights[r].call;
            var key, n, sys' := IdemKey(call.req), |sys.sales|, Do(setup, sys, Finish(r));
            && (key in sys.s.idemKeys <==> Overtaken(sys, r))
            && (Stores(AfterGuard(sys.s, setup, call).1) ==>
                  && |sys'.sales| == n + 1 && sys'.sales[n].key == key
                  && (SoldBefore(sys'.sales, n, key) <==> Overtaken(sys, r)))
  {
    hide Reached, SalesOverlap, ParseReference, AfterGuard;
    ReachedInv(setup, sys);
    var f := sys.flights[r];
    var key := IdemKey(f.call.req);
    assert FlightInv(sys, r) && KeyInv(sys, key);
    LastRefIff(sys.sales, key);
    assert forall i :: 0 <= i < f.since ==> sys.sales[i].key != key;
    var sys' := Do(setup, sys, Finish(r));
    assert forall i :: 0 <= i < |sys.sales| ==> sys'.sales[i] == sys.sales[i];
  }

  /**
   Calls that do not overlap never charge a pair twice: of two charges under one key, the
   later call had looked before the earlier one was stored.
   */
  lemma OnlyOverlappingCallsChargeTwice(setup: Setup, sys: System, i: nat, j: nat)
    requires Valid(setup.primary) && Reached(setup, sys)
    requires i < j < |sys.sales| && sys.sales[i].key == sys.sales[j].key
    ensures sys.sales[j].since <= i
  {
    hide Reached, Do, Enabled, KeyInv, FlightInv;
    ReachedInv(setup, sys);
  }

  /** Whether a call past its guard will end by storing a charge. */
  predicate WillStore(setup: Setup, call: Call)
    requires Valid(setup.primary)
  {
    Stores(AfterGuard(EMPTY, setup, call).1)
  }

  lemma AnswerIgnoresStore(s: State, setup: Setup, call: Call)
    requires Valid(setup.primary)
    ensures AfterGuard(s, setup, call).1 == AfterGuard(EMPTY, setup, call).1
  {
    hide A.ChargeSpec, ParseReference, BuildReference, BaseRef, Attempts, RouteSpec;
  }

  /** A call whose leading gateway accepts it stores a charge. */
  lemma AcceptedCallStores(setup: Setup, call: Call)
    requires Valid(setup.primary)
    requires Accepts(setup.adapters, BaseRef(setup, call), call.initiate, setup.Route(call.second)[0])
    ensures WillStore(setup, call)
  {
    hide ParseReference, BuildReference, A.ChargeSpec;
    var route := setup.Route(call.second);
    FirstAcceptorWins(route, setup.adapters, BaseRef(setup, call), call.initiate, NoneTried);
    assert IsFirstAcceptor(route, setup.adapters, BaseRef(setup, call), call.initiate, 0);
  }

  lemma Then(setup: Setup, acts: seq<Act>, sys: System, act: Act)
    requires Valid(setup.primary) && Legal(setup, IDLE, acts) && Execute(setup, IDLE, acts) == sys && Enabled(sys, act)
    ensures Legal(setup, IDLE, acts + [act]) && Execute(setup, IDLE, acts + [act]) == Do(setup, sys, act)
  {
    hide Do, Enabled;
    assert (acts + [act])[..|acts|] == acts;
  }

  /** Both look, both end. */
  ghost function Race(a: Call, b: Call): seq<Act> {
    [] + [Look(0, a)] + [Look(1, b)] + [Finish(0)] + [Finish(1)]
  }

  lemma LookOn(setup: Setup, sys: System, r: nat, call: Call)
    requires Valid(setup.primary) && Enabled(sys, Look(r, call)) && ValidRequest(call.req) && sys.s == EMPTY
    ensures Do(setup, sys, Look(r, call))
         == sys.(flights := sys.flights[r := Flight(call, |sys.sales|)], asked := sys.asked[call.ulid := call.req],
                 ids := sys.ids + {call.eventId})
  {
  }

  lemma BothFlying(setup: Setup, a: Call, b: Call)
    requires Valid(setup.primary) && ValidRequest(a.req) && b.req == a.req
    requires DASH !in a.ulid && DASH !in b.ulid && a.ulid != b.ulid && a.eventId != b.eventId
    ensures var acts := [] + [Look(0, a)] + [Look(1, b)];
            && Legal(setup, IDLE, acts)
            && Execute(setup, IDLE, acts)
               == IDLE.(flights := map[0 := Flight(a, 0), 1 := Flight(b, 0)],
                        asked := map[a.ulid := a.req, b.ulid := b.req], ids := {a.eventId, b.eventId})
  {
    assert Legal(setup, IDLE, []) && Execute(setup, IDLE, []) == IDLE;
    hide Legal, Execute, ValidRequest;
    Then(setup, [], IDLE, Look(0, a));
    var one := IDLE.(flights := map[0 := Flight(a, 0)], asked := map[a.ulid := a.req], ids := {a.eventId});
    LookOn(setup, IDLE, 0, a);
    LookOn(setup, one, 1, b);
    Then(setup, [] + [Look(0, a)], one, Look(1, b));
    assert {} + {a.eventId} == {a.eventId} && {a.eventId} + {b.eventId} == {a.eventId, b.eventId};
  }

  /**
   Two calls for one pair that both look before either ends, and that a gateway accepts,
   both charge: two charges under one key, with two references.
   */
  lemma OverlappingCallsChargeTwice(setup: Setup, a: Call, b: Call)
    requires Valid(setup.primary) && ValidRequest(a.req) && b.req == a.req && a.req.key != ""
    requires DASH !in a.ulid && DASH !in b.ulid && a.ulid != b.ulid && a.eventId != b.eventId
    requires WillStore(setup, a) && WillStore(setup, b)
    ensures Legal(setup, IDLE, Race(a, b))
    ensures var sys := Execute(setup, IDLE, Race(a, b));
            && |sys.sales| == 2 && sys.sales[0].key == sys.sales[1].key == IdemKey(a.req)
            && sys.sales[0].ref != sys.sales[1].ref
            && sys.sales[0].ref in sys.s.intents && sys.sales[1].ref in sys.s.intents
  {
    hide Legal, Execute, AfterGuard, ParseReference, BuildReference, ValidRequest, IdemKey, Inv;
    BothFlying(setup, a, b);
    var looked := [] + [Look(0, a)] + [Look(1, b)];
    var two := Execute(setup, IDLE, looked);
    IdleInv();
    RunKeepsInv(setup, IDLE, looked);
    FinishStores(setup, two, 0);
    Then(setup, looked, two, Finish(0));
    var three := Do(setup, two, Finish(0));
    RunKeepsInv(setup, IDLE, looked + [Finish(0)]);
    FinishStores(setup, three, 1);
    Then(setup, looked + [Finish(0)], three, Finish(1));
  }

  /** What an accepted keyed call adds. */
  lemma FinishStores(setup: Setup, sys: System, r: nat)
    requires Valid(setup.primary) && Inv(sys) && r in sys.flights
    requires WillStore(setup, sys.flights[r].call) && sys.flights[r].call.req.key != ""
    ensures var f, sys' := sys.flights[r], Do(setup, sys, Finish(r));
            exists ref ::
              && ref !in sys.s.intents && sys'.s.intents.Keys == sys.s.intents.Keys + {ref}
              && sys'.sales == sys.sales + [Sale(IdemKey(f.call.req), ref, f.since)]
              && sys'.flights == sys.flights - {r}
  {
    hide AfterGuard, ParseReference, KeyInv, SalesOverlap, Do;
    assert FlightInv(sys, r);
    AnswerIgnoresStore(sys.s, setup, sys.flights[r].call);
    FinishSells(setup, sys, r);
  }

  /** No call under way will store a charge under `key`. */
  ghost predicate NoRival(setup: Setup, sys: System, key: string)
    requires Valid(setup.primary)
  {
    forall r <- sys.flights ::
      || sys.flights[r].call.req.key == "" || IdemKey(sys.flights[r].call.req) != key
      || !WillStore(setup, sys.flights[r].call)
  }

  ghost predicate Kept(sys: System, sys': System, key: string) {
    key in sys.s.idemKeys && key in sys'.s.idemKeys && sys'.s.idemKeys[key] == sys.s.idemKeys[key]
  }

  lemma FinishKeepsKey(setup: Setup, sys: System, r: nat, key: string)
    requires Valid(setup.primary) && r in sys.flights && FlightInv(sys, r) && key in sys.s.idemKeys
    requires sys.flights[r].call.req.key == "" || IdemKey(sys.flights[r].call.req) != key
             || !WillStore(setup, sys.flights[r].call)
    ensures Kept(sys, Do(setup, sys, Finish(r)), key)
  {
    hide AfterGuard, ParseReference, FlightInv, Do;
    AnswerIgnoresStore(sys.s, setup, sys.flights[r].call);
    FinishSells(setup, sys, r);
  }

  lemma ActKeepsKey(setup: Setup, sys: System, act: Act, key: string)
    requires Valid(setup.primary) && Inv(sys) && Enabled(sys, act) && key in sys.s.idemKeys && NoRival(setup, sys, key)
    ensures Kept(sys, Do(setup, sys, act), key) && NoRival(setup, Do(setup, sys, act), key)
  {
    hide ProcessSpec, ProcessOneSpec, AfterGuard, WillStore, KeyInv, SalesOverlap, FlightInv;
    match act {
      case Finish(r) =>
        assert FlightInv(sys, r);
        FinishKeepsKey(setup, sys, r, key);
      case Hook(_, d, adapters, verify) => HookKeepsCharges(sys.s, adapters, verify, d);
      case Work(r, adapters, verify, now) => WorkKeepsCharges(sys.s, adapters, verify, sys.claims[r], now);
      case _ =>
    }
  }

  lemma {:induction false} RunKeepsKey(setup: Setup, sys: System, acts: seq<Act>, key: string)
    requires Valid(setup.primary) && Inv(sys) && Legal(setup, sys, acts)
    requires key in sys.s.idemKeys && NoRival(setup, sys, key)
    ensures Kept(sys, Execute(setup, sys, acts), key) && NoRival(setup, Execute(setup, sys, acts), key)
  {
    hide Inv, Do, Enabled, NoRival;
    if acts != [] {
      var n := |acts| - 1;
      RunKeepsInv(setup, sys, acts[..n]);
      RunKeepsKey(setup, sys, acts[..n], key);
      ActKeepsKey(setup, Execute(setup, sys, acts[..n]), acts[n], key);
    }
  }

  ghost predicate KeptForEver(setup: Setup, sys: System, key: string)
    requires Valid(setup.primary)
  {
    forall acts: seq<Act> :: Legal(setup, sys, acts) ==> Kept(sys, Execute(setup, sys, acts), key)
  }

  lemma RivalOverwrites(setup: Setup, sys: System, r: nat, key: string)
    requires Valid(setup.primary) && Inv(sys) && key in sys.s.idemKeys && r in sys.flights
    requires var call := sys.flights[r].call; call.req.key != "" && IdemKey(call.req) == key && WillStore(setup, call)
    ensures !Kept(sys, Do(setup, sys, Finish(r)), key)
  {
    hide AfterGuard, ParseReference, SalesOverlap, Do;
    assert FlightInv(sys, r) && KeyInv(sys, key);
    AnswerIgnoresStore(sys.s, setup, sys.flights[r].call);
    FinishSells(setup, sys, r);
  }

  lemma OneAct(setup: Setup, sys: System, act: Act)
    requires Valid(setup.primary) && Enabled(sys, act)
    ensures Legal(setup, sys, [act]) && Execute(setup, sys, [act]) == Do(setup, sys, act)
  {
    hide Do, Enabled;
    assert [act][..0] == [];
    assert Legal(setup, sys, []) && Execute(setup, sys, []) == sys;
  }

  /**
   The reference of a key is kept for ever, whatever happens next, exactly when no call
   under way is about to store a charge under the same key.
   */
  lemma ReferenceStaysIff(setup: Setup, sys: System, key: string)
    requires Valid(setup.primary) && Reached(setup, sys) && key in sys.s.idemKeys
    ensures KeptForEver(setup, sys, key) <==> NoRival(setup, sys, key)
  {
    hide Inv, Do, Reached, Legal, Execute, WillStore;
    ReachedInv(setup, sys);
    if NoRival(setup, sys, key) {
      forall acts: seq<Act> | Legal(setup, sys, acts) ensures Kept(sys, Execute(setup, sys, acts), key) {
        RunKeepsKey(setup, sys, acts, key);
      }
    } else {
      var r :| r in sys.flights && sys.flights[r].call.req.key != "" && IdemKey(sys.flights[r].call.req) == key
               && WillStore(setup, sys.flights[r].call);
      RivalOverwrites(setup, sys, r, key);
      OneAct(setup, sys, Finish(r));
    }
  }

  /**
   Once a pair is charged and no call for it is under way, every later valid call with that
   pair is answered with its reference, sends nothing and changes nothing, whatever other
   charges, webhooks, workers and payouts do in between.
   */
  lemma RepeatedKeyReusesReference(setup: Setup, sys: System, acts: seq<Act>, r: nat, call: Call)
    requires Valid(setup.primary) && Reached(setup, sys) && Legal(setup, sys, acts)
    requires ValidRequest(call.req) && Seen(sys.s, call.req) && NoRival(setup, sys, IdemKey(call.req))
    ensures var sys' := Execute(setup, sys, acts);
            && InitiateSpec(sys'.s, setup, call) == (sys'.s, Reused(sys.s.idemKeys[IdemKey(call.req)]))
            && SentBy(sys'.s, setup, call) == []
            && (Enabled(sys', Look(r, call)) ==> Do(setup, sys', Look(r, call)) == sys')
  {
    hide Inv, Reached, Legal, Execute, NoRival, AfterGuard, IdemKey;
    ReachedInv(setup, sys);
    RunKeepsKey(setup, sys, acts, IdemKey(call.req));
  }

  /** Different (product, key) pairs are never answered with the same reference. */
  lemma DistinctPairsDistinctReferences(setup: Setup, sys: System, p: ChargeRequest, q: ChargeRequest)
    requires Valid(setup.primary) && Reached(setup, sys) && Seen(sys.s, p) && Seen(sys.s, q)
    requires ':' !in p.product && ':' !in q.product
    requires (p.product, p.key) != (q.product, q.key)
    ensures sys.s.idemKeys[IdemKey(p)] != sys.s.idemKeys[IdemKey(q)]
  {
    hide Reached, Do, Enabled, ParseReference, FlightInv, LastRef;
    ReachedInv(setup, sys);
    assert KeyInv(sys, IdemKey(p)) && KeyInv(sys, IdemKey(q));
    KeyCollisionIff(p.product, p.key, q.product, q.key);
  }

  // ---------------------------------------------------------------- the engine runs the protocol

  /** The protocol's view: claims are runs that have claimed; calls before their store do not show. */
  function Runs(claims: map<nat, Event>): map<nat, P.Run> {
    map r | r in claims :: P.Claimed(claims[r])
  }

  function View(sys: System): P.Config {
    P.Config(sys.s, Runs(sys.claims))
  }

  ghost predicate HonestAct(truth: P.Truth, act: Act) {
    act.Hook? || act.Work? ==> A.Honest(truth, act.verify)
  }

  lemma FinishIsProtocolRun(truth: P.Truth, setup: Setup, sys: System, r: nat)
    requires Valid(setup.primary) && Reached(setup, sys) && r in sys.flights
    requires A.Reaches(truth, P.START, View(sys))
    ensures A.Reaches(truth, P.START, View(Do(setup, sys, Finish(r))))
  {
    hide A.Reaches, Reached, AfterGuard, ParseReference, BuildReference, KeyInv, SalesOverlap;
    ReachedInv(setup, sys);
    assert FlightInv(sys, r);
    var call := sys.flights[r].call;
    StoredPastGuard(sys.s, setup, call);
    ChargesAreFresh(setup, sys, r);
    var answer := AfterGuard(sys.s, setup, call).1;
    if Stores(answer) {
      var url := if answer.Started? then answer.url else "";
      var op := A.Charge(answer.ref, call.req.product, call.req.key, answer.gateway, url, call.eventId, call.now);
      A.ChargeIsProtocolRun(truth, P.START, View(sys), r, op);
    }
  }

  lemma ActIsProtocolRun(truth: P.Truth, setup: Setup, sys: System, act: Act)
    requires Valid(setup.primary) && Reached(setup, sys) && Enabled(sys, act) && HonestAct(truth, act)
    requires A.Reaches(truth, P.START, View(sys))
    ensures A.Reaches(truth, P.START, View(Do(setup, sys, act)))
  {
    hide A.Reaches, Reached, AfterGuard, ProcessSpec, ProcessOneSpec, Passes;
    var c := View(sys);
    match act {
      case Look(_, _) =>
      case Finish(r) => FinishIsProtocolRun(truth, setup, sys, r);
      case Drop(r) =>
        if r in sys.claims {
          assert View(Do(setup, sys, act)) == P.Config(sys.s, c.runs - {r});
          A.ReachStep(truth, P.START, c, P.Abandon(r), P.Config(sys.s, c.runs - {r}));
        } else {
          assert sys.claims - {r} == sys.claims;
        }
      case Hook(r, d, adapters, verify) => A.ProcessIsProtocolRun(truth, P.START, c, r, d, adapters, verify);
      case Claim(r, id) =>
        var claimed := P.Moved(c, r, P.Claimed(sys.s.outbox[id]));
        assert View(Do(setup, sys, act)) == claimed;
        A.ReachStep(truth, P.START, c, P.Claim(r, id), claimed);
      case Work(r, adapters, verify, now) =>
        assert View(Do(setup, sys, act)).runs == c.runs - {r};
        A.WorkIsProtocolRun(truth, P.START, c, r, adapters, verify, now);
      case PayOut(ref, entry) =>
        A.ReachStep(truth, P.START, c, P.PayOut(ref, entry), c.(s := WithEntries(sys.s, ref, [entry])));
    }
  }

  /**
   The whole engine, with overlapping charges and any number of workers on claims of any
   age, only reaches states of the protocol: all that is proved of the protocol holds of it.
   */
  lemma {:induction false} EngineRunsAreProtocolRuns(truth: P.Truth, setup: Setup, acts: seq<Act>)
    requires Valid(setup.primary) && Legal(setup, IDLE, acts)
    requires forall act <- acts :: HonestAct(truth, act)
    ensures A.Reaches(truth, P.START, View(Execute(setup, IDLE, acts)))
  {
    hide A.Reaches, Do, Enabled, HonestAct;
    if acts == [] {
      A.ReachSelf(truth, P.START);
      assert Runs(map[]) == map[];
    } else {
      var n := |acts| - 1;
      EngineRunsAreProtocolRuns(truth, setup, acts[..n]);
      assert Reached(setup, Execute(setup, IDLE, acts[..n]));
      ActIsProtocolRun(truth, setup, Execute(setup, IDLE, acts[..n]), acts[n]);
    }
  }

  /** For instance: every charge the engine reports succeeded is collected, every other is not, and events agree. */
  lemma EngineSettlesSoundly(truth: P.Truth, setup: Setup, acts: seq<Act>)
    requires Valid(setup.primary) && Legal(setup, IDLE, acts)
    requires forall act <- acts :: HonestAct(truth, act)
    ensures var s := Execute(setup, IDLE, acts).s;
            && (forall ref :: P.Collections(Entries(s, ref)) >= 1 <==> P.IsSucceeded(s, ref))
            && (forall ref <- s.intents :: s.intents[ref].status in {Pending, truth(s.intents[ref].gateway, ref)})
            && forall id <- s.outbox ::
                 s.outbox[id].ref in s.intents && s.outbox[id].status in {Pending, s.intents[s.outbox[id].ref].status}
  {
    hide P.Legal, P.Execute, P.Collections, HonestAct, Entries, Legal, Execute;
    EngineRunsAreProtocolRuns(truth, setup, acts);
    var s := Execute(setup, IDLE, acts).s;
    var steps: seq<P.Step> :| P.Legal(truth, P.START, steps) && P.Execute(truth, P.START, steps).s == s;
    forall ref ensures P.Collections(Entries(s, ref)) >= 1 <==> P.IsSucceeded(s, ref) {
      P.SucceededIffCollected(truth, steps, ref);
    }
    forall ref <- s.intents ensures s.intents[ref].status in {Pending, truth(s.intents[ref].gateway, ref)} {
      P.OnlyTheTruth(truth, steps, ref);
    }
    forall id <- s.outbox
      ensures s.outbox[id].ref in s.intents && s.outbox[id].status in {Pending, s.intents[s.outbox[id].ref].status}
    {
      P.EventsAgreeWithIntents(truth, steps, id);
    }
  }

  /** The race happens with every router: here are its calls. */
  lemma RaceExists(setup: Setup)
    requires Valid(setup.primary) && setup.primary in setup.adapters
    ensures exists a, b ::
              && Legal(setup, IDLE, Race(a, b))
              && |Execute(setup, IDLE, Race(a, b)).sales| == 2
              && Execute(setup, IDLE, Race(a, b)).sales[0].key == Execute(setup, IDLE, Race(a, b)).sales[1].key
              && Execute(setup, IDLE, Race(a, b)).sales[0].ref != Execute(setup, IDLE, Race(a, b)).sales[1].ref
  {
    hide Legal, Execute, WillStore, ParseReference, BuildReference, RouteSpec, Race;
    var req := ChargeRequest("p", M.Money(1, M.GHS), "w", "", "k");
    var a := Call(req, _ => Closed, _ => Closed, (_, _) => Reply.Accepted("", ""), "A", "1", 0);
    var b := a.(ulid := "B", eventId := "2");
    RouteProperties(setup.primary, if setup.monitored then Some(a.second) else None);
    assert setup.Route(a.second)[0] == setup.primary;
    AcceptedCallStores(setup, a);
    AcceptedCallStores(setup, b);
    OverlappingCallsChargeTwice(setup, a, b);
  }
}
