/**
 Charges on PostgreSQL (internal/storage/postgres/pg_store.go, migrations/000001): the
 unique index on (product, idempotency_key) decides between overlapping calls, after the
 gateway has answered.
 */
module SqlCharges {
  import opened Prelude
  import opened Gateways
  import opened Money
  import opened Reference
  import opened Router
  import opened Charges
  import Store

  /** The payment_intents table: the request behind each reference. */
  type Intents = map<string, ChargeRequest>

  datatype Error = Refused

  /** Some intent carries this product and key. */
  predicate Holds(intents: Intents, product: string, key: string) {
    exists ref <- intents :: intents[ref].product == product && intents[ref].key == key
  }

  /** The CHECKs on amount and currency, the primary key, and the unique index, which ignores missing keys. */
  predicate Refuses(intents: Intents, ref: string, req: ChargeRequest) {
    || req.amount.minorUnits <= 0 || req.amount.currency != GHS
    || ref in intents || (req.key != "" && Holds(intents, req.product, req.key))
  }

  class PostgresStore {
    var intents: Intents

    constructor ()
      ensures intents == map[]
    {
      intents := map[];
    }

    method CreateIntent(ref: string, req: ChargeRequest) returns (r: Result<(), Error>)
      modifies this
      ensures r == if Refuses(old(intents), ref, req) then Err(Refused) else Ok(())
      ensures intents == if Refuses(old(intents), ref, req) then old(intents) else old(intents)[ref := req]
    {
      var found := FindByIdempotencyKey(req.product, req.key);
      if req.amount.minorUnits <= 0 || req.amount.currency != GHS {
        return Err(Refused);
      }
      if ref in intents || (req.key != "" && found.Some?) {
        return Err(Refused);
      }
      intents := intents[ref := req];
      return Ok(());
    }

    method FindByIdempotencyKey(product: string, key: string) returns (r: Option<string>)
      ensures r.Some? <==> Holds(intents, product, key)
      ensures r.Some? ==> r.value in intents && intents[r.value].product == product && intents[r.value].key == key
    {
      var rest := intents.Keys;
      while rest != {}
        invariant rest <= intents.Keys
        invariant forall ref <- intents.Keys - rest :: intents[ref].product != product || intents[ref].key != key
        decreases rest
      {
        var ref :| ref in rest;
        if intents[ref].product == product && intents[ref].key == key {
          return Some(ref);
        }
        rest := rest - {ref};
      }
      return None;
    }
  }

  // ---------------------------------------------------------------- overlapping calls

  /** A call past its lookup; `since` counts the keyed charges stored until then. */
  datatype Flight = Flight(call: Call, since: nat)

  datatype Sale = Sale(product: string, key: string, ref: string)

  datatype System = System(intents: Intents, flights: map<nat, Flight>, sales: seq<Sale>, ulids: set<string>)

  const IDLE: System := System(map[], map[], [], {})

  datatype Act = Look(r: nat, call: Call) | Finish(r: nat) | Drop(r: nat)

  predicate Enabled(sys: System, act: Act) {
    match act
    case Look(r, call) => r !in sys.flights && DASH !in call.ulid && call.ulid !in sys.ulids
    case Finish(r) => r in sys.flights
    case Drop(r) => r in sys.flights
  }

  predicate Passes(intents: Intents, req: ChargeRequest) {
    ValidRequest(req) && (req.key != "" ==> !Holds(intents, req.product, req.key))
  }

  /** What the gateways make of a call; the store has no say in it. */
  function Answer(setup: Setup, call: Call): ChargeResult
    requires Valid(setup.primary)
  {
    AfterGuard(Store.EMPTY, setup, call).1
  }

  /** The end of a call, given its answer: the row is stored unless the table refuses it. */
  function Ends(sys: System, r: nat, answer: ChargeResult): System
    requires r in sys.flights
  {
    var req := sys.flights[r].call.req;
    var over := sys.(flights := sys.flights - {r});
    if !Stores(answer) || Refuses(sys.intents, answer.ref, req) then over
    else
      over.(intents := sys.intents[answer.ref := req],
            sales := sys.sales + if req.key == "" then [] else [Sale(req.product, req.key, answer.ref)])
  }

  function Do(setup: Setup, sys: System, act: Act): System
    requires Valid(setup.primary) && Enabled(sys, act)
  {
    match act
    case Look(r, call) =>
      if !Passes(sys.intents, call.req) then sys
      else sys.(flights := sys.flights[r := Flight(call, |sys.sales|)], ulids := sys.ulids + {call.ulid})
    case Finish(r) => Ends(sys, r, Answer(setup, sys.flights[r].call))
    case Drop(r) => sys.(flights := sys.flights - {r})
  }

  ghost predicate Legal(setup: Setup, sys: System, acts: seq<Act>)
    requires Valid(setup.primary)
    decreases |acts|, 0
  {
    acts == [] || (
      && Legal(setup, sys, acts[..|acts| - 1])
      && Enabled(Execute(setup, sys, acts[..|acts| - 1]), acts[|acts| - 1]))
  }

  ghost function Execute(setup: Setup, sys: System, acts: seq<Act>): System
    requires Valid(setup.primary) && Legal(setup, sys, acts)
    decreases |acts|, 1
  {
    if acts == [] then sys
    else Do(setup, Execute(setup, sys, acts[..|acts| - 1]), acts[|acts| - 1])
  }

  // ---------------------------------------------------------------- invariant

  predicate IsSale(sale: Sale, product: string, key: string) {
    sale.product == product && sale.key == key
  }

  ghost predicate SoldBetween(sales: seq<Sale>, lo: nat, hi: nat, req: ChargeRequest) {
    exists i :: lo <= i < hi <= |sales| && IsSale(sales[i], req.product, req.key)
  }

  ghost predicate RowInv(sys: System, ref: string)
    requires ref in sys.intents
  {
    && ParseReference(ref).Some? && ParseReference(ref).value.ulid in sys.ulids
    && var req := sys.intents[ref];
       (req.key != "" ==> Sale(req.product, req.key, ref) in sys.sales)
  }

  ghost predicate FlightInv(sys: System, r: nat)
    requires r in sys.flights
  {
    var f := sys.flights[r];
    && ValidRequest(f.call.req) && DASH !in f.call.ulid && f.call.ulid in sys.ulids
    && (forall ref <- sys.intents :: ParseReference(ref).Some? ==> ParseReference(ref).value.ulid != f.call.ulid)
    && f.since <= |sys.sales| && (f.call.req.key != "" ==> !SoldBetween(sys.sales, 0, f.since, f.call.req))
  }

  ghost predicate SaleInv(sys: System, i: nat)
    requires i < |sys.sales|
  {
    var sale := sys.sales[i];
    && sale.key != "" && sale.ref in sys.intents
    && sys.intents[sale.ref].product == sale.product && sys.intents[sale.ref].key == sale.key
    && forall j :: i < j < |sys.sales| ==> !IsSale(sys.sales[j], sale.product, sale.key)
  }

  ghost predicate Inv(sys: System) {
    && (forall ref <- sys.intents :: RowInv(sys, ref))
    && (forall r <- sys.flights :: FlightInv(sys, r))
    && (forall q, r :: q in sys.flights && r in sys.flights && q != r ==>
          sys.flights[q].call.ulid != sys.flights[r].call.ulid)
    && forall i :: 0 <= i < |sys.sales| ==> SaleInv(sys, i)
  }

  /** The table holds a pair exactly when it has been sold. */
  lemma HoldsIffSold(sys: System, req: ChargeRequest)
    requires Inv(sys) && req.key != ""
    ensures Holds(sys.intents, req.product, req.key) <==> SoldBetween(sys.sales, 0, |sys.sales|, req)
  {
    hide ParseReference, FlightInv;
    if ref :| ref in sys.intents && sys.intents[ref].product == req.product && sys.intents[ref].key == req.key {
      assert RowInv(sys, ref);
      var i :| 0 <= i < |sys.sales| && sys.sales[i] == Sale(req.product, req.key, ref);
      assert IsSale(sys.sales[i], req.product, req.key);
    }
    if i :| 0 <= i < |sys.sales| && IsSale(sys.sales[i], req.product, req.key) {
      assert SaleInv(sys, i);
    }
  }

  lemma LookKeepsInv(sys: System, r: nat, call: Call)
    requires Inv(sys) && Enabled(sys, Look(r, call)) && Passes(sys.intents, call.req)
    ensures Inv(sys.(flights := sys.flights[r := Flight(call, |sys.sales|)], ulids := sys.ulids + {call.ulid}))
  {
    hide ParseReference, ValidRequest, Holds;
    var sys' := sys.(flights := sys.flights[r := Flight(call, |sys.sales|)], ulids := sys.ulids + {call.ulid});
    if call.req.key != "" {
      HoldsIffSold(sys, call.req);
    }
    forall ref <- sys'.intents ensures RowInv(sys', ref) {
      assert RowInv(sys, ref);
    }
    forall q <- sys'.flights ensures FlightInv(sys', q) {
      if q == r {
        assert forall ref <- sys.intents :: RowInv(sys, ref);
      } else {
        assert FlightInv(sys, q);
      }
    }
    forall i | 0 <= i < |sys'.sales| ensures SaleInv(sys', i) {
      assert SaleInv(sys, i);
    }
    forall q <- sys.flights ensures sys.flights[q].call.ulid != call.ulid {
      assert FlightInv(sys, q);
    }
  }

  /** The reference of a finished call is new, and carries its ULID. */
  lemma AnswerIsFresh(setup: Setup, sys: System, r: nat)
    requires Valid(setup.primary) && r in sys.flights && FlightInv(sys, r)
    ensures var call := sys.flights[r].call;
            var answer := Answer(setup, call);
            Stores(answer) ==>
              && answer.ref !in sys.intents
              && ParseReference(answer.ref).Some? && ParseReference(answer.ref).value.ulid == call.ulid
  {
    hide AfterGuard, ParseReference, BuildReference, SoldBetween;
    var call := sys.flights[r].call;
    StoredPastGuard(Store.EMPTY, setup, call);
    var answer := Answer(setup, call);
    if Stores(answer) {
      ParseOfBuilt(call.req.product, answer.gateway, call.ulid);
    }
  }

  lemma StoreKeepsRow(sys: System, r: nat, answer: ChargeResult, ref: string)
    requires r in sys.flights && FlightInv(sys, r) && Stores(answer) && ref in Ends(sys, r, answer).intents
    requires ParseReference(answer.ref).Some? && ParseReference(answer.ref).value.ulid == sys.flights[r].call.ulid
    requires ref in sys.intents ==> RowInv(sys, ref)
    requires answer.ref !in sys.intents
    ensures RowInv(Ends(sys, r, answer), ref)
  {
    hide ParseReference, Holds, ValidRequest;
  }

  lemma StoreKeepsSale(sys: System, r: nat, answer: ChargeResult, i: nat)
    requires Inv(sys) && r in sys.flights && Stores(answer) && answer.ref !in sys.intents
    requires i < |Ends(sys, r, answer).sales|
    ensures SaleInv(Ends(sys, r, answer), i)
  {
    hide ParseReference, ValidRequest, Holds, RowInv, FlightInv;
    var sys', n := Ends(sys, r, answer), |sys.sales|;
    var req := sys.flights[r].call.req;
    if req.key != "" {
      HoldsIffSold(sys, req);
    }
    if i < n {
      assert SaleInv(sys, i);
      assert sys'.sales[i] == sys.sales[i] && forall j :: 0 <= j < n ==> sys'.sales[j] == sys.sales[j];
      assert IsSale(sys.sales[i], req.product, req.key) ==> SoldBetween(sys.sales, 0, n, req);
    }
  }

  lemma EndKeepsFlight(sys: System, r: nat, answer: ChargeResult, q: nat)
    requires r in sys.flights && q in sys.flights && q != r && FlightInv(sys, q)
    requires sys.flights[q].call.ulid != sys.flights[r].call.ulid
    requires Stores(answer) ==>
               ParseReference(answer.ref).Some? && ParseReference(answer.ref).value.ulid == sys.flights[r].call.ulid
    ensures FlightInv(Ends(sys, r, answer), q)
  {
    hide ParseReference, ValidRequest, Holds;
    var sys' := Ends(sys, r, answer);
    assert |sys'.sales| >= |sys.sales| && forall j :: 0 <= j < |sys.sales| ==> sys'.sales[j] == sys.sales[j];
  }

  lemma FewerFlightsKeepInv(sys: System, r: nat)
    requires Inv(sys)
    ensures Inv(sys.(flights := sys.flights - {r}))
  {
    hide ParseReference, ValidRequest;
    var sys' := sys.(flights := sys.flights - {r});
    forall ref <- sys'.intents ensures RowInv(sys', ref) {
      assert RowInv(sys, ref);
    }
    forall q <- sys'.flights ensures FlightInv(sys', q) {
      assert FlightInv(sys, q);
    }
    forall i | 0 <= i < |sys'.sales| ensures SaleInv(sys', i) {
      assert SaleInv(sys, i);
    }
  }

  lemma EndKeepsInv(sys: System, r: nat, answer: ChargeResult)
    requires Inv(sys) && r in sys.flights
    requires Stores(answer) ==>
               && answer.ref !in sys.intents && ParseReference(answer.ref).Some?
               && ParseReference(answer.ref).value.ulid == sys.flights[r].call.ulid
    ensures Inv(Ends(sys, r, answer))
  {
    hide ParseReference, ValidRequest, Holds, RowInv, FlightInv, SaleInv;
    var sys' := Ends(sys, r, answer);
    FewerFlightsKeepInv(sys, r);
    if Stores(answer) {
      forall ref <- sys'.intents ensures RowInv(sys', ref) {
        StoreKeepsRow(sys, r, answer, ref);
      }
      forall q <- sys'.flights ensures FlightInv(sys', q) {
        EndKeepsFlight(sys, r, answer, q);
      }
      forall i | 0 <= i < |sys'.sales| ensures SaleInv(sys', i) {
        StoreKeepsSale(sys, r, answer, i);
      }
    }
  }

  lemma ActKeepsInv(setup: Setup, sys: System, act: Act)
    requires Valid(setup.primary) && Inv(sys) && Enabled(sys, act)
    ensures Inv(Do(setup, sys, act))
  {
    hide Inv, Answer, Ends, ParseReference, FlightInv;
    match act {
      case Look(r, call) =>
        if Passes(sys.intents, call.req) {
          LookKeepsInv(sys, r, call);
        }
      case Finish(r) =>
        FlightHasInv(sys, r);
        AnswerIsFresh(setup, sys, r);
        EndKeepsInv(sys, r, Answer(setup, sys.flights[r].call));
      case Drop(r) => FewerFlightsKeepInv(sys, r);
    }
  }

  lemma FlightHasInv(sys: System, r: nat)
    requires Inv(sys) && r in sys.flights
    ensures FlightInv(sys, r)
  {
  }

  lemma {:induction false} RunKeepsInv(setup: Setup, acts: seq<Act>)
    requires Valid(setup.primary) && Legal(setup, IDLE, acts)
    ensures Inv(Execute(setup, IDLE, acts))
  {
    hide Inv, Do, Enabled;
    if acts == [] {
      IdleInv();
    } else {
      var n := |acts| - 1;
      RunKeepsInv(setup, acts[..n]);
      ActKeepsInv(setup, Execute(setup, IDLE, acts[..n]), acts[n]);
    }
  }

  lemma IdleInv()
    ensures Inv(IDLE)
  {
  }

  // ---------------------------------------------------------------- results

  /** Another call has stored a charge for the pair of call `r` since that looked. */
  ghost predicate Overtaken(sys: System, r: nat)
    requires r in sys.flights
  {
    SoldBetween(sys.sales, sys.flights[r].since, |sys.sales|, sys.flights[r].call.req)
  }

  /**
   A charge that the gateways have taken is left without an intent exactly when it is not
   in cedis, or when another call for its pair has stored since it looked.
   */
  lemma LeftWithoutIntentIff(setup: Setup, acts: seq<Act>, r: nat)
    requires Valid(setup.primary) && Legal(setup, IDLE, acts) && r in Execute(setup, IDLE, acts).flights
    requires Stores(Answer(setup, Execute(setup, IDLE, acts).flights[r].call))
    ensures var sys := Execute(setup, IDLE, acts);
            var call := sys.flights[r].call;
            var sys' := Do(setup, sys, Finish(r));
            && (Answer(setup, call).ref !in sys'.intents <==>
                  call.req.amount.currency != GHS || (call.req.key != "" && Overtaken(sys, r)))
            && (Answer(setup, call).ref !in sys'.intents ==> sys'.intents == sys.intents)
  {
    hide Legal, Execute, Answer, ParseReference, Holds, RowInv, SaleInv;
    RunKeepsInv(setup, acts);
    var sys := Execute(setup, IDLE, acts);
    FlightHasInv(sys, r);
    AnswerIsFresh(setup, sys, r);
    var f := sys.flights[r];
    if f.call.req.key != "" {
      HoldsIffSold(sys, f.call.req);
      assert forall i :: 0 <= i < f.since ==> !IsSale(sys.sales[i], f.call.req.product, f.call.req.key);
    }
  }

  /** The index keeps every pair to one intent, and an intent once stored keeps its reference, in every run. */
  lemma OneIntentPerPair(setup: Setup, acts: seq<Act>, ref: string, other: string)
    requires Valid(setup.primary) && Legal(setup, IDLE, acts)
    requires ref in Execute(setup, IDLE, acts).intents && other in Execute(setup, IDLE, acts).intents
    requires var intents := Execute(setup, IDLE, acts).intents;
             intents[ref].product == intents[other].product && intents[ref].key == intents[other].key != ""
    ensures ref == other
  {
    hide Legal, Execute, ParseReference, FlightInv;
    RunKeepsInv(setup, acts);
    var sys := Execute(setup, IDLE, acts);
    assert RowInv(sys, ref) && RowInv(sys, other);
    var req := sys.intents[ref];
    var i :| 0 <= i < |sys.sales| && sys.sales[i] == Sale(req.product, req.key, ref);
    var j :| 0 <= j < |sys.sales| && sys.sales[j] == Sale(req.product, req.key, other);
    assert SaleInv(sys, i) && SaleInv(sys, j);
    assert IsSale(sys.sales[i], req.product, req.key) && IsSale(sys.sales[j], req.product, req.key);
  }

  lemma ActKeepsRows(setup: Setup, sys: System, act: Act, ref: string)
    requires Valid(setup.primary) && Enabled(sys, act) && ref in sys.intents
    ensures var sys' := Do(setup, sys, act); ref in sys'.intents && sys'.intents[ref] == sys.intents[ref]
  {
    hide Answer, Holds, Passes;
  }

  /** Whatever happens after, an intent keeps its row; so a pair keeps its reference for ever, without a proviso. */
  lemma {:induction false} RowsStay(setup: Setup, sys: System, acts: seq<Act>, ref: string)
    requires Valid(setup.primary) && Legal(setup, sys, acts) && ref in sys.intents
    ensures var sys' := Execute(setup, sys, acts); ref in sys'.intents && sys'.intents[ref] == sys.intents[ref]
  {
    hide Do, Enabled;
    if acts != [] {
      var n := |acts| - 1;
      RowsStay(setup, sys, acts[..n], ref);
      ActKeepsRows(setup, Execute(setup, sys, acts[..n]), acts[n], ref);
    }
  }

  lemma Then(setup: Setup, acts: seq<Act>, sys: System, act: Act)
    requires Valid(setup.primary) && Legal(setup, IDLE, acts) && Execute(setup, IDLE, acts) == sys && Enabled(sys, act)
    ensures Legal(setup, IDLE, acts + [act]) && Execute(setup, IDLE, acts + [act]) == Do(setup, sys, act)
  {
    hide Do, Enabled;
    assert (acts + [act])[..|acts|] == acts;
  }

  /** Both look, then one ends. */
  ghost function Overlap(a: Call, b: Call): seq<Act> {
    [] + [Look(0, a)] + [Look(1, b)] + [Finish(0)]
  }

  /**
   Two calls for one pair that overlap: both are taken by a gateway, the first to end gets
   the intent, and the end of the other leaves none for its charge.
   */
  lemma OverlappingCallLosesIntent(setup: Setup, a: Call, b: Call)
    requires Valid(setup.primary) && ValidRequest(a.req) && b.req == a.req
    requires a.req.key != "" && a.req.amount.currency == GHS
    requires DASH !in a.ulid && DASH !in b.ulid && a.ulid != b.ulid
    requires Stores(Answer(setup, a)) && Stores(Answer(setup, b))
    ensures Legal(setup, IDLE, Overlap(a, b))
    ensures var sys := Execute(setup, IDLE, Overlap(a, b));
            && sys.intents == map[Answer(setup, a).ref := a.req]
            && 1 in sys.flights && sys.flights[1].call == b
            && Answer(setup, b).ref !in Do(setup, sys, Finish(1)).intents
  {
    assert Legal(setup, IDLE, []) && Execute(setup, IDLE, []) == IDLE;
    hide Legal, Execute, Answer, ParseReference, Inv, FlightInv;
    var acts := [] + [Look(0, a)] + [Look(1, b)];
    Then(setup, [], IDLE, Look(0, a));
    var one := Do(setup, IDLE, Look(0, a));
    Then(setup, [] + [Look(0, a)], one, Look(1, b));
    var two := Do(setup, one, Look(1, b));
    Then(setup, acts, two, Finish(0));
    assert two.flights == map[0 := Flight(a, 0), 1 := Flight(b, 0)];
    var sys := Do(setup, two, Finish(0));
    assert sys.sales == [Sale(a.req.product, a.req.key, Answer(setup, a).ref)];
    assert IsSale(sys.sales[0], b.req.product, b.req.key);
    assert Overtaken(sys, 1);
    LeftWithoutIntentIff(setup, Overlap(a, b), 1);
  }
}
