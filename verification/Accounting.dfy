/**
 What sequential settlement adds up to: redelivered webhooks, the exact number of ledger
 entries, the progress of the outbox, and the fact that sequential calls are runs of the
 concurrent protocol.
 */
module Accounting {
  import opened Prelude
  import opened Gateways
  import opened Store
  import opened Protocol
  import opened Settlement

  // ---------------------------------------------------------------- redelivery

  /** The circumstances of one delivery attempt. */
  datatype Attempt = Attempt(adapters: set<Gateway>, verify: Verify)

  function DeliverAll(s: State, d: Delivery, attempts: seq<Attempt>): State {
    if attempts == [] then s
    else
      var last := attempts[|attempts| - 1];
      ProcessSpec(DeliverAll(s, d, attempts[..|attempts| - 1]), last.adapters, last.verify, d).0
  }

  function ResultOf(s: State, d: Delivery, a: Attempt): Processed {
    ProcessSpec(s, a.adapters, a.verify, d).1
  }

  lemma {:induction false} FailuresLeaveNoTrace(s: State, d: Delivery, attempts: seq<Attempt>)
    requires forall a <- attempts :: ResultOf(s, d, a) in {UnknownRef, NoAdapter, VerifyFailed}
    ensures DeliverAll(s, d, attempts) == s
  {
    if attempts != [] {
      FailuresLeaveNoTrace(s, d, attempts[..|attempts| - 1]);
      assert attempts[|attempts| - 1] in attempts;
    }
  }

  /** Failures before a good delivery, and any deliveries after it, change nothing about its effect. */
  lemma {:induction false} RedeliveryIsIdempotent(s: State, d: Delivery, failed: seq<Attempt>, good: Attempt,
                                                  later: seq<Attempt>)
    requires forall a <- failed :: ResultOf(s, d, a) in {UnknownRef, NoAdapter, VerifyFailed}
    requires ResultOf(s, d, good) == Done
    ensures DeliverAll(s, d, failed + [good] + later) == ProcessSpec(s, good.adapters, good.verify, d).0
    ensures forall a: Attempt :: ResultOf(DeliverAll(s, d, failed + [good] + later), d, a) == Duplicate
  {
    var all := failed + [good] + later;
    if later == [] {
      FailuresLeaveNoTrace(s, d, failed);
      assert all[..|failed|] == failed;
    } else {
      RedeliveryIsIdempotent(s, d, failed, good, later[..|later| - 1]);
      assert all[..|all| - 1] == failed + [good] + later[..|later| - 1];
    }
  }

  // ---------------------------------------------------------------- sequential runs

  /** One worker with its claimed queue; `hooked` counts the charges webhooks settled as succeeded. */
  datatype Books = Books(s: State, hooked: multiset<string>, queue: seq<Event>)

  const BLANK: Books := Books(EMPTY, multiset{}, [])

  datatype Op =
    | Charge(ref: string, product: string, key: string, gw: Gateway, url: string, id: string, now: int)
    | Hook(d: Delivery, adapters: set<Gateway>, verify: Verify)
    | ClaimBatch(events: seq<Event>)
    | WorkNext(adapters: set<Gateway>, verify: Verify, now: int, entered: bool)

  ghost predicate OpEnabled(b: Books, op: Op) {
    match op
    case Charge(ref, _, _, _, _, id, _) => ref !in b.s.intents && id !in b.s.outbox
    case Hook(_, _, _) => true
    case ClaimBatch(events) => b.queue == [] && IsClaim(b.s, BATCH, events)
    case WorkNext(_, _, _, _) => b.queue != []
  }

  function ChargeSpec(s: State, ref: string, product: string, key: string, gw: Gateway, url: string, id: string,
                      now: int): State {
    WithOutboxEvent(WithIntent(s, ref, product, key, gw, url), id, ref, gw, now)
  }

  predicate HookSucceeds(s: State, adapters: set<Gateway>, verify: Verify, d: Delivery) {
    var (s', r) := ProcessSpec(s, adapters, verify, d);
    r == Done && d.ref in s.intents && s.intents[d.ref].status == Pending
    && d.ref in s'.intents && s'.intents[d.ref].status == Succeeded
  }

  ghost function Perform(b: Books, op: Op): Books
    requires OpEnabled(b, op)
  {
    match op
    case Charge(ref, product, key, gw, url, id, now) => b.(s := ChargeSpec(b.s, ref, product, key, gw, url, id, now))
    case Hook(d, adapters, verify) =>
      b.(s := ProcessSpec(b.s, adapters, verify, d).0,
         hooked := b.hooked + if HookSucceeds(b.s, adapters, verify, d) then multiset{d.ref} else multiset{})
    case ClaimBatch(events) => b.(queue := events)
    case WorkNext(adapters, verify, now, entered) =>
      b.(s := if entered then ProcessOneSpec(b.s, adapters, verify, b.queue[0], now) else b.s, queue := b.queue[1..])
  }

  ghost predicate OpsLegal(ops: seq<Op>)
    decreases |ops|, 0
  {
    ops == [] || (OpsLegal(ops[..|ops| - 1]) && OpEnabled(PerformAll(ops[..|ops| - 1]), ops[|ops| - 1]))
  }

  ghost function PerformAll(ops: seq<Op>): Books
    requires OpsLegal(ops)
    decreases |ops|, 1
  {
    if ops == [] then BLANK else Perform(PerformAll(ops[..|ops| - 1]), ops[|ops| - 1])
  }

  ghost function EventsOf(s: State, ref: string): set<string> {
    set id <- s.outbox | s.outbox[id].ref == ref
  }

  ghost function SucceededEvents(s: State, ref: string): set<string> {
    set id <- s.outbox | s.outbox[id].ref == ref && s.outbox[id].status == Succeeded
  }

  ghost predicate RefInv(s: State, hooked: multiset<string>, ref: string) {
    && Collections(Entries(s, ref)) == |SucceededEvents(s, ref)| + hooked[ref]
    && hooked[ref] <= 1
    && (Collections(Entries(s, ref)) >= 1 <==> ref in s.intents && s.intents[ref].status == Succeeded)
    && (forall i, j :: i in EventsOf(s, ref) && j in EventsOf(s, ref) ==> i == j)
  }

  ghost predicate QueueInv(s: State, queue: seq<Event>) {
    && (forall k :: 0 <= k < |queue| ==>
          queue[k].id in s.outbox && s.outbox[queue[k].id] == queue[k] && queue[k].status == Pending)
    && (forall j, k :: 0 <= j < k < |queue| ==> queue[j].id != queue[k].id)
  }

  ghost predicate BooksInv(b: Books) {
    && (forall id <- b.s.outbox :: b.s.outbox[id].id == id && b.s.outbox[id].ref in b.s.intents)
    && (forall ref :: RefInv(b.s, b.hooked, ref))
    && QueueInv(b.s, b.queue)
  }

  /** Marking the pending event of a charge succeeded and adding an entry keeps its books balanced. */
  lemma MarkedAddsOne(s: State, s': State, hooked: multiset<string>, ref: string, id: string, entry: Entry)
    requires RefInv(s, hooked, ref) && id in s.outbox && s.outbox[id].ref == ref && s.outbox[id].status == Pending
    requires s'.outbox == s.outbox[id := s.outbox[id].(status := Succeeded)]
    requires ref in s'.intents && s'.intents[ref].status == Succeeded
    requires Entries(s', ref) == Entries(s, ref) + [entry] && entry.kind == Collection
    ensures RefInv(s', hooked, ref)
  {
    hide Collections, Entries;
    CollectionsAppend(Entries(s, ref), entry);
    assert EventsOf(s', ref) == EventsOf(s, ref);
    assert SucceededEvents(s', ref) == SucceededEvents(s, ref) + {id};
  }

  /** Completing a pending event as succeeded adds one entry and one succeeded event. */
  lemma SucceededAddsOne(s: State, hooked: multiset<string>, ev: Event, answer: Answer, view: WorkerIntent)
    requires ev.id in s.outbox && s.outbox[ev.id] == ev && ev.status == Pending && ev.ref in s.intents
    requires forall ref :: RefInv(s, hooked, ref)
    ensures forall ref :: RefInv(SucceededState(s, ev.id, ev.ref, answer, view), hooked, ref)
  {
    hide Collections, SettledAmount;
    var s' := SucceededState(s, ev.id, ev.ref, answer, view);
    forall ref ensures RefInv(s', hooked, ref) {
      assert RefInv(s, hooked, ref);
      if ref == ev.ref {
        var entry := Entry(Collection, SettledAmount(answer, view), view.product, answer.at);
        MarkedAddsOne(s, s', hooked, ref, ev.id, entry);
      } else {
        assert Entries(s', ref) == Entries(s, ref);
        assert EventsOf(s', ref) == EventsOf(s, ref) && SucceededEvents(s', ref) == SucceededEvents(s, ref);
      }
    }
  }

  lemma FailedAddsNone(s: State, hooked: multiset<string>, ev: Event)
    requires ev.id in s.outbox && s.outbox[ev.id] == ev && ev.status == Pending
    requires ev.ref in s.intents && s.intents[ev.ref].status != Succeeded
    requires forall ref :: RefInv(s, hooked, ref)
    ensures forall ref :: RefInv(FailedState(s, ev.id, ev.ref), hooked, ref)
  {
    var s' := FailedState(s, ev.id, ev.ref);
    forall ref ensures RefInv(s', hooked, ref) {
      assert RefInv(s, hooked, ref);
      assert EventsOf(s', ref) == EventsOf(s, ref);
      assert Entries(s', ref) == Entries(s, ref);
      assert SucceededEvents(s', ref) == SucceededEvents(s, ref);
    }
  }

  /** A webhook that settles a charge adds one entry and one to the webhook's count. */
  lemma HookAddsOne(s: State, s': State, hooked: multiset<string>, ref: string, entry: Entry)
    requires RefInv(s, hooked, ref) && s'.outbox == s.outbox
    requires ref in s.intents && s.intents[ref].status == Pending
    requires ref in s'.intents && s'.intents[ref].status == Succeeded
    requires Entries(s', ref) == Entries(s, ref) + [entry] && entry.kind == Collection
    ensures RefInv(s', hooked + multiset{ref}, ref)
  {
    hide Collections, Entries;
    CollectionsAppend(Entries(s, ref), entry);
    assert EventsOf(s', ref) == EventsOf(s, ref) && SucceededEvents(s', ref) == SucceededEvents(s, ref);
  }

  lemma HookCounts(s: State, hooked: multiset<string>, adapters: set<Gateway>, verify: Verify, d: Delivery)
    requires forall ref :: RefInv(s, hooked, ref)
    requires forall id <- s.outbox :: s.outbox[id].ref in s.intents
    ensures var s' := ProcessSpec(s, adapters, verify, d).0;
            var more := if HookSucceeds(s, adapters, verify, d) then multiset{d.ref} else multiset{};
            && s'.outbox == s.outbox && s'.intents.Keys == s.intents.Keys
            && forall ref :: RefInv(s', hooked + more, ref)
  {
    hide Collections;
    var s' := ProcessSpec(s, adapters, verify, d).0;
    var hit := HookSucceeds(s, adapters, verify, d);
    var more := if hit then multiset{d.ref} else multiset{};
    assert s'.outbox == s.outbox && s'.intents.Keys == s.intents.Keys;
    forall ref ensures RefInv(s', hooked + more, ref) {
      assert RefInv(s, hooked, ref);
      if ref == d.ref && hit {
        var intent := s.intents[ref];
        var answer := verify(intent.gateway, ref).answer;
        HookAddsOne(s, s', hooked, ref, Entry(Collection, answer.amount, intent.product, answer.at));
      } else {
        assert Entries(s', ref) == Entries(s, ref);
        assert EventsOf(s', ref) == EventsOf(s, ref) && SucceededEvents(s', ref) == SucceededEvents(s, ref);
      }
    }
  }

  lemma ChargeCounts(b: Books, op: Op)
    requires BooksInv(b) && op.Charge? && OpEnabled(b, op)
    ensures BooksInv(Perform(b, op))
  {
    var s, s' := b.s, Perform(b, op).s;
    forall ref ensures RefInv(s', b.hooked, ref) {
      assert RefInv(s, b.hooked, ref);
      assert Entries(s', ref) == Entries(s, ref);
      assert SucceededEvents(s', ref) == SucceededEvents(s, ref);
      if ref == op.ref {
        assert EventsOf(s', ref) == {op.id};
      } else {
        assert EventsOf(s', ref) == EventsOf(s, ref);
      }
    }
  }

  lemma WorkCounts(b: Books, op: Op)
    requires BooksInv(b) && op.WorkNext? && OpEnabled(b, op)
    ensures BooksInv(Perform(b, op))
  {
    var ev := b.queue[0];
    assert RefInv(b.s, b.hooked, ev.ref);
    if op.entered && ev.gateway in op.adapters {
      var view := ViewIntent(b.s, ev.ref).value;
      var answer := if view.status != Pending then Answered(ZeroAmount(view.status, op.now))
                    else op.verify(ev.gateway, ev.ref);
      if answer.Answered? && answer.answer.status == Succeeded {
        SucceededAddsOne(b.s, b.hooked, ev, answer.answer, view);
      } else if answer.Answered? && answer.answer.status == Failed {
        FailedAddsNone(b.s, b.hooked, ev);
      }
    }
  }

  lemma OpKeepsInv(b: Books, op: Op)
    requires BooksInv(b) && OpEnabled(b, op)
    ensures BooksInv(Perform(b, op))
  {
    match op {
      case Charge(_, _, _, _, _, _, _) => ChargeCounts(b, op);
      case Hook(d, adapters, verify) => HookCounts(b.s, b.hooked, adapters, verify, d);
      case ClaimBatch(events) =>
        forall k | 0 <= k < |events| ensures events[k].status == Pending {
          assert events[k].id in IdsOf(events);
        }
      case WorkNext(_, _, _, _) => WorkCounts(b, op);
    }
  }

  lemma {:induction false} OpsKeepInv(ops: seq<Op>)
    requires OpsLegal(ops)
    ensures BooksInv(PerformAll(ops))
  {
    if ops == [] {
      forall ref ensures RefInv(EMPTY, multiset{}, ref) {
        assert SucceededEvents(EMPTY, ref) == {};
      }
    } else {
      OpsKeepInv(ops[..|ops| - 1]);
      OpKeepsInv(PerformAll(ops[..|ops| - 1]), ops[|ops| - 1]);
    }
  }

  /**
   The ledger of a charge, exactly: one collection entry per event the worker marked
   succeeded, plus one if a webhook settled it; and a webhook settles it at most once.
   */
  lemma CollectionCountIsExact(ops: seq<Op>, ref: string)
    requires OpsLegal(ops)
    ensures var b := PerformAll(ops);
            && Collections(Entries(b.s, ref)) == |SucceededEvents(b.s, ref)| + b.hooked[ref]
            && b.hooked[ref] <= 1
  {
    OpsKeepInv(ops);
    assert RefInv(PerformAll(ops).s, PerformAll(ops).hooked, ref);
  }

  /** A charge is collected exactly once unless both a webhook and the worker settled it. */
  lemma CollectedOnceIff(ops: seq<Op>, ref: string)
    requires OpsLegal(ops)
    ensures var b := PerformAll(ops);
            ref in b.s.intents && b.s.intents[ref].status == Succeeded ==>
              (Collections(Entries(b.s, ref)) == 1 <==> b.hooked[ref] == 0 || SucceededEvents(b.s, ref) == {})
  {
    OpsKeepInv(ops);
    var b := PerformAll(ops);
    assert RefInv(b.s, b.hooked, ref);
    AtMostOneSucceeded(b.s, b.hooked, ref);
  }

  lemma AtMostOneSucceeded(s: State, hooked: multiset<string>, ref: string)
    requires RefInv(s, hooked, ref)
    ensures SucceededEvents(s, ref) == {} || |SucceededEvents(s, ref)| == 1
  {
    var ids := SucceededEvents(s, ref);
    if i :| i in ids {
      forall j | j in ids ensures j == i {
        assert i in EventsOf(s, ref) && j in EventsOf(s, ref);
      }
      assert ids == {i};
    }
  }

  /**
   The call that duplicates: working a claimed event leaves its charge with two collection
   entries exactly when the intent was already succeeded before the call.
   */
  lemma WorkDuplicatesIff(ops: seq<Op>, op: Op)
    requires OpsLegal(ops) && op.WorkNext? && PerformAll(ops).queue != []
    requires op.entered && PerformAll(ops).queue[0].gateway in op.adapters
    ensures var b := PerformAll(ops);
            var ref := b.queue[0].ref;
            && ref in b.s.intents
            && (Collections(Entries(Perform(b, op).s, ref)) == 2 <==> b.s.intents[ref].status == Succeeded)
  {
    OpsKeepInv(ops);
    var b := PerformAll(ops);
    var ev := b.queue[0];
    assert RefInv(b.s, b.hooked, ev.ref);
    assert SucceededEvents(b.s, ev.ref) == {} by {
      assert ev.id in EventsOf(b.s, ev.ref);
      assert SucceededEvents(b.s, ev.ref) <= EventsOf(b.s, ev.ref);
    }
    OpKeepsInv(b, op);
    var s' := Perform(b, op).s;
    assert RefInv(s', b.hooked, ev.ref);
    AtMostOneSucceeded(s', b.hooked, ev.ref);
    assert b.s.intents[ev.ref].status == Succeeded ==> ev.id in SucceededEvents(s', ev.ref);
  }

  /** A charge, a webhook that settles it, and a worker that claims its event: the run that duplicates. */
  ghost function SettledTwice(ref: string, answer: Answer): seq<Op> {
    var verify: Verify := (_, _) => Answered(answer);
    [] + [Charge(ref, "p", "", HUBTEL, "", "e", 0)] + [Hook(Delivery("h", ref), {HUBTEL}, verify)]
    + [ClaimBatch([Event("e", ref, HUBTEL, Pending, 0)])] + [WorkNext({HUBTEL}, verify, 1, true)]
  }

  lemma Next(ops: seq<Op>, b: Books, op: Op)
    requires OpsLegal(ops) && PerformAll(ops) == b && OpEnabled(b, op)
    ensures OpsLegal(ops + [op]) && PerformAll(ops + [op]) == Perform(b, op)
  {
    hide Perform, OpEnabled;
    assert (ops + [op])[..|ops|] == ops;
  }

  /** The worker collects once more what a webhook has already collected. */
  lemma WorkerCollectsAgain(ref: string, answer: Answer)
    requires answer.status == Succeeded
    ensures var ops := SettledTwice(ref, answer);
            && OpsLegal(ops)
            && Collections(Entries(PerformAll(ops).s, ref)) == 2
            && PerformAll(ops).hooked[ref] == 1 && SucceededEvents(PerformAll(ops).s, ref) == {"e"}
  {
    var verify: Verify := (_, _) => Answered(answer);
    var ev := Event("e", ref, HUBTEL, Pending, 0);
    assert OpsLegal([]) && PerformAll([]) == BLANK;
    hide OpsLegal, PerformAll, Collections, SettledAmount;
    var charge := Charge(ref, "p", "", HUBTEL, "", "e", 0);
    Next([], BLANK, charge);
    var b1 := Perform(BLANK, charge);
    var ops := [] + [charge];
    var hook := Hook(Delivery("h", ref), {HUBTEL}, verify);
    Next(ops, b1, hook);
    var b2 := Perform(b1, hook);
    ops := ops + [hook];
    assert b2.s.outbox == map["e" := ev];
    OneEventClaim(b2.s, ev);
    Next(ops, b2, ClaimBatch([ev]));
    var b3 := b2.(queue := [ev]);
    ops := ops + [ClaimBatch([ev])];
    var work := WorkNext({HUBTEL}, verify, 1, true);
    Next(ops, b3, work);
    WorkDuplicatesIff(ops, work);
  }

  lemma OneEventClaim(s: State, ev: Event)
    requires s.outbox == map[ev.id := ev] && ev.status == Pending
    ensures IsClaim(s, BATCH, [ev])
  {
    assert PendingIds(s) == {ev.id};
    ClaimOfSorted(s, BATCH, [ev]);
  }

  // ---------------------------------------------------------------- draining makes progress

  /** Nothing stands in the way of the claimed events: adapters, locks and terminal answers are there. */
  ghost predicate Unobstructed(w: World, adapters: set<Gateway>, events: seq<Event>, inputs: Inputs) {
    forall i :: 0 <= i < |events| ==> EventUnobstructed(w, adapters, events[i], inputs, i)
  }

  ghost predicate EventUnobstructed(w: World, adapters: set<Gateway>, ev: Event, inputs: Inputs, i: nat) {
    var verdict := inputs.verify(i)(ev.gateway, ev.ref);
    && ev.gateway in adapters
    && verdict.Answered? && verdict.answer.status != Pending
    && Admits(w, ev, inputs.clock(i), inputs.broken(i))
  }

  lemma OutcomeMarksEvent(s: State, ev: Event, view: WorkerIntent, answer: Answer)
    requires ev.id in s.outbox && answer.status != Pending
    ensures WorkOutcome(s, ev, view, answer).outbox == s.outbox[ev.id := s.outbox[ev.id].(status := answer.status)]
  {
    hide SettledAmount;
  }

  lemma WorkMarksEvent(s: State, adapters: set<Gateway>, verify: Verify, ev: Event, now: int)
    requires ev.id in s.outbox && ev.gateway in adapters
    requires verify(ev.gateway, ev.ref).Answered? && verify(ev.gateway, ev.ref).answer.status != Pending
    ensures var s' := ProcessOneSpec(s, adapters, verify, ev, now);
            s'.outbox.Keys == s.outbox.Keys && PendingIds(s') == PendingIds(s) - {ev.id}
  {
    hide WorkOutcome;
    var view := ViewIntent(s, ev.ref);
    if view.Some? {
      var answer := if view.value.status != Pending then ZeroAmount(view.value.status, now)
                    else verify(ev.gateway, ev.ref).answer;
      OutcomeMarksEvent(s, ev, view.value, answer);
    }
  }

  /** Locks only ever disappear during a drain, so what was free stays free. */
  ghost predicate FewerLocks(w: World, w': World) {
    && w.locks.Some? == w'.locks.Some?
    && (w.locks.Some? ==> forall k <- w'.locks.value :: k in w.locks.value && w'.locks.value[k] == w.locks.value[k])
  }

  lemma {:induction false} DrainMarksAll(w: World, adapters: set<Gateway>, events: seq<Event>, inputs: Inputs)
    requires IdsOf(events) <= w.s.outbox.Keys && Unobstructed(w, adapters, events, inputs)
    ensures var w' := DrainSpec(w, adapters, events, inputs);
            && w'.s.outbox.Keys == w.s.outbox.Keys
            && PendingIds(w'.s) == PendingIds(w.s) - IdsOf(events)
            && FewerLocks(w, w')
  {
    if events != [] {
      var n := |events| - 1;
      var ev, rest := events[n], events[..n];
      assert forall i :: 0 <= i < n ==> rest[i] == events[i];
      assert IdsOf(events) == IdsOf(rest) + {ev.id};
      DrainMarksAll(w, adapters, rest, inputs);
      assert EventUnobstructed(w, adapters, ev, inputs, n);
      WorkMarksEvent(DrainSpec(w, adapters, rest, inputs).s, adapters, inputs.verify(n), ev, inputs.clock(n));
    }
  }

  /** Each unobstructed drain cuts the backlog by a full batch, or to nothing. */
  lemma DrainProgress(w: World, adapters: set<Gateway>, claimed: seq<Event>, inputs: Inputs)
    requires IsClaim(w.s, BATCH, claimed) && Unobstructed(w, adapters, claimed, inputs)
    ensures var n := |PendingIds(w.s)|;
            |PendingIds(DrainSpec(w, adapters, claimed, inputs).s)| == n - Min(BATCH, n)
  {
    DistinctCount(claimed);
    assert PendingIds(w.s) <= w.s.outbox.Keys;
    DrainMarksAll(w, adapters, claimed, inputs);
  }

  /** `w'` is `w` after one whole unobstructed DrainOutbox. */
  ghost predicate Drained(w: World, w': World) {
    exists adapters, claimed, inputs ::
      && IsClaim(w.s, BATCH, claimed) && Unobstructed(w, adapters, claimed, inputs)
      && w' == DrainSpec(w, adapters, claimed, inputs)
  }

  lemma {:induction false} BacklogAfter(worlds: seq<World>)
    requires worlds != [] && forall i :: 0 <= i < |worlds| - 1 ==> Drained(worlds[i], worlds[i + 1])
    ensures var n, k := |PendingIds(worlds[0].s)|, |worlds| - 1;
            |PendingIds(worlds[k].s)| == if BATCH * k >= n then 0 else n - BATCH * k
  {
    var k := |worlds| - 1;
    if k > 0 {
      var before := worlds[..k];
      forall i | 0 <= i < |before| - 1 ensures Drained(before[i], before[i + 1]) {
        assert Drained(worlds[i], worlds[i + 1]);
      }
      BacklogAfter(before);
      assert Drained(worlds[k - 1], worlds[k - 1 + 1]);
      var adapters, claimed, inputs :| IsClaim(worlds[k - 1].s, BATCH, claimed)
        && Unobstructed(worlds[k - 1], adapters, claimed, inputs)
        && worlds[k] == DrainSpec(worlds[k - 1], adapters, claimed, inputs);
      DrainProgress(worlds[k - 1], adapters, claimed, inputs);
    }
  }

  /** The backlog is gone after exactly as many drains as it has batches, counting a part as one. */
  lemma BacklogEmptyIff(worlds: seq<World>)
    requires worlds != [] && forall i :: 0 <= i < |worlds| - 1 ==> Drained(worlds[i], worlds[i + 1])
    ensures var n, k := |PendingIds(worlds[0].s)|, |worlds| - 1;
            PendingIds(worlds[k].s) == {} <==> k >= (n + BATCH - 1) / BATCH
  {
    BacklogAfter(worlds);
  }

  // ---------------------------------------------------------------- sequential calls are protocol runs

  /** `c` reaches `c'` by steps of the protocol. */
  ghost predicate Reaches(truth: Truth, c: Config, c': Config) {
    exists steps: seq<Step> :: Legal(truth, c, steps) && Execute(truth, c, steps) == c'
  }

  lemma ReachSelf(truth: Truth, c: Config)
    ensures Reaches(truth, c, c)
  {
    assert Legal(truth, c, []) && Execute(truth, c, []) == c;
  }

  lemma ReachStep(truth: Truth, from: Config, mid: Config, step: Step, c: Config)
    requires Reaches(truth, from, mid) && Enabled(truth, mid, step) && Do(truth, mid, step) == c
    ensures Reaches(truth, from, c)
  {
    var steps: seq<Step> :| Legal(truth, from, steps) && Execute(truth, from, steps) == mid;
    Play(truth, from, steps, mid, step);
  }

  /** Gateways asked during the run never contradict their terminal answer. */
  ghost predicate Honest(truth: Truth, verify: Verify) {
    forall g: Gateway, ref: string :: Truthful(truth, g, ref, verify(g, ref))
  }

  lemma DropRun(runs: map<nat, Run>, r: nat, run: Run)
    requires r !in runs
    ensures runs[r := run] - {r} == runs
  {
  }

  /** One call of Process, undisturbed, is a run of the protocol with the same effect. */
  lemma ProcessIsProtocolRun(truth: Truth, from: Config, c: Config, r: nat, d: Delivery, adapters: set<Gateway>,
                             verify: Verify)
    requires Reaches(truth, from, c) && r !in c.runs && Honest(truth, verify)
    ensures Reaches(truth, from, c.(s := ProcessSpec(c.s, adapters, verify, d).0))
  {
    hide Reaches, HookOutcome;
    var s := c.s;
    if d.eventId in s.inbox {
      return;
    }
    var s1 := s.(inbox := s.inbox + {d.eventId});
    assert s1.(inbox := s1.inbox - {d.eventId}) == s;
    var c1 := Config(s1, c.runs[r := Recorded(d.eventId, d.ref)]);
    var undo := Config(s1, c.runs[r := HookRollback(d.eventId)]);
    DropRun(c.runs, r, Recorded(d.eventId, d.ref));
    DropRun(c.runs, r, HookRollback(d.eventId));
    ReachStep(truth, from, c, Deliver(r, d.eventId, d.ref), c1);
    if d.ref !in s.intents {
      ReachStep(truth, from, c1, HookFind(r), undo);
      ReachStep(truth, from, undo, HookUndo(r), c);
      return;
    }
    var intent := s.intents[d.ref];
    if intent.status != Pending {
      ReachStep(truth, from, c1, HookFind(r), c.(s := s1));
      return;
    }
    var c2 := Config(s1, c.runs[r := HookRead(d.eventId, d.ref, intent)]);
    DropRun(c.runs, r, HookRead(d.eventId, d.ref, intent));
    ReachStep(truth, from, c1, HookFind(r), c2);
    var verdict := verify(intent.gateway, d.ref);
    if intent.gateway !in adapters {
      ReachStep(truth, from, c2, HookNoAdapter(r), undo);
      ReachStep(truth, from, undo, HookUndo(r), c);
    } else if verdict.Unavailable? {
      ReachStep(truth, from, c2, HookVerify(r, verdict), undo);
      ReachStep(truth, from, undo, HookUndo(r), c);
    } else {
      var c3 := Config(s1, c.runs[r := HookVerified(d.eventId, d.ref, intent, verdict.answer)]);
      DropRun(c.runs, r, HookVerified(d.eventId, d.ref, intent, verdict.answer));
      ReachStep(truth, from, c2, HookVerify(r, verdict), c3);
      ReachStep(truth, from, c3, HookSettle(r), c.(s := HookOutcome(s1, d.ref, intent, verdict.answer)));
    }
  }

  /**
   So is one call of processOne on an event claimed any time before, whatever others have
   done to it since.
   */
  lemma WorkIsProtocolRun(truth: Truth, from: Config, c: Config, r: nat, adapters: set<Gateway>, verify: Verify,
                          now: int)
    requires Reaches(truth, from, c) && r in c.runs && c.runs[r].Claimed? && Honest(truth, verify)
    ensures Reaches(truth, from, Config(ProcessOneSpec(c.s, adapters, verify, c.runs[r].ev, now), c.runs - {r}))
  {
    hide Reaches, WorkOutcome, FailedState;
    var s, ev, rest := c.s, c.runs[r].ev, c.runs - {r};
    if ev.gateway !in adapters {
      ReachStep(truth, from, c, Abandon(r), Config(s, rest));
      return;
    }
    var view := ViewIntent(s, ev.ref);
    if view.None? {
      var missing := Moved(c, r, WorkMissing(ev));
      assert missing.runs - {r} == rest;
      ReachStep(truth, from, c, WorkFind(r), missing);
      ReachStep(truth, from, missing, WorkFailMissing(r), Config(FailedState(s, ev.id, ev.ref), rest));
      return;
    }
    var read := Moved(c, r, WorkRead(ev, view.value));
    assert read.runs - {r} == rest;
    ReachStep(truth, from, c, WorkFind(r), read);
    var status, verdict := view.value.status, verify(ev.gateway, ev.ref);
    if status != Pending {
      var done := WorkOutcome(s, ev, view.value, ZeroAmount(status, now));
      ReachStep(truth, from, read, WorkMatch(r, now), Config(done, rest));
    } else if verdict.Unavailable? {
      ReachStep(truth, from, read, WorkVerify(r, verdict), Config(s, rest));
    } else {
      var verified := Moved(read, r, WorkVerified(ev, view.value, verdict.answer));
      assert verified.runs - {r} == rest;
      ReachStep(truth, from, read, WorkVerify(r, verdict), verified);
      ReachStep(truth, from, verified, WorkSettle(r), Config(WorkOutcome(s, ev, view.value, verdict.answer), rest));
    }
  }

  /** Claiming and working at once, as on a claim list that is still fresh. */
  lemma ClaimedNowIsProtocolRun(truth: Truth, from: Config, c: Config, r: nat, ev: Event, adapters: set<Gateway>,
                                verify: Verify, now: int)
    requires Reaches(truth, from, c) && r !in c.runs && Honest(truth, verify)
    requires ev.id in PendingIds(c.s) && c.s.outbox[ev.id] == ev
    ensures Reaches(truth, from, c.(s := ProcessOneSpec(c.s, adapters, verify, ev, now)))
  {
    hide Reaches, ProcessOneSpec;
    DropRun(c.runs, r, Claimed(ev));
    var claimed := Moved(c, r, Claimed(ev));
    ReachStep(truth, from, c, Claim(r, ev.id), claimed);
    WorkIsProtocolRun(truth, from, claimed, r, adapters, verify, now);
  }

  lemma ChargeIsProtocolRun(truth: Truth, from: Config, c: Config, r: nat, op: Op)
    requires Reaches(truth, from, c) && r !in c.runs
    requires op.Charge? && op.ref !in c.s.intents && op.id !in c.s.outbox
    ensures Reaches(truth, from, c.(s := ChargeSpec(c.s, op.ref, op.product, op.key, op.gw, op.url, op.id, op.now)))
  {
    hide Reaches;
    var s1 := WithIntent(c.s, op.ref, op.product, op.key, op.gw, op.url);
    DropRun(c.runs, r, Charged(op.ref, op.gw));
    var c1 := Config(s1, c.runs[r := Charged(op.ref, op.gw)]);
    ReachStep(truth, from, c, Create(r, op.ref, op.product, op.key, op.gw, op.url), c1);
    ReachStep(truth, from, c1, Enqueue(r, op.id, op.now),
              c.(s := ChargeSpec(c.s, op.ref, op.product, op.key, op.gw, op.url, op.id, op.now)));
  }

  /** Everything proved of the protocol therefore holds of every sequence of whole calls. */
  lemma {:induction false} SequentialRunsAreProtocolRuns(truth: Truth, ops: seq<Op>)
    requires OpsLegal(ops)
    requires forall op <- ops :: (op.Hook? || op.WorkNext?) ==> Honest(truth, op.verify)
    ensures Reaches(truth, START, Config(PerformAll(ops).s, map[]))
  {
    if ops == [] {
      ReachSelf(truth, START);
    } else {
      var before, op := ops[..|ops| - 1], ops[|ops| - 1];
      SequentialRunsAreProtocolRuns(truth, before);
      OpsKeepInv(before);
      assert op in ops;
      var b := PerformAll(before);
      var c := Config(b.s, map[]);
      match op {
        case Charge(_, _, _, _, _, _, _) => ChargeIsProtocolRun(truth, START, c, 0, op);
        case Hook(d, adapters, verify) => ProcessIsProtocolRun(truth, START, c, 0, d, adapters, verify);
        case ClaimBatch(_) =>
        case WorkNext(adapters, verify, now, entered) =>
          if entered {
            ClaimedNowIsProtocolRun(truth, START, c, 0, b.queue[0], adapters, verify, now);
          }
      }
    }
  }
}
