/**
 The store shared by charges, webhooks and the outbox worker
 (internal/storage/postgres/store.go). Each method of the class runs under one mutex (in
 the SQL store: in one transaction) and is specified by a function on `State`.
 */
module Store {
  import opened Prelude
  import opened Gateways
  import opened Money

  /** As an answer of a gateway, `Pending` stands for every status that is not terminal. */
  datatype Status = Pending | Succeeded | Failed

  datatype Kind = Collection | VendorPayout

  datatype Entry = Entry(kind: Kind, amount: Money, product: string, valueTime: int)

  datatype Intent = Intent(gateway: Gateway, status: Status, product: string, authorizationURL: string)

  /** A gateway_events row; identifiers are UUID strings. */
  datatype Event = Event(id: string, ref: string, gateway: Gateway, status: Status, createdAt: int)

  datatype Answer = Answer(status: Status, amount: Money, at: int)

  /** The view of an intent the worker gets, amount included. */
  datatype WorkerIntent = WorkerIntent(gateway: Gateway, status: Status, product: string, amount: Money)

  datatype Error = NotFound

  datatype State = State(
    intents: map<string, Intent>,
    idemKeys: map<string, string>,
    ledgers: map<string, seq<Entry>>,
    inbox: set<string>,
    outbox: map<string, Event>)

  const EMPTY: State := State(map[], map[], map[], {}, map[])

  const DEFAULT_AMOUNT: Money := Money(1800, GHS)

  function Entries(s: State, ref: string): seq<Entry> {
    if ref in s.ledgers then s.ledgers[ref] else []
  }

  function WithEntries(s: State, ref: string, entries: seq<Entry>): State {
    s.(ledgers := s.ledgers[ref := Entries(s, ref) + entries])
  }

  function WithStatus(s: State, ref: string, status: Status): State {
    if ref in s.intents then s.(intents := s.intents[ref := s.intents[ref].(status := status)]) else s
  }

  function WithEvent(s: State, id: string, status: Status): State {
    if id in s.outbox then s.(outbox := s.outbox[id := s.outbox[id].(status := status)]) else s
  }

  function WithIntent(s: State, ref: string, product: string, key: string, gw: Gateway, url: string): State {
    s.(intents := s.intents[ref := Intent(gw, Pending, product, url)],
       idemKeys := if key == "" then s.idemKeys else s.idemKeys[product + ":" + key := ref])
  }

  /** A missing intent is synthesized before the event is stored. */
  function WithOutboxEvent(s: State, id: string, ref: string, gw: Gateway, now: int): State {
    s.(intents := if ref in s.intents then s.intents else s.intents[ref := Intent(gw, Pending, "test", "")],
       outbox := s.outbox[id := Event(id, ref, gw, Pending, now)])
  }

  /** The first entry's amount, or a default when there is none or it is zero. */
  function IntentAmount(s: State, ref: string): Money {
    var hint := if Entries(s, ref) == [] then Money(0, GHS) else Entries(s, ref)[0].amount;
    if hint.IsZero() then DEFAULT_AMOUNT else hint
  }

  function ViewIntent(s: State, ref: string): Option<WorkerIntent> {
    if ref !in s.intents then None
    else
      var i := s.intents[ref];
      Some(WorkerIntent(i.gateway, i.status, i.product, IntentAmount(s, ref)))
  }

  function SettledAmount(answer: Answer, intent: WorkerIntent): Money {
    if !answer.amount.IsZero() then answer.amount
    else if !intent.amount.IsZero() then intent.amount
    else DEFAULT_AMOUNT
  }

  function SucceededState(s: State, id: string, ref: string, answer: Answer, intent: WorkerIntent): State {
    if id !in s.outbox then s
    else
      WithEntries(WithStatus(WithEvent(s, id, Succeeded), ref, Succeeded), ref,
                  [Entry(Collection, SettledAmount(answer, intent), intent.product, answer.at)])
  }

  function FailedState(s: State, id: string, ref: string): State {
    WithStatus(WithEvent(s, id, Failed), ref, Failed)
  }

  function PendingIds(s: State): set<string> {
    set id <- s.outbox | s.outbox[id].status == Pending
  }

  /** The pending ones among some of the events. */
  ghost function PendingAmong(outbox: map<string, Event>, ids: set<string>): set<string>
    requires ids <= outbox.Keys
  {
    set id <- ids | outbox[id].status == Pending
  }

  ghost predicate WellKeyed(s: State) {
    forall id <- s.outbox :: s.outbox[id].id == id
  }

  /** `xs` lists the events named by `ids`, each once. */
  ghost predicate Lists(xs: seq<Event>, outbox: map<string, Event>, ids: set<string>) {
    && |xs| == |ids|
    && (forall k :: 0 <= k < |xs| ==> xs[k].id in ids && xs[k].id in outbox && outbox[xs[k].id] == xs[k])
    && (forall j, k :: 0 <= j < k < |xs| ==> xs[j].id != xs[k].id)
  }

  ghost predicate OldestFirst(xs: seq<Event>) {
    forall j, k :: 0 <= j < k < |xs| ==> xs[j].createdAt <= xs[k].createdAt
  }

  function IdsOf(xs: seq<Event>): set<string> {
    set k | 0 <= k < |xs| :: xs[k].id
  }

  /** `xs` are the `limit` oldest pending events, oldest first, none twice. */
  ghost predicate IsClaim(s: State, limit: nat, xs: seq<Event>) {
    && |xs| == Min(limit, |PendingIds(s)|)
    && Lists(xs, s.outbox, IdsOf(xs)) && IdsOf(xs) <= PendingIds(s)
    && OldestFirst(xs)
    && forall id, k :: id in PendingIds(s) - IdsOf(xs) && 0 <= k < |xs| ==> xs[k].createdAt <= s.outbox[id].createdAt
  }

  class MemoryStore {
    var intents: map<string, Intent>
    var idemKeys: map<string, string>
    var ledgers: map<string, seq<Entry>>
    var inbox: set<string>
    var outbox: map<string, Event>

    function St(): State
      reads this
    {
      State(intents, idemKeys, ledgers, inbox, outbox)
    }

    constructor ()
      ensures St() == EMPTY
    {
      intents, idemKeys, ledgers, inbox, outbox := map[], map[], map[], {}, map[];
    }

    method InsertWebhookInbox(eventId: string) returns (inserted: bool)
      modifies this
      ensures inserted == (eventId !in old(inbox))
      ensures St() == old(St()).(inbox := old(inbox) + {eventId})
    {
      if eventId in inbox {
        assert inbox == inbox + {eventId};
        return false;
      }
      inbox := inbox + {eventId};
      return true;
    }

    method DeleteWebhookInbox(eventId: string)
      modifies this
      ensures St() == old(St()).(inbox := old(inbox) - {eventId})
    {
      inbox := inbox - {eventId};
    }

    method FindIntent(ref: string) returns (r: Result<Intent, Error>)
      ensures r == if ref in intents then Ok(intents[ref]) else Err(NotFound)
    {
      if ref !in intents {
        return Err(NotFound);
      }
      return Ok(intents[ref]);
    }

    method ApplyChargeOutcome(ref: string, status: Status, entries: seq<Entry>) returns (r: Result<(), Error>)
      modifies this
      ensures ref !in old(intents) ==> r == Err(NotFound) && St() == old(St())
      ensures ref in old(intents) ==>
                r == Ok(()) && St() == WithEntries(WithStatus(old(St()), ref, status), ref, entries)
    {
      if ref !in intents {
        return Err(NotFound);
      }
      var row := intents[ref];
      row := row.(status := status);
      intents := intents[ref := row];
      ledgers := ledgers[ref := (if ref in ledgers then ledgers[ref] else []) + entries];
      return Ok(());
    }

    method CreateIntent(ref: string, product: string, key: string, gw: Gateway, url: string)
      modifies this
      ensures St() == WithIntent(old(St()), ref, product, key, gw, url)
    {
      intents := intents[ref := Intent(gw, Pending, product, url)];
      if key != "" {
        idemKeys := idemKeys[product + ":" + key := ref];
      }
    }

    method FindByIdempotencyKey(product: string, key: string) returns (r: Option<string>)
      ensures r == if product + ":" + key in idemKeys then Some(idemKeys[product + ":" + key]) else None
    {
      var k := product + ":" + key;
      if k in idemKeys {
        return Some(idemKeys[k]);
      }
      return None;
    }

    method AppendEntry(ref: string, e: Entry)
      modifies this
      ensures St() == WithEntries(old(St()), ref, [e])
    {
      ledgers := ledgers[ref := (if ref in ledgers then ledgers[ref] else []) + [e]];
    }

    method GetIntent(ref: string) returns (r: Option<WorkerIntent>)
      ensures r == ViewIntent(St(), ref)
      ensures r.Some? <==> ref in intents
      ensures r.Some? ==>
                && r.value.gateway == intents[ref].gateway && r.value.status == intents[ref].status
                && r.value.product == intents[ref].product && r.value.amount == ShownAmount(Entries(St(), ref))
    {
      if ref !in intents {
        return None;
      }
      var row := intents[ref];
      var amt := Money(0, GHS);
      if ref in ledgers && |ledgers[ref]| > 0 {
        amt := ledgers[ref][0].amount;
      }
      if amt.IsZero() {
        amt := Money(1800, GHS);
      }
      return Some(WorkerIntent(row.gateway, row.status, row.product, amt));
    }

    method CompleteSucceeded(id: string, ref: string, answer: Answer, intent: WorkerIntent)
      returns (r: Result<(), Error>)
      modifies this
      ensures r == if id in old(outbox) then Ok(()) else Err(NotFound)
      ensures St() == SucceededState(old(St()), id, ref, answer, intent)
      ensures r.Ok? ==>
                Entries(St(), ref) == old(Entries(St(), ref))
                                      + [Entry(Collection, BookedAmount(answer, intent), intent.product, answer.at)]
    {
      if id !in outbox {
        return Err(NotFound);
      }
      outbox := outbox[id := outbox[id].(status := Succeeded)];
      if ref in intents {
        intents := intents[ref := intents[ref].(status := Succeeded)];
      }
      var amt := answer.amount;
      if amt.IsZero() {
        amt := intent.amount;
      }
      if amt.IsZero() {
        amt := Money(1800, GHS);
      }
      var entry := Entry(Collection, amt, intent.product, answer.at);
      ledgers := ledgers[ref := (if ref in ledgers then ledgers[ref] else []) + [entry]];
      return Ok(());
    }

    method CompleteFailed(id: string, ref: string)
      modifies this
      ensures St() == FailedState(old(St()), id, ref)
    {
      if id in outbox {
        outbox := outbox[id := outbox[id].(status := Failed)];
      }
      if ref in intents {
        intents := intents[ref := intents[ref].(status := Failed)];
      }
    }

    method InsertOutboxEvent(id: string, ref: string, gw: Gateway, now: int)
      modifies this
      ensures St() == WithOutboxEvent(old(St()), id, ref, gw, now)
    {
      if ref !in intents {
        intents := intents[ref := Intent(gw, Pending, "test", "")];
      }
      outbox := outbox[id := Event(id, ref, gw, Pending, now)];
    }

    method CountPending() returns (n: nat)
      ensures n == |PendingIds(St())|
    {
      n := 0;
      var rest := outbox.Keys;
      ghost var seen: set<string> := {};
      while rest != {}
        invariant seen + rest == outbox.Keys && seen !! rest
        invariant n == |PendingAmong(outbox, seen)|
        decreases rest
      {
        var id :| id in rest;
        PendingAmongNext(outbox, seen, id);
        if outbox[id].status == Pending {
          n := n + 1;
        }
        seen, rest := seen + {id}, rest - {id};
      }
      assert PendingIds(St()) == PendingAmong(outbox, seen);
    }

    /** Collected in the arbitrary order of a map, sorted in place, cut to `limit`. */
    method ClaimPending(limit: nat) returns (claimed: seq<Event>)
      requires WellKeyed(St())
      ensures IsClaim(St(), limit, claimed)
    {
      var collected := CollectPending();
      var pending := new Event[|collected|](i requires 0 <= i < |collected| => collected[i]);
      assert pending[..] == collected;
      SortByCreatedAt(pending, outbox, PendingIds(St()));
      ClaimOfSorted(St(), limit, pending[..]);
      if pending.Length > limit {
        return pending[..limit];
      }
      return pending[..];
    }

    method CollectPending() returns (pending: seq<Event>)
      requires WellKeyed(St())
      ensures Lists(pending, outbox, PendingIds(St()))
    {
      pending := [];
      var rest := outbox.Keys;
      ghost var seen: set<string> := {};
      assert PendingAmong(outbox, {}) == {};
      assert Lists(pending, outbox, PendingAmong(outbox, {}));
      hide Lists;
      while rest != {}
        invariant seen + rest == outbox.Keys && seen !! rest
        invariant Lists(pending, outbox, PendingAmong(outbox, seen))
        decreases rest
      {
        var id :| id in rest;
        PendingAmongNext(outbox, seen, id);
        if outbox[id].status == Pending {
          ListsNext(pending, outbox, PendingAmong(outbox, seen), id);
          pending := pending + [outbox[id]];
        }
        seen, rest := seen + {id}, rest - {id};
      }
      assert PendingIds(St()) == PendingAmong(outbox, seen);
    }
  }

  // ---------------------------------------------------------------- what the writes are, field by field

  /** What a completed event books: the verified amount, else that of the charge, else 18 cedis; never zero. */
  ghost function BookedAmount(answer: Answer, view: WorkerIntent): (m: Money)
    ensures answer.amount.minorUnits != 0 ==> m == answer.amount
    ensures answer.amount.minorUnits == 0 && view.amount.minorUnits != 0 ==> m == view.amount
    ensures answer.amount.minorUnits == 0 && view.amount.minorUnits == 0 ==> m == Money(1800, "GHS")
  {
    if answer.amount.minorUnits != 0 then answer.amount
    else if view.amount.minorUnits != 0 then view.amount
    else Money(1800, "GHS")
  }

  /** What a worker is shown as the amount of a charge with these ledger entries; never zero. */
  ghost function ShownAmount(entries: seq<Entry>): (m: Money)
    ensures entries != [] && entries[0].amount.minorUnits != 0 ==> m == entries[0].amount
    ensures entries == [] || entries[0].amount.minorUnits == 0 ==> m == Money(1800, "GHS")
  {
    if entries != [] && entries[0].amount.minorUnits != 0 then entries[0].amount else Money(1800, "GHS")
  }

  lemma ViewIs(s: State, ref: string)
    ensures ViewIntent(s, ref).Some? <==> ref in s.intents
    ensures ref in s.intents ==>
              var i := s.intents[ref];
              ViewIntent(s, ref).value == WorkerIntent(i.gateway, i.status, i.product, ShownAmount(Entries(s, ref)))
  {
  }

  /** `s'` is `s` with this status for event `id` and charge `ref`, as far as they exist, and these entries booked. */
  ghost predicate Writes(s: State, s': State, id: string, ref: string, status: Status, booked: seq<Entry>) {
    && s'.inbox == s.inbox && s'.idemKeys == s.idemKeys
    && s'.outbox.Keys == s.outbox.Keys && s'.intents.Keys == s.intents.Keys
    && (forall e <- s.outbox ::
          s'.outbox[e] == if e == id then s.outbox[e].(status := status) else s.outbox[e])
    && (forall r <- s.intents ::
          s'.intents[r] == if r == ref then s.intents[r].(status := status) else s.intents[r])
    && forall r: string :: Entries(s', r) == Entries(s, r) + if r == ref then booked else []
  }

  /** Completing an event books one collection: what the gateway verified, else what the charge shows, never zero. */
  lemma CompletionBooks(s: State, id: string, ref: string, answer: Answer, view: WorkerIntent)
    requires id in s.outbox
    ensures var amount := BookedAmount(answer, view);
            Writes(s, SucceededState(s, id, ref, answer, view), id, ref, Succeeded,
                   [Entry(Collection, amount, view.product, answer.at)])
  {
  }

  lemma FailureBooksNothing(s: State, id: string, ref: string)
    ensures Writes(s, FailedState(s, id, ref), id, ref, Failed, [])
  {
  }

  /** Storing a charge: the pending intent, its key, its pending event with the time it was queued, and nothing else. */
  lemma StoredChargeIs(s: State, ref: string, product: string, key: string, gw: Gateway, url: string, id: string,
                       now: int)
    ensures var s' := WithOutboxEvent(WithIntent(s, ref, product, key, gw, url), id, ref, gw, now);
            && s'.intents == s.intents[ref := Intent(gw, Pending, product, url)]
            && s'.outbox == s.outbox[id := Event(id, ref, gw, Pending, now)]
            && s'.idemKeys == (if key == "" then s.idemKeys else s.idemKeys[product + ":" + key := ref])
            && s'.ledgers == s.ledgers && s'.inbox == s.inbox
  {
  }

  lemma SwapLists(xs: seq<Event>, outbox: map<string, Event>, ids: set<string>, i: nat, j: nat)
    requires Lists(xs, outbox, ids) && i < |xs| && j < |xs|
    ensures Lists(xs[i := xs[j]][j := xs[i]], outbox, ids)
  {
  }

  /** The exchange sort of ClaimPending. */
  method SortByCreatedAt(a: array<Event>, ghost outbox: map<string, Event>, ghost ids: set<string>)
    requires Lists(a[..], outbox, ids)
    modifies a
    ensures Lists(a[..], outbox, ids) && OldestFirst(a[..])
    ensures OldestFirst(old(a[..])) ==> a[..] == old(a[..])
  {
    hide Lists;
    for i := 0 to a.Length
      invariant Lists(a[..], outbox, ids)
      invariant OldestFirst(old(a[..])) ==> a[..] == old(a[..])
      invariant forall p, q :: 0 <= p < i && p < q < a.Length ==> a[p].createdAt <= a[q].createdAt
    {
      for j := i + 1 to a.Length
        invariant Lists(a[..], outbox, ids)
        invariant OldestFirst(old(a[..])) ==> a[..] == old(a[..])
        invariant forall p, q :: 0 <= p < i && p < q < a.Length ==> a[p].createdAt <= a[q].createdAt
        invariant forall q :: i < q < j ==> a[i].createdAt <= a[q].createdAt
      {
        if a[j].createdAt < a[i].createdAt {
          ghost var before := a[..];
          SwapLists(before, outbox, ids, i, j);
          a[i], a[j] := a[j], a[i];
          assert a[..] == before[i := before[j]][j := before[i]];
        }
      }
    }
  }

  // ---------------------------------------------------------------- claims

  lemma PendingAmongNext(outbox: map<string, Event>, seen: set<string>, id: string)
    requires seen <= outbox.Keys && id in outbox && id !in seen
    ensures PendingAmong(outbox, seen + {id})
         == PendingAmong(outbox, seen) + if outbox[id].status == Pending then {id} else {}
    ensures |PendingAmong(outbox, seen + {id})|
         == |PendingAmong(outbox, seen)| + if outbox[id].status == Pending then 1 else 0
  {
    var before, next := PendingAmong(outbox, seen), PendingAmong(outbox, seen + {id});
    if outbox[id].status == Pending {
      assert next == before + {id};
    } else {
      assert next == before == before + {};
    }
  }

  lemma ListsNext(xs: seq<Event>, outbox: map<string, Event>, ids: set<string>, id: string)
    requires Lists(xs, outbox, ids) && id !in ids && id in outbox && outbox[id].id == id
    ensures Lists(xs + [outbox[id]], outbox, ids + {id})
  {
  }

  lemma ListsCoversAll(xs: seq<Event>, outbox: map<string, Event>, ids: set<string>)
    requires Lists(xs, outbox, ids)
    ensures IdsOf(xs) == ids
  {
    DistinctCount(xs);
    assert IdsOf(xs) <= ids;
    SubsetSameSize(IdsOf(xs), ids);
  }

  lemma {:induction false} DistinctCount(xs: seq<Event>)
    requires forall j, k :: 0 <= j < k < |xs| ==> xs[j].id != xs[k].id
    ensures |IdsOf(xs)| == |xs|
  {
    if xs != [] {
      var n := |xs| - 1;
      DistinctCount(xs[..n]);
      assert IdsOf(xs) == IdsOf(xs[..n]) + {xs[n].id};
    }
  }

  lemma SubsetSameSize(a: set<string>, b: set<string>)
    requires a <= b && |a| == |b|
    ensures a == b
  {
    if x :| x in b && x !in a {
      assert |b - {x}| == |b| - 1;
      SubsetSize(a, b - {x});
    }
  }

  lemma {:induction false} SubsetSize(a: set<string>, b: set<string>)
    requires a <= b
    ensures |a| <= |b|
  {
    if x :| x in a {
      SubsetSize(a - {x}, b - {x});
    }
  }

  lemma Place(outbox: map<string, Event>, ids: set<string>, xs: seq<Event>, id: string) returns (j: nat)
    requires Lists(xs, outbox, ids) && id in ids
    ensures j < |xs| && id in outbox && xs[j] == outbox[id] && xs[j].id == id
  {
    ListsCoversAll(xs, outbox, ids);
    j :| 0 <= j < |xs| && xs[j].id == id;
  }

  lemma CutLists(xs: seq<Event>, outbox: map<string, Event>, ids: set<string>, n: nat)
    requires Lists(xs, outbox, ids) && n <= |xs|
    ensures Lists(xs[..n], outbox, IdsOf(xs[..n])) && IdsOf(xs[..n]) <= ids
  {
    DistinctCount(xs[..n]);
    assert forall k :: 0 <= k < n ==> xs[..n][k] == xs[k];
  }

  lemma ClaimOfSorted(s: State, limit: nat, xs: seq<Event>)
    requires Lists(xs, s.outbox, PendingIds(s)) && OldestFirst(xs)
    ensures IsClaim(s, limit, if |xs| > limit then xs[..limit] else xs)
  {
    var n := if |xs| > limit then limit else |xs|;
    var claimed := xs[..n];
    assert claimed == if |xs| > limit then xs[..limit] else xs;
    CutLists(xs, s.outbox, PendingIds(s), n);
    assert forall m :: 0 <= m < n ==> claimed[m] == xs[m] && xs[m].id in IdsOf(claimed);
    forall id, k | id in PendingIds(s) - IdsOf(claimed) && 0 <= k < n
      ensures claimed[k].createdAt <= s.outbox[id].createdAt
    {
      var m := Place(s.outbox, PendingIds(s), xs, id);
      assert m >= n;
    }
  }

  // ---------------------------------------------------------------- ties

  /** The events of `ids`, oldest first; where two are equally old, in some order. */
  lemma {:induction false} SortedListing(outbox: map<string, Event>, ids: set<string>) returns (xs: seq<Event>)
    requires ids <= outbox.Keys && forall id <- ids :: outbox[id].id == id
    ensures Lists(xs, outbox, ids) && OldestFirst(xs)
    decreases |ids|
  {
    if ids == {} {
      return [];
    }
    var first := Oldest(outbox, ids);
    var rest := SortedListing(outbox, ids - {first});
    xs := [outbox[first]] + rest;
  }

  lemma {:induction false} Oldest(outbox: map<string, Event>, ids: set<string>) returns (first: string)
    requires ids <= outbox.Keys && ids != {}
    ensures first in ids && forall id <- ids :: outbox[first].createdAt <= outbox[id].createdAt
    decreases |ids|
  {
    first :| first in ids;
    if ids != {first} {
      var other := Oldest(outbox, ids - {first});
      if outbox[other].createdAt < outbox[first].createdAt {
        first := other;
      }
    }
  }

  /**
   What ClaimPending may return: the claims are exactly the cuts of the listings sorted by
   age, and the sort returns every such listing that the map happens to yield as it is.
   */
  lemma ClaimIffSortedCut(s: State, limit: nat, xs: seq<Event>)
    requires WellKeyed(s)
    ensures IsClaim(s, limit, xs) <==>
              exists all :: Lists(all, s.outbox, PendingIds(s)) && OldestFirst(all)
                            && xs == if |all| > limit then all[..limit] else all
  {
    if IsClaim(s, limit, xs) {
      var rest := SortedListing(s.outbox, PendingIds(s) - IdsOf(xs));
      var all := xs + rest;
      ClaimThenRest(s, limit, xs, rest);
      assert xs == if |all| > limit then all[..limit] else all;
    }
    forall all | Lists(all, s.outbox, PendingIds(s)) && OldestFirst(all)
      ensures IsClaim(s, limit, if |all| > limit then all[..limit] else all)
    {
      ClaimOfSorted(s, limit, all);
    }
  }

  lemma ClaimThenRest(s: State, limit: nat, xs: seq<Event>, rest: seq<Event>)
    requires IsClaim(s, limit, xs)
    requires Lists(rest, s.outbox, PendingIds(s) - IdsOf(xs)) && OldestFirst(rest)
    ensures Lists(xs + rest, s.outbox, PendingIds(s)) && OldestFirst(xs + rest)
    ensures |xs| == limit || rest == []
  {
    DistinctCount(xs);
    assert |PendingIds(s) - IdsOf(xs)| == |PendingIds(s)| - |IdsOf(xs)|;
    forall k | 0 <= k < |xs| ensures xs[k].id in IdsOf(xs) {
    }
  }

  /** Pending events strictly older than a moment. */
  ghost function Older(s: State, at: int): set<string> {
    set id <- PendingIds(s) | s.outbox[id].createdAt < at
  }

  ghost predicate Tied(s: State, p: string, q: string) {
    p in PendingIds(s) && q in PendingIds(s) && p != q && s.outbox[p].createdAt == s.outbox[q].createdAt
  }

  ghost predicate Determined(s: State, limit: nat) {
    forall xs, ys :: IsClaim(s, limit, xs) && IsClaim(s, limit, ys) ==> xs == ys
  }

  /** Two claims that agree so far can only part at a tie, with every older event claimed. */
  lemma ClaimsPartAtTies(s: State, limit: nat, xs: seq<Event>, ys: seq<Event>, k: nat)
    requires IsClaim(s, limit, xs) && IsClaim(s, limit, ys)
    requires k < |xs| && xs[..k] == ys[..k] && xs[k] != ys[k]
    ensures Tied(s, xs[k].id, ys[k].id) && |Older(s, xs[k].createdAt)| < limit
  {
    hide IsClaim, PendingIds, Older, IdsOf;
    SameLength(s, limit, xs, ys);
    forall j | 0 <= j < k ensures xs[j] == ys[j] {
      assert xs[..k][j] == ys[..k][j];
    }
    NotYounger(s, limit, xs, ys, k);
    NotYounger(s, limit, ys, xs, k);
    OlderComeFirst(s, limit, xs, k);
  }

  lemma SameLength(s: State, limit: nat, xs: seq<Event>, ys: seq<Event>)
    requires IsClaim(s, limit, xs) && IsClaim(s, limit, ys)
    ensures |xs| == |ys| == Min(limit, |PendingIds(s)|)
  {
  }

  /** Where a pending event stands in a claim, or that all claimed ones are at least as old. */
  lemma WhereInClaim(s: State, limit: nat, xs: seq<Event>, id: string) returns (j: nat)
    requires IsClaim(s, limit, xs) && id in PendingIds(s)
    ensures j <= |xs| && (j < |xs| ==> xs[j] == s.outbox[id])
    ensures forall k :: 0 <= k < |xs| && k <= j ==> xs[k].createdAt <= s.outbox[id].createdAt
  {
    if id in IdsOf(xs) {
      j :| 0 <= j < |xs| && xs[j].id == id;
    } else {
      j := |xs|;
    }
  }

  lemma ClaimedEvent(s: State, limit: nat, xs: seq<Event>, k: nat)
    requires IsClaim(s, limit, xs) && k < |xs|
    ensures xs[k].id in PendingIds(s) && s.outbox[xs[k].id] == xs[k]
    ensures forall j :: 0 <= j < k ==> xs[j] != xs[k]
  {
    assert xs[k].id in IdsOf(xs);
  }

  lemma NotYounger(s: State, limit: nat, xs: seq<Event>, ys: seq<Event>, k: nat)
    requires IsClaim(s, limit, xs) && IsClaim(s, limit, ys)
    requires k < |xs| && forall j :: 0 <= j < k ==> xs[j] == ys[j]
    ensures ys[k].createdAt <= xs[k].createdAt
    ensures xs[k].id in PendingIds(s) && s.outbox[xs[k].id] == xs[k]
  {
    hide IsClaim, PendingIds;
    SameLength(s, limit, xs, ys);
    ClaimedEvent(s, limit, xs, k);
    var j := WhereInClaim(s, limit, ys, xs[k].id);
    assert j >= k;
  }

  lemma OlderComeFirst(s: State, limit: nat, xs: seq<Event>, k: nat)
    requires IsClaim(s, limit, xs) && k < |xs|
    ensures |Older(s, xs[k].createdAt)| <= k < limit
  {
    var older := Older(s, xs[k].createdAt);
    forall id <- older ensures id in IdsOf(xs[..k]) {
      assert id in IdsOf(xs);
      var j :| 0 <= j < |xs| && xs[j].id == id;
      assert xs[..k][j] == xs[j];
    }
    SubsetSize(older, IdsOf(xs[..k]));
    DistinctCount(xs[..k]);
  }

  /** Swapping two equally old events of a sorted listing gives another. */
  lemma SwapTied(outbox: map<string, Event>, ids: set<string>, xs: seq<Event>, i: nat, j: nat) returns (ys: seq<Event>)
    requires Lists(xs, outbox, ids) && OldestFirst(xs)
    requires i < |xs| && j < |xs| && i != j && xs[i].createdAt == xs[j].createdAt
    ensures Lists(ys, outbox, ids) && OldestFirst(ys) && |ys| == |xs| && ys[i] == xs[j] != xs[i]
  {
    ys := xs[i := xs[j]][j := xs[i]];
  }

  lemma TieGivesTwoClaims(s: State, limit: nat, p: string, q: string)
    requires WellKeyed(s) && Tied(s, p, q) && |Older(s, s.outbox[p].createdAt)| < limit
    ensures !Determined(s, limit)
  {
    hide IsClaim, Lists, OldestFirst, PendingIds, Older, IdsOf;
    var ids := PendingIds(s);
    PendingAreStored(s);
    var xs := SortedListing(s.outbox, ids);
    var i := FirstAt(s, xs, p);
    var e := if xs[i].id == p then q else p;
    var j := Place(s.outbox, ids, xs, e);
    var ys := SwapTied(s.outbox, ids, xs, i, j);
    ClaimOfSorted(s, limit, xs);
    ClaimOfSorted(s, limit, ys);
    var cx, cy := if |xs| > limit then xs[..limit] else xs, if |ys| > limit then ys[..limit] else ys;
    assert cx[i] == xs[i] && cy[i] == ys[i];
  }

  lemma PendingAreStored(s: State)
    requires WellKeyed(s)
    ensures PendingIds(s) <= s.outbox.Keys && forall id <- PendingIds(s) :: s.outbox[id].id == id
  {
  }

  /** The first event of a sorted listing as old as `p` comes right after the strictly older ones. */
  lemma FirstAt(s: State, xs: seq<Event>, p: string) returns (i: nat)
    requires Lists(xs, s.outbox, PendingIds(s)) && OldestFirst(xs) && p in PendingIds(s)
    ensures i < |xs| && xs[i].createdAt == s.outbox[p].createdAt && i <= |Older(s, s.outbox[p].createdAt)|
  {
    var at := s.outbox[p].createdAt;
    i := Place(s.outbox, PendingIds(s), xs, p);
    while i > 0 && xs[i - 1].createdAt == at
      invariant i < |xs| && xs[i].createdAt == at
    {
      i := i - 1;
    }
    assert forall j :: 0 <= j < i ==> xs[..i][j] == xs[j] && xs[j].createdAt < at;
    DistinctCount(xs[..i]);
    SubsetSize(IdsOf(xs[..i]), Older(s, at));
  }

  /**
   The claim is determined by the store exactly when no tie matters: of two equally old
   pending events, at least `limit` others are strictly older.
   */
  lemma ClaimDeterminedIff(s: State, limit: nat)
    requires WellKeyed(s)
    ensures Determined(s, limit) <==>
              forall p, q :: Tied(s, p, q) ==> |Older(s, s.outbox[p].createdAt)| >= limit
  {
    if p, q :| Tied(s, p, q) && |Older(s, s.outbox[p].createdAt)| < limit {
      TieGivesTwoClaims(s, limit, p, q);
    } else {
      forall xs, ys | IsClaim(s, limit, xs) && IsClaim(s, limit, ys) ensures xs == ys {
        if xs != ys {
          var k := FirstDifference(xs, ys);
          ClaimsPartAtTies(s, limit, xs, ys, k);
        }
      }
    }
  }

  lemma FirstDifference(xs: seq<Event>, ys: seq<Event>) returns (k: nat)
    requires |xs| == |ys| && xs != ys
    ensures k < |xs| && xs[..k] == ys[..k] && xs[k] != ys[k]
  {
    assert xs[..|xs|] == xs && ys[..|ys|] == ys;
    k := 0;
    while k < |xs| && xs[k] == ys[k]
      invariant k <= |xs| && xs[..k] == ys[..k]
    {
      k := k + 1;
    }
  }

  /** As long as the limit covers the backlog, any tie matters. */
  lemma WholeBacklogDeterminedIff(s: State, limit: nat)
    requires WellKeyed(s) && limit >= |PendingIds(s)|
    ensures Determined(s, limit) <==> forall p, q :: !Tied(s, p, q)
  {
    ClaimDeterminedIff(s, limit);
    forall p, q | Tied(s, p, q) ensures |Older(s, s.outbox[p].createdAt)| < limit {
      SubsetSize(Older(s, s.outbox[p].createdAt), PendingIds(s) - {p});
    }
  }

  /** Ids in ascending or descending order: both are claims of two events of one instant. */
  lemma TiedEventsComeInAnyOrder(a: string, b: string, ref: string, at: int)
    requires a != b
    ensures var e, f := Event(a, ref, HUBTEL, Pending, at), Event(b, ref, HUBTEL, Pending, at);
            var s := EMPTY.(outbox := map[a := e, b := f]);
            IsClaim(s, 2, [e, f]) && IsClaim(s, 2, [f, e])
  {
    var e, f := Event(a, ref, HUBTEL, Pending, at), Event(b, ref, HUBTEL, Pending, at);
    var s := EMPTY.(outbox := map[a := e, b := f]);
    assert PendingIds(s) == {a, b};
    assert Lists([e, f], s.outbox, {a, b}) && Lists([f, e], s.outbox, {a, b});
    ClaimOfSorted(s, 2, [e, f]);
    ClaimOfSorted(s, 2, [f, e]);
  }
}
