/** Dispatching a payout batch (internal/payouts/service.go). */
module Dispatch {
  import opened Prelude
  import opened Gateways
  import opened Money
  import opened Router
  import opened Lease
  import opened Payouts
  import opened Valkey
  import S = Store
  import R = Reservations

  const DISPATCH_TTL: int := 30 * SECOND

  /** How an adapter answers Payout. */
  datatype PayReply = Paid | Unset | Refused

  /** How one entry ended: paid, skipped without an error, or refused by everyone tried. */
  datatype Ending = Settled | Skipped | Failed

  /** What a run of Dispatch meets, entry by entry. */
  datatype Inputs = Inputs(clock: nat -> int, broken: nat -> bool, circuits: nat -> Circuits,
                           pay: (nat, Gateway) -> PayReply)

  /** One call of an adapter, for entry `index`. */
  datatype PayCall = PayCall(index: nat, gateway: Gateway, recipient: string, reference: string, amount: Money,
                             reply: PayReply)

  /** The world of a run; `locks` is absent without a connected locker. */
  datatype World = World(locks: Option<Locks>, mine: set<string>, calls: seq<PayCall>, ledger: S.State,
                         rows: seq<R.Row>)

  /** The router, and whether a ledger is wired. */
  datatype Wiring = Wiring(router: Setup, ledgered: bool)

  /** The lock of a payout; no outbox event's lock is ever the same. */
  function PayKey(reference: string): (key: string)
    ensures forall id: string :: key != "outbox:" + id
  {
    assert ("payout:" + reference)[0] == 'p' && forall id: string :: ("outbox:" + id)[0] == 'o';
    "payout:" + reference
  }

  /** The calls for one entry along a route, and how they end; `failed` says a call has already failed. */
  function PayAlong(route: seq<Gateway>, adapters: set<Gateway>, inputs: Inputs, i: nat, e: Entry,
                    failed: bool): (seq<PayCall>, Ending) {
    if route == [] then ([], if failed then Failed else Skipped)
    else
      var g := route[0];
      if g !in adapters then PayAlong(route[1..], adapters, inputs, i, e, failed)
      else
        var reply := inputs.pay(i, g);
        var call := PayCall(i, g, e.recipient, e.reference, e.amount, reply);
        match reply
        case Paid => ([call], Settled)
        case Unset => ([call], Skipped)
        case Refused =>
          var (rest, end) := PayAlong(route[1..], adapters, inputs, i, e, true);
          ([call] + rest, end)
  }

  function PayoutEntry(b: Batch, e: Entry): S.Entry {
    S.Entry(S.VendorPayout, e.amount, b.product, 0)
  }

  predicate Admitted(w: World, e: Entry, now: int, broken: bool) {
    w.locks.Some? ==> !broken && !Held(w.locks.value, PayKey(e.reference), now)
  }

  /** One entry of the batch. */
  function EntrySpec(w: World, setup: Wiring, b: Batch, i: nat, inputs: Inputs): World
    requires i < |b.entries|
  {
    var e := b.entries[i];
    if !Admitted(w, e, inputs.clock(i), inputs.broken(i)) then w
    else
      var (calls, end) := PayAlong(setup.router.Route(inputs.circuits(i)), setup.router.adapters, inputs, i, e, false);
      World(if w.locks.None? then None
            else Some(Acquire(w.locks.value, PayKey(e.reference), DISPATCH_TTL, inputs.clock(i))),
            if w.locks.None? then w.mine else w.mine + {PayKey(e.reference)},
            w.calls + calls,
            if end == Settled && setup.ledgered then S.WithEntries(w.ledger, e.reference, [PayoutEntry(b, e)])
            else w.ledger,
            if end == Failed && setup.ledgered then R.Update(w.rows, b.id, R.Released) else w.rows)
  }

  /** The first `n` entries. */
  function EntriesSpec(w: World, setup: Wiring, b: Batch, n: nat, inputs: Inputs): World
    requires n <= |b.entries|
  {
    if n == 0 then w else EntrySpec(EntriesSpec(w, setup, b, n - 1, inputs), setup, b, n - 1, inputs)
  }

  /** The whole batch; the locks taken are released only now. */
  function DispatchSpec(w: World, setup: Wiring, b: Batch, inputs: Inputs): World {
    var done := EntriesSpec(w.(mine := {}), setup, b, |b.entries|, inputs);
    done.(locks := if done.locks.None? then None else Some(done.locks.value - done.mine))
  }

  class PayoutService {
    const router: ChargerRouter
    const locker: Locker?
    const ledgered: bool
    const store: S.MemoryStore
    const table: R.Table
    var calls: seq<PayCall>

    constructor (router: ChargerRouter, locker: Locker?, ledgered: bool, store: S.MemoryStore, table: R.Table)
      ensures this.router == router && this.locker == locker && this.ledgered == ledgered
      ensures this.store == store && this.table == table && calls == []
    {
      this.router, this.locker, this.ledgered := router, locker, ledgered;
      this.store, this.table, calls := store, table, [];
    }

    function Config(): Wiring {
      Wiring(router.Config(), ledgered)
    }

    function Frame(): set<object> {
      {this, store, table} + (if locker == null then {} else {locker as object})
    }

    function Here(mine: set<string>): World
      reads Frame()
    {
      World(if locker == null || !locker.connected then None else Some(locker.locks),
            mine, calls, store.St(), table.rows)
    }

    method Dispatch(b: Batch, inputs: Inputs)
      modifies Frame()
      ensures exists mine :: Here(mine) == DispatchSpec(old(Here({})), Config(), b, inputs)
    {
      var mine: set<string> := {};
      ghost var start := Here({});
      for i := 0 to |b.entries|
        invariant locker == null || !locker.connected ==> mine == {}
        invariant Here(mine) == EntriesSpec(start, Config(), b, i, inputs)
      {
        mine := DispatchEntry(b, i, inputs, mine);
      }
      ghost var done := Here(mine);
      ReleaseAll(mine);
      assert Here(mine) == DispatchSpec(start, Config(), b, inputs);
    }

    /** The deferred releases. */
    method ReleaseAll(mine: set<string>)
      modifies Frame()
      ensures calls == old(calls) && store.St() == old(store.St()) && table.rows == old(table.rows)
      ensures locker != null ==>
                locker.locks == if locker.connected then old(locker.locks) - mine else old(locker.locks)
    {
      if locker != null {
        var rest := mine;
        while rest != {}
          invariant rest <= mine
          invariant calls == old(calls) && store.St() == old(store.St()) && table.rows == old(table.rows)
          invariant locker.locks == if locker.connected then old(locker.locks) - (mine - rest) else old(locker.locks)
          decreases rest
        {
          var k :| k in rest;
          locker.Release(k);
          rest := rest - {k};
        }
        assert mine - {} == mine;
      }
    }

    /** One turn of the loop: lock, pay along the route, book or release. */
    method DispatchEntry(b: Batch, i: nat, inputs: Inputs, mine: set<string>) returns (mine': set<string>)
      requires i < |b.entries| && (locker == null || !locker.connected ==> mine == {})
      modifies Frame()
      ensures locker == null || !locker.connected ==> mine' == {}
      ensures Here(mine') == EntrySpec(old(Here(mine)), Config(), b, i, inputs)
    {
      mine' := mine;
      var e := b.entries[i];
      if locker != null {
        var acquired := locker.TryAcquire(PayKey(e.reference), DISPATCH_TTL, inputs.clock(i), inputs.broken(i));
        if acquired.Err? || !acquired.value {
          return;
        }
        if locker.connected {
          mine' := mine' + {PayKey(e.reference)};
        }
      }
      var failed := PayEntry(b, i, inputs);
      if failed && ledgered {
        var ignored := table.ReleaseReservation(b.id);
      }
    }

    /** The inner loop over the route; true if it ends in an error. */
    method PayEntry(b: Batch, i: nat, inputs: Inputs) returns (failed: bool)
      requires i < |b.entries|
      modifies this, store
      ensures var e := b.entries[i];
              var route := router.Config().Route(inputs.circuits(i));
              var (made, end) := PayAlong(route, router.adapters, inputs, i, e, false);
              && calls == old(calls) + made
              && failed == (end == Failed)
              && store.St() == if end == Settled && ledgered
                               then S.WithEntries(old(store.St()), e.reference, [PayoutEntry(b, e)])
                               else old(store.St())
    {
      var e := b.entries[i];
      failed := false;
      var route := router.Route(inputs.circuits(i));
      ghost var (made, end) := PayAlong(route, router.adapters, inputs, i, e, false);
      assert route[0..] == route;
      for k := 0 to |route|
        invariant store.St() == old(store.St())
        invariant var (rest, last) := PayAlong(route[k..], router.adapters, inputs, i, e, failed);
                  last == end && old(calls) + made == calls + rest
      {
        var g := route[k];
        assert route[k..][0] == g && route[k..][1..] == route[k + 1..];
        if g !in router.adapters {
          continue;
        }
        var reply := inputs.pay(i, g);
        calls := calls + [PayCall(i, g, e.recipient, e.reference, e.amount, reply)];
        if reply == Paid {
          failed := false;
          if ledgered {
            store.AppendEntry(e.reference, S.Entry(S.VendorPayout, e.amount, b.product, 0));
          }
          return;
        }
        if reply == Unset {
          failed := false;
          return;
        }
        failed := true;
      }
    }
  }

  // ---------------------------------------------------------------- one entry

  /** The call pays what the entry says to whom it says. */
  ghost predicate IsFor(c: PayCall, e: Entry) {
    c.recipient == e.recipient && c.reference == e.reference && c.amount == e.amount
  }

  /** Calls for one entry are all made out as it says, and all but the last were refused. */
  ghost predicate OneEntry(calls: seq<PayCall>, i: nat, e: Entry) {
    && (forall c <- calls :: c.index == i && IsFor(c, e))
    && forall k :: 0 <= k < |calls| - 1 ==> calls[k].reply == Refused
  }

  lemma {:induction false} PayAlongShape(route: seq<Gateway>, adapters: set<Gateway>, inputs: Inputs, i: nat,
                                         e: Entry, failed: bool)
    ensures var (calls, end) := PayAlong(route, adapters, inputs, i, e, failed);
            && OneEntry(calls, i, e)
            && (end == Settled <==> calls != [] && calls[|calls| - 1].reply == Paid)
            && (end == Failed <==> if calls == [] then failed else calls[|calls| - 1].reply == Refused)
  {
    if route != [] {
      var g := route[0];
      PayAlongShape(route[1..], adapters, inputs, i, e, failed || g in adapters);
    }
  }

  /** The first gateway along the route that does not refuse decides: it is paid through it, or by nobody. */
  lemma {:induction false} FirstWillingGatewayDecides(route: seq<Gateway>, adapters: set<Gateway>, inputs: Inputs,
                                                      i: nat, e: Entry, failed: bool, k: nat)
    requires k < |route| && route[k] in adapters && inputs.pay(i, route[k]) != Refused
    requires forall j :: 0 <= j < k && route[j] in adapters ==> inputs.pay(i, route[j]) == Refused
    ensures var (calls, end) := PayAlong(route, adapters, inputs, i, e, failed);
            && end == (if inputs.pay(i, route[k]) == Paid then Settled else Skipped)
            && calls != []
            && calls[|calls| - 1] == PayCall(i, route[k], e.recipient, e.reference, e.amount, inputs.pay(i, route[k]))
  {
    if k > 0 {
      assert route[1..][k - 1] == route[k];
      assert forall j :: 0 <= j < k - 1 ==> route[1..][j] == route[j + 1];
      FirstWillingGatewayDecides(route[1..], adapters, inputs, i, e, failed || route[0] in adapters, k - 1);
    }
  }

  /** When everyone on the route refuses, the entry fails if anyone was asked, and is skipped otherwise. */
  lemma {:induction false} NobodyWilling(route: seq<Gateway>, adapters: set<Gateway>, inputs: Inputs, i: nat,
                                         e: Entry, failed: bool)
    requires forall g :: g in route && g in adapters ==> inputs.pay(i, g) == Refused
    ensures var (calls, end) := PayAlong(route, adapters, inputs, i, e, failed);
            end == (if failed || (exists g :: g in route && g in adapters) then Failed else Skipped)
  {
    if route != [] {
      assert forall g :: g in route <==> g == route[0] || g in route[1..];
      NobodyWilling(route[1..], adapters, inputs, i, e, failed || route[0] in adapters);
    }
  }

  // ---------------------------------------------------------------- a whole run

  lemma Unfold(w: World, setup: Wiring, b: Batch, n: nat, inputs: Inputs)
    requires n <= |b.entries|
    ensures EntriesSpec(w, setup, b, n, inputs)
         == if n == 0 then w else EntrySpec(EntriesSpec(w, setup, b, n - 1, inputs), setup, b, n - 1, inputs)
  {
  }

  /** Calls belong to the first `n` entries, and only the last call of an entry was not refused. */
  ghost predicate CallsOf(b: Batch, n: nat, calls: seq<PayCall>) {
    && (forall c <- calls :: c.index < n && c.index < |b.entries| && IsFor(c, b.entries[c.index]))
    && forall k, l :: 0 <= k < l < |calls| && calls[k].index == calls[l].index ==> calls[k].reply == Refused
  }

  lemma EntryCalls(w: World, setup: Wiring, b: Batch, i: nat, inputs: Inputs)
    requires i < |b.entries| && CallsOf(b, i, w.calls)
    ensures CallsOf(b, i + 1, EntrySpec(w, setup, b, i, inputs).calls)
  {
    hide PayAlong, Admitted;
    PayAlongShape(setup.router.Route(inputs.circuits(i)), setup.router.adapters, inputs, i, b.entries[i], false);
  }

  lemma {:induction false} EntriesCalls(w: World, setup: Wiring, b: Batch, n: nat, inputs: Inputs)
    requires n <= |b.entries| && w.calls == []
    ensures CallsOf(b, n, EntriesSpec(w, setup, b, n, inputs).calls)
  {
    hide EntriesSpec, EntrySpec;
    Unfold(w, setup, b, n, inputs);
    if n > 0 {
      EntriesCalls(w, setup, b, n - 1, inputs);
      EntryCalls(EntriesSpec(w, setup, b, n - 1, inputs), setup, b, n - 1, inputs);
    }
  }

  /**
   In one run every entry has at most one accepted payout, its last call, and all its calls
   are made out to its own recipient, reference and amount.
   */
  lemma EachEntryIsPaidAtMostOnce(w: World, setup: Wiring, b: Batch, inputs: Inputs)
    requires w.calls == []
    ensures var calls := DispatchSpec(w, setup, b, inputs).calls;
            && (forall c <- calls :: c.index < |b.entries| && IsFor(c, b.entries[c.index]))
            && forall k, l :: 0 <= k < l < |calls| && calls[k].index == calls[l].index ==> calls[k].reply == Refused
  {
    EntriesCalls(w.(mine := {}), setup, b, |b.entries|, inputs);
  }

  /** The ledger entries that the accepted calls for one reference are due. */
  function Bookings(b: Batch, calls: seq<PayCall>, ref: string): seq<S.Entry> {
    if calls == [] then []
    else
      var c := calls[|calls| - 1];
      Bookings(b, calls[..|calls| - 1], ref)
      + if c.reply == Paid && c.reference == ref then [S.Entry(S.VendorPayout, c.amount, b.product, 0)] else []
  }

  lemma {:induction false} BookingsConcat(b: Batch, before: seq<PayCall>, after: seq<PayCall>, ref: string)
    ensures Bookings(b, before + after, ref) == Bookings(b, before, ref) + Bookings(b, after, ref)
  {
    if after == [] {
      assert before + after == before;
    } else {
      var n := |after| - 1;
      assert (before + after)[..|before| + n] == before + after[..n];
      BookingsConcat(b, before, after[..n], ref);
    }
  }

  lemma {:induction false} NothingPaidNothingBooked(b: Batch, calls: seq<PayCall>, ref: string)
    requires forall c <- calls :: c.reply != Paid || c.reference != ref
    ensures Bookings(b, calls, ref) == []
  {
    if calls != [] {
      NothingPaidNothingBooked(b, calls[..|calls| - 1], ref);
    }
  }

  /** The calls for one entry are booked once if the last of them is accepted, and not otherwise. */
  lemma OneEntryBookings(b: Batch, calls: seq<PayCall>, i: nat, e: Entry, ref: string)
    requires OneEntry(calls, i, e)
    ensures Bookings(b, calls, ref)
         == if calls != [] && calls[|calls| - 1].reply == Paid && e.reference == ref then [PayoutEntry(b, e)] else []
  {
    if calls != [] {
      NothingPaidNothingBooked(b, calls[..|calls| - 1], ref);
    }
  }

  lemma EntryBooks(w: World, setup: Wiring, b: Batch, i: nat, inputs: Inputs, ref: string) returns (made: seq<PayCall>)
    requires i < |b.entries| && setup.ledgered
    ensures var w' := EntrySpec(w, setup, b, i, inputs);
            && w'.calls == w.calls + made
            && S.Entries(w'.ledger, ref) == S.Entries(w.ledger, ref) + Bookings(b, made, ref)
  {
    hide PayAlong, Admitted, Bookings, OneEntry;
    var e := b.entries[i];
    if Admitted(w, e, inputs.clock(i), inputs.broken(i)) {
      var route := setup.router.Route(inputs.circuits(i));
      made := PayAlong(route, setup.router.adapters, inputs, i, e, false).0;
      PayAlongShape(route, setup.router.adapters, inputs, i, e, false);
      OneEntryBookings(b, made, i, e, ref);
    } else {
      made := [];
      NothingPaidNothingBooked(b, made, ref);
    }
  }

  lemma EntryKeepsBooks(w: World, setup: Wiring, b: Batch, i: nat, inputs: Inputs, ref: string, base: seq<S.Entry>)
    requires i < |b.entries| && setup.ledgered
    requires S.Entries(w.ledger, ref) == base + Bookings(b, w.calls, ref)
    ensures var w' := EntrySpec(w, setup, b, i, inputs); S.Entries(w'.ledger, ref) == base + Bookings(b, w'.calls, ref)
  {
    hide *;
    var made := EntryBooks(w, setup, b, i, inputs, ref);
    BookingsConcat(b, w.calls, made, ref);
  }

  lemma {:induction false} EntriesBook(w: World, setup: Wiring, b: Batch, n: nat, inputs: Inputs, ref: string)
    requires n <= |b.entries| && setup.ledgered && w.calls == []
    ensures var w' := EntriesSpec(w, setup, b, n, inputs);
            S.Entries(w'.ledger, ref) == S.Entries(w.ledger, ref) + Bookings(b, w'.calls, ref)
  {
    hide *;
    Unfold(w, setup, b, n, inputs);
    if n == 0 {
      NothingPaidNothingBooked(b, [], ref);
    } else {
      EntriesBook(w, setup, b, n - 1, inputs, ref);
      EntryKeepsBooks(EntriesSpec(w, setup, b, n - 1, inputs), setup, b, n - 1, inputs, ref, S.Entries(w.ledger, ref));
    }
  }

  lemma {:induction false} OnlyTheLedgerChanges(w: World, setup: Wiring, b: Batch, n: nat, inputs: Inputs)
    requires n <= |b.entries|
    ensures var w' := EntriesSpec(w, setup, b, n, inputs); w'.ledger == w.ledger.(ledgers := w'.ledger.ledgers)
  {
    hide PayAlong, Admitted;
    if n > 0 {
      OnlyTheLedgerChanges(w, setup, b, n - 1, inputs);
    }
  }

  /**
   With a ledger, every reference gains exactly one vendor payout per accepted call, for
   the amount of the call and in the order of the calls, and nothing else is written.
   */
  lemma LedgerRecordsWhatWasPaid(w: World, setup: Wiring, b: Batch, inputs: Inputs, ref: string)
    requires setup.ledgered && w.calls == []
    ensures var w' := DispatchSpec(w, setup, b, inputs);
            && S.Entries(w'.ledger, ref) == S.Entries(w.ledger, ref) + Bookings(b, w'.calls, ref)
            && w'.ledger == w.ledger.(ledgers := w'.ledger.ledgers)
  {
    EntriesBook(w.(mine := {}), setup, b, |b.entries|, inputs, ref);
    OnlyTheLedgerChanges(w.(mine := {}), setup, b, |b.entries|, inputs);
  }

  // ---------------------------------------------------------------- the locks

  /** Entry `i` gets past the lock in this run. */
  ghost predicate Taken(w: World, setup: Wiring, b: Batch, i: nat, inputs: Inputs)
    requires i < |b.entries|
  {
    Admitted(EntriesSpec(w, setup, b, i, inputs), b.entries[i], inputs.clock(i), inputs.broken(i))
  }

  ghost predicate Ticking(inputs: Inputs, n: nat) {
    forall i, j :: 0 <= i <= j < n ==> inputs.clock(i) <= inputs.clock(j)
  }

  /** One entry takes its own lock or none. */
  lemma EntryLocks(w: World, setup: Wiring, b: Batch, i: nat, inputs: Inputs)
    requires i < |b.entries| && w.locks.Some?
    ensures var e, w' := b.entries[i], EntrySpec(w, setup, b, i, inputs);
            var took := if Admitted(w, e, inputs.clock(i), inputs.broken(i)) then {PayKey(e.reference)} else {};
            && w'.locks.Some? && w'.mine == w.mine + took
            && w'.locks.value - took == w.locks.value - took
            && forall key <- took :: key in w'.locks.value && w'.locks.value[key] == inputs.clock(i) + DISPATCH_TTL
  {
    hide PayAlong, PayKey;
  }

  /** The lock on one reference before entry `n`: as at the start, or left by an entry taken before. */
  lemma {:induction false} LockHistory(w: World, setup: Wiring, b: Batch, n: nat, inputs: Inputs, ref: string)
    requires n <= |b.entries| && w.locks.Some? && Ticking(inputs, n)
    ensures EntriesSpec(w, setup, b, n, inputs).locks.Some?
    ensures var locks, key := EntriesSpec(w, setup, b, n, inputs).locks.value, PayKey(ref);
            || (&& (key in locks <==> key in w.locks.value)
                && (key in locks ==> locks[key] == w.locks.value[key])
                && forall i :: 0 <= i < n && b.entries[i].reference == ref ==> !Taken(w, setup, b, i, inputs))
            || (exists i ::
                  && LastTaken(w, setup, b, n, inputs, ref, i)
                  && key in locks && locks[key] == inputs.clock(i) + DISPATCH_TTL)
  {
    hide EntriesSpec, EntrySpec, PayKey;
    Unfold(w, setup, b, n, inputs);
    if n == 0 {
      return;
    }
    var m := n - 1;
    var e := b.entries[m];
    LockHistory(w, setup, b, m, inputs, ref);
    EntryLocks(EntriesSpec(w, setup, b, m, inputs), setup, b, m, inputs);
    PayKeyInjective(e.reference, ref);
    if Taken(w, setup, b, m, inputs) && e.reference == ref {
      assert LastTaken(w, setup, b, n, inputs, ref, m);
    } else {
      var took := if Taken(w, setup, b, m, inputs) then {PayKey(e.reference)} else {};
      var before := EntriesSpec(w, setup, b, m, inputs).locks.value;
      var after := EntriesSpec(w, setup, b, n, inputs).locks.value;
      assert PayKey(ref) in before <==> PayKey(ref) in before - took;
      assert PayKey(ref) in after <==> PayKey(ref) in after - took;
      if i :| LastTaken(w, setup, b, m, inputs, ref, i) {
        assert LastTaken(w, setup, b, n, inputs, ref, i);
      }
    }
  }

  ghost predicate LastTaken(w: World, setup: Wiring, b: Batch, n: nat, inputs: Inputs, ref: string, i: nat)
    requires n <= |b.entries| && w.locks.Some?
  {
    && i < n && b.entries[i].reference == ref && Taken(w, setup, b, i, inputs)
    && !Held(w.locks.value, PayKey(ref), inputs.clock(i))
    && forall j :: 0 <= j < n && b.entries[j].reference == ref && Taken(w, setup, b, j, inputs) ==>
         inputs.clock(j) <= inputs.clock(i)
  }

  lemma PayKeyInjective(a: string, b: string)
    ensures PayKey(a) == PayKey(b) <==> a == b
  {
    assert PayKey(a)[7..] == a && PayKey(b)[7..] == b;
  }

  /** An entry before `n` with the same reference was dispatched less than a lease ago. */
  ghost predicate UsedBefore(w: World, setup: Wiring, b: Batch, n: nat, inputs: Inputs)
    requires n < |b.entries|
  {
    exists i :: && 0 <= i < n && b.entries[i].reference == b.entries[n].reference && Taken(w, setup, b, i, inputs)
                && inputs.clock(n) < inputs.clock(i) + DISPATCH_TTL
  }

  /**
   An entry is dispatched exactly when Valkey answers, its reference was not locked at the
   start for longer than now, and no earlier entry with the same reference was dispatched
   within the last lease: locks are given back only when the run returns.
   */
  lemma DispatchedIff(w: World, setup: Wiring, b: Batch, n: nat, inputs: Inputs)
    requires n < |b.entries| && w.locks.Some? && Ticking(inputs, n + 1)
    ensures var e := b.entries[n];
            Taken(w, setup, b, n, inputs) <==>
              && !inputs.broken(n)
              && !Held(w.locks.value, PayKey(e.reference), inputs.clock(n))
              && !UsedBefore(w, setup, b, n, inputs)
  {
    LockHistory(w, setup, b, n, inputs, b.entries[n].reference);
    hide EntriesSpec, PayKey;
  }

  /** Calls come only from entries that got past the lock. */
  lemma {:induction false} CallsAreTaken(w: World, setup: Wiring, b: Batch, n: nat, inputs: Inputs)
    requires n <= |b.entries| && w.calls == []
    ensures forall c <- EntriesSpec(w, setup, b, n, inputs).calls ::
              c.index < n && Taken(w, setup, b, c.index, inputs) && c.reference == b.entries[c.index].reference
  {
    if n > 0 {
      CallsAreTaken(w, setup, b, n - 1, inputs);
      var route := setup.router.Route(inputs.circuits(n - 1));
      PayAlongShape(route, setup.router.adapters, inputs, n - 1, b.entries[n - 1], false);
      var before := EntriesSpec(w, setup, b, n - 1, inputs);
      hide PayAlong, Admitted;
    }
  }

  /** No lease runs out during the run. */
  ghost predicate LeasesOutliveRun(inputs: Inputs, n: nat) {
    forall i, j :: 0 <= i <= j < n ==> inputs.clock(j) < inputs.clock(i) + DISPATCH_TTL
  }

  /**
   With a connected locker and leases that outlive the run, all calls for one reference
   come from one entry, and at most one of them is accepted.
   */
  lemma EachReferenceIsTriedOnce(w: World, setup: Wiring, b: Batch, inputs: Inputs)
    requires w.locks.Some? && w.calls == []
    requires Ticking(inputs, |b.entries|) && LeasesOutliveRun(inputs, |b.entries|)
    ensures var calls := DispatchSpec(w, setup, b, inputs).calls;
            && (forall c, d :: c in calls && d in calls && c.reference == d.reference ==> c.index == d.index)
            && forall k, l :: 0 <= k < l < |calls| && calls[k].reference == calls[l].reference ==>
                 calls[k].reply == Refused
  {
    var n, w0 := |b.entries|, w.(mine := {});
    EntriesCalls(w0, setup, b, n, inputs);
    CallsAreTaken(w0, setup, b, n, inputs);
    var calls := EntriesSpec(w0, setup, b, n, inputs).calls;
    forall i, j | 0 <= i < j < n && b.entries[i].reference == b.entries[j].reference
      ensures !Taken(w0, setup, b, i, inputs) || !Taken(w0, setup, b, j, inputs)
    {
      DispatchedIff(w0, setup, b, j, inputs);
    }
    hide Taken, EntriesSpec;
    assert DispatchSpec(w, setup, b, inputs).calls == calls by { assert w0 == w.(mine := {}); }
  }

  ghost function TakenKeys(w: World, setup: Wiring, b: Batch, n: nat, inputs: Inputs): set<string>
    requires n <= |b.entries|
  {
    set i | 0 <= i < n && Taken(w, setup, b, i, inputs) :: PayKey(b.entries[i].reference)
  }

  lemma SameOutside(a: Locks, b: Locks, c: Locks, s: set<string>, t: set<string>)
    requires a - t == b - t && b - s == c - s
    ensures a - (s + t) == c - (s + t)
  {
    assert (a - t) - s == a - (s + t) && (b - t) - s == b - (s + t);
    assert (b - s) - t == b - (s + t) && (c - s) - t == c - (s + t);
  }

  /** The run gives back every lock it took and touches no other. */
  lemma {:induction false} OnlyOwnLocks(w: World, setup: Wiring, b: Batch, n: nat, inputs: Inputs)
    requires n <= |b.entries| && w.locks.Some? && w.mine == {}
    ensures var w' := EntriesSpec(w, setup, b, n, inputs);
            && w'.locks.Some?
            && w'.mine == TakenKeys(w, setup, b, n, inputs)
            && w'.locks.value - w'.mine == w.locks.value - w'.mine
  {
    hide EntriesSpec, EntrySpec, Admitted, PayKey;
    Unfold(w, setup, b, n, inputs);
    if n > 0 {
      var m := n - 1;
      var before, after := EntriesSpec(w, setup, b, m, inputs), EntriesSpec(w, setup, b, n, inputs);
      OnlyOwnLocks(w, setup, b, m, inputs);
      EntryLocks(before, setup, b, m, inputs);
      var took := if Taken(w, setup, b, m, inputs) then {PayKey(b.entries[m].reference)} else {};
      assert after.mine == before.mine + took == TakenKeys(w, setup, b, n, inputs);
      SameOutside(after.locks.value, before.locks.value, w.locks.value, before.mine, took);
    }
  }

  /** Afterwards exactly the locks of the dispatched entries are gone, whoever holds them by then. */
  lemma LocksAfterwards(w: World, setup: Wiring, b: Batch, inputs: Inputs)
    requires w.locks.Some?
    ensures DispatchSpec(w, setup, b, inputs).locks
         == Some(w.locks.value - TakenKeys(w.(mine := {}), setup, b, |b.entries|, inputs))
  {
    var done := EntriesSpec(w.(mine := {}), setup, b, |b.entries|, inputs);
    OnlyOwnLocks(w.(mine := {}), setup, b, |b.entries|, inputs);
  }

  /**
   Nothing remembers a finished dispatch: when the batch is dispatched again, every entry
   that got past the lock the first time gets past it again as soon as Valkey answers,
   unless an entry before it in the same run has just used its reference.
   */
  lemma SecondDispatchTriesAgainIff(w: World, setup: Wiring, b: Batch, i: nat, first: Inputs, second: Inputs)
    requires i < |b.entries| && w.locks.Some? && Ticking(second, i + 1)
    requires Taken(w.(mine := {}), setup, b, i, first)
    ensures var w' := DispatchSpec(w, setup, b, first);
            Taken(w', setup, b, i, second) <==>
              && !second.broken(i)
              && !UsedBefore(w', setup, b, i, second)
  {
    LocksAfterwards(w, setup, b, first);
    var w' := DispatchSpec(w, setup, b, first);
    DispatchedIff(w', setup, b, i, second);
    assert PayKey(b.entries[i].reference) in TakenKeys(w.(mine := {}), setup, b, |b.entries|, first);
    hide DispatchSpec, EntriesSpec, PayKey;
  }

  /** Entry `i` would be paid if it got past the lock. */
  ghost predicate PaysOut(setup: Wiring, b: Batch, i: nat, inputs: Inputs)
    requires i < |b.entries|
  {
    PayAlong(setup.router.Route(inputs.circuits(i)), setup.router.adapters, inputs, i, b.entries[i], false).1 == Settled
  }

  ghost predicate IsPaid(calls: seq<PayCall>, i: nat) {
    exists c <- calls :: c.index == i && c.reply == Paid
  }

  lemma EntryPays(w: World, setup: Wiring, b: Batch, i: nat, inputs: Inputs)
    requires i < |b.entries|
    ensures var e, w' := b.entries[i], EntrySpec(w, setup, b, i, inputs);
            forall k: nat :: IsPaid(w'.calls, k) <==>
              || IsPaid(w.calls, k)
              || (k == i && Admitted(w, e, inputs.clock(i), inputs.broken(i)) && PaysOut(setup, b, i, inputs))
  {
    hide PayAlong, Admitted;
    var e := b.entries[i];
    var (calls, end) := PayAlong(setup.router.Route(inputs.circuits(i)), setup.router.adapters, inputs, i, e, false);
    PayAlongShape(setup.router.Route(inputs.circuits(i)), setup.router.adapters, inputs, i, e, false);
    assert end == Settled ==> calls[|calls| - 1] in calls;
    assert IsPaid(calls, i) <==> end == Settled;
    forall k: nat ensures IsPaid(w.calls + calls, k) <==> IsPaid(w.calls, k) || IsPaid(calls, k) {
      assert forall c :: c in w.calls + calls <==> c in w.calls || c in calls;
    }
  }

  lemma {:induction false} EntriesPaid(w: World, setup: Wiring, b: Batch, n: nat, inputs: Inputs)
    requires n <= |b.entries| && w.calls == []
    ensures forall k: nat :: IsPaid(EntriesSpec(w, setup, b, n, inputs).calls, k) <==>
              k < n && Taken(w, setup, b, k, inputs) && PaysOut(setup, b, k, inputs)
  {
    hide EntriesSpec, EntrySpec, PaysOut, Admitted;
    Unfold(w, setup, b, n, inputs);
    if n > 0 {
      EntriesPaid(w, setup, b, n - 1, inputs);
      EntryPays(EntriesSpec(w, setup, b, n - 1, inputs), setup, b, n - 1, inputs);
    }
  }

  /** An entry is paid exactly when it gets past the lock and its route ends with a gateway that pays. */
  lemma PaidIff(w: World, setup: Wiring, b: Batch, i: nat, inputs: Inputs)
    requires i < |b.entries| && w.calls == []
    ensures IsPaid(DispatchSpec(w, setup, b, inputs).calls, i) <==>
              Taken(w.(mine := {}), setup, b, i, inputs) && PaysOut(setup, b, i, inputs)
  {
    EntriesPaid(w.(mine := {}), setup, b, |b.entries|, inputs);
  }

  /** Some gateway on the route of entry `i` pays it, and every one with an adapter before that refuses. */
  ghost predicate SomeoneIsWilling(setup: Wiring, inputs: Inputs, i: nat) {
    var route := setup.router.Route(inputs.circuits(i));
    exists k :: && 0 <= k < |route| && route[k] in setup.router.adapters && inputs.pay(i, route[k]) == Paid
                && forall j :: 0 <= j < k && route[j] in setup.router.adapters ==> inputs.pay(i, route[j]) == Refused
  }

  /** The first gateway on a route that has an adapter and does not refuse, or the length of the route. */
  lemma FirstWilling(route: seq<Gateway>, adapters: set<Gateway>, inputs: Inputs, i: nat) returns (k: nat)
    ensures k <= |route|
    ensures k < |route| ==> route[k] in adapters && inputs.pay(i, route[k]) != Refused
    ensures forall j :: 0 <= j < k && route[j] in adapters ==> inputs.pay(i, route[j]) == Refused
  {
    k := 0;
    while k < |route| && (route[k] in adapters ==> inputs.pay(i, route[k]) == Refused)
      invariant k <= |route|
      invariant forall j :: 0 <= j < k && route[j] in adapters ==> inputs.pay(i, route[j]) == Refused
    {
      k := k + 1;
    }
  }

  lemma PaysOutIff(setup: Wiring, b: Batch, i: nat, inputs: Inputs)
    requires i < |b.entries|
    ensures PaysOut(setup, b, i, inputs) <==> SomeoneIsWilling(setup, inputs, i)
  {
    hide PayAlong;
    var route, adapters := setup.router.Route(inputs.circuits(i)), setup.router.adapters;
    var k := FirstWilling(route, adapters, inputs, i);
    if k < |route| {
      FirstWillingGatewayDecides(route, adapters, inputs, i, b.entries[i], false, k);
    } else {
      forall g | g in route && g in adapters ensures inputs.pay(i, g) == Refused {
        var j :| 0 <= j < |route| && route[j] == g;
      }
      NobodyWilling(route, adapters, inputs, i, b.entries[i], false);
    }
  }

  /** Entry `i` gets at least one call if its route has an adapter and it gets past the lock. */
  lemma {:induction false} TakenIsTried(w: World, setup: Wiring, b: Batch, n: nat, inputs: Inputs, i: nat)
    requires i < n <= |b.entries| && Taken(w, setup, b, i, inputs)
    requires exists g <- setup.router.Route(inputs.circuits(i)) :: g in setup.router.adapters
    ensures exists c <- EntriesSpec(w, setup, b, n, inputs).calls :: c.index == i
  {
    hide EntriesSpec, Admitted, RouteSpec;
    Unfold(w, setup, b, n, inputs);
    var before := EntriesSpec(w, setup, b, n - 1, inputs);
    if i < n - 1 {
      TakenIsTried(w, setup, b, n - 1, inputs, i);
      var c :| c in before.calls && c.index == i;
      assert c in EntriesSpec(w, setup, b, n, inputs).calls;
    } else {
      var route := setup.router.Route(inputs.circuits(i));
      SomeCall(route, setup.router.adapters, inputs, i, b.entries[i], false);
      var calls := PayAlong(route, setup.router.adapters, inputs, i, b.entries[i], false).0;
      assert calls[0] in EntriesSpec(w, setup, b, n, inputs).calls;
    }
  }

  lemma {:induction false} SomeCall(route: seq<Gateway>, adapters: set<Gateway>, inputs: Inputs, i: nat, e: Entry,
                                    failed: bool)
    requires exists g <- route :: g in adapters
    ensures var calls := PayAlong(route, adapters, inputs, i, e, failed).0; calls != [] && calls[0].index == i
  {
    if route[0] !in adapters {
      assert forall g <- route :: g == route[0] || g in route[1..];
      SomeCall(route[1..], adapters, inputs, i, e, failed);
    }
  }

  /**
   Without a connected locker nothing holds an entry back: it is tried if its route has an
   adapter, and paid exactly when the first on it that does not refuse pays.
   */
  lemma WithoutLockerPaidIff(w: World, setup: Wiring, b: Batch, i: nat, inputs: Inputs)
    requires i < |b.entries| && w.calls == [] && w.locks.None?
    ensures var calls := DispatchSpec(w, setup, b, inputs).calls;
            && ((exists c <- calls :: c.index == i && c.reply == Paid) <==> SomeoneIsWilling(setup, inputs, i))
            && ((exists g <- setup.router.Route(inputs.circuits(i)) :: g in setup.router.adapters) ==>
                  exists c <- calls :: c.index == i)
  {
    hide PayAlong, PaysOut, RouteSpec, SomeoneIsWilling;
    var w0 := w.(mine := {});
    PaidIff(w, setup, b, i, inputs);
    PaysOutIff(setup, b, i, inputs);
    NoLockerStays(w0, setup, b, i, inputs);
    if exists g <- setup.router.Route(inputs.circuits(i)) :: g in setup.router.adapters {
      TakenIsTried(w0, setup, b, |b.entries|, inputs, i);
    }
  }

  lemma {:induction false} NoLockerStays(w: World, setup: Wiring, b: Batch, n: nat, inputs: Inputs)
    requires n <= |b.entries| && w.locks.None?
    ensures EntriesSpec(w, setup, b, n, inputs).locks.None?
    ensures n < |b.entries| ==> Taken(w, setup, b, n, inputs)
  {
    hide PayAlong;
    if n > 0 {
      NoLockerStays(w, setup, b, n - 1, inputs);
    }
  }

  /** With a connected locker an entry is paid exactly when it is dispatched and someone is willing. */
  lemma WithLockerPaidIff(w: World, setup: Wiring, b: Batch, i: nat, inputs: Inputs)
    requires i < |b.entries| && w.calls == [] && w.locks.Some? && Ticking(inputs, i + 1)
    ensures var w0 := w.(mine := {});
            (exists c <- DispatchSpec(w, setup, b, inputs).calls :: c.index == i && c.reply == Paid) <==>
              && SomeoneIsWilling(setup, inputs, i)
              && !inputs.broken(i) && !Held(w.locks.value, PayKey(b.entries[i].reference), inputs.clock(i))
              && !UsedBefore(w0, setup, b, i, inputs)
  {
    hide PayAlong, PaysOut, RouteSpec, SomeoneIsWilling, UsedBefore, Held, PayKey;
    PaidIff(w, setup, b, i, inputs);
    PaysOutIff(setup, b, i, inputs);
    DispatchedIff(w.(mine := {}), setup, b, i, inputs);
  }

  /** What a later run finds; it keeps its own list of calls. */
  function Later(w: World): World {
    w.(mine := {}, calls := [])
  }

  /**
   Paying twice: an entry that one run has paid is paid again by the next run of the same
   batch exactly when Valkey answers, a gateway pays, and no entry before it in that run
   has used its reference within the last lease.
   */
  lemma SecondDispatchPaysAgainIff(w: World, setup: Wiring, b: Batch, i: nat, first: Inputs, second: Inputs)
    requires i < |b.entries| && w.locks.Some? && w.calls == [] && Ticking(second, i + 1)
    requires IsPaid(DispatchSpec(w, setup, b, first).calls, i)
    ensures var w' := Later(DispatchSpec(w, setup, b, first));
            IsPaid(DispatchSpec(w', setup, b, second).calls, i) <==>
              && !second.broken(i) && PaysOut(setup, b, i, second)
              && !UsedBefore(w', setup, b, i, second)
  {
    hide DispatchSpec, PaysOut, IsPaid, PayKey, Taken;
    PaidIff(w, setup, b, i, first);
    var w' := Later(DispatchSpec(w, setup, b, first));
    PaidIff(w', setup, b, i, second);
    LocksAfterwards(w, setup, b, first);
    DispatchedIff(w', setup, b, i, second);
    assert PayKey(b.entries[i].reference) in TakenKeys(w.(mine := {}), setup, b, |b.entries|, first);
  }

  /** A run that nothing disturbs and in which every gateway pays. */
  ghost function Smooth(at: int): Inputs {
    Inputs(_ => at, _ => false, _ => (_ => Closed), (_, _) => Paid)
  }

  /** Two such runs of one batch, free locks to begin with: both pay its first entry. */
  lemma BothRunsPay(w: World, setup: Wiring, b: Batch, first: int, second: int)
    requires b.entries != [] && w.locks == Some(map[]) && w.calls == []
    requires Valid(setup.router.primary) && setup.router.primary in setup.router.adapters
    ensures var w' := DispatchSpec(w, setup, b, Smooth(first));
            IsPaid(w'.calls, 0) && IsPaid(DispatchSpec(Later(w'), setup, b, Smooth(second)).calls, 0)
  {
    hide DispatchSpec, IsPaid, PayKey, RouteSpec, PayAlong;
    SmoothPays(setup, b, first);
    SmoothPays(setup, b, second);
    PaidIff(w, setup, b, 0, Smooth(first));
    SecondDispatchPaysAgainIff(w, setup, b, 0, Smooth(first), Smooth(second));
  }

  lemma SmoothPays(setup: Wiring, b: Batch, at: int)
    requires b.entries != [] && Valid(setup.router.primary) && setup.router.primary in setup.router.adapters
    ensures PaysOut(setup, b, 0, Smooth(at))
  {
    hide RouteSpec;
    var inputs := Smooth(at);
    RouteProperties(setup.router.primary, if setup.router.monitored then Some(inputs.circuits(0)) else None);
    var route := setup.router.Route(inputs.circuits(0));
    assert route[0] == setup.router.primary;
    FirstWillingGatewayDecides(route, setup.router.adapters, inputs, 0, b.entries[0], false, 0);
  }

  // ---------------------------------------------------------------- reservations

  /** Entry `i` is refused by everyone it is tried with. */
  ghost predicate Fails(w: World, setup: Wiring, b: Batch, i: nat, inputs: Inputs)
    requires i < |b.entries|
  {
    && setup.ledgered && Taken(w, setup, b, i, inputs)
    && var route := setup.router.Route(inputs.circuits(i));
       PayAlong(route, setup.router.adapters, inputs, i, b.entries[i], false).1 == Failed
  }

  /** One failed entry releases the open rows whose id is that of the batch; a success settles none. */
  lemma {:induction false} ReservationsAfter(w: World, setup: Wiring, b: Batch, n: nat, inputs: Inputs)
    requires n <= |b.entries|
    ensures EntriesSpec(w, setup, b, n, inputs).rows
         == if exists i :: 0 <= i < n && Fails(w, setup, b, i, inputs) then R.Update(w.rows, b.id, R.Released)
            else w.rows
  {
    if n > 0 {
      var before := EntriesSpec(w, setup, b, n - 1, inputs);
      assert EntriesSpec(w, setup, b, n, inputs).rows
          == if Fails(w, setup, b, n - 1, inputs) then R.Update(before.rows, b.id, R.Released) else before.rows;
      hide *;
      ReservationsAfter(w, setup, b, n - 1, inputs);
      UpdateTwice(w.rows, b.id);
    }
  }

  lemma UpdateTwice(rows: seq<R.Row>, id: string)
    ensures R.Update(R.Update(rows, id, R.Released), id, R.Released) == R.Update(rows, id, R.Released)
  {
    var once := R.Update(rows, id, R.Released);
    var twice := R.Update(once, id, R.Released);
    assert |twice| == |once| && forall i :: 0 <= i < |rows| ==> twice[i] == once[i];
  }

  /**
   Dispatch changes a reservation exactly when an entry fails and an open reservation
   happens to carry the id of the batch. Reservations get ids of their own, so all of them
   stay open, whether paid or failed.
   */
  lemma ReservationsChangeIff(w: World, setup: Wiring, b: Batch, inputs: Inputs)
    ensures DispatchSpec(w, setup, b, inputs).rows != w.rows <==>
              && (exists i :: 0 <= i < |b.entries| && Fails(w.(mine := {}), setup, b, i, inputs))
              && exists k :: 0 <= k < |w.rows| && w.rows[k].id == b.id && w.rows[k].status == R.Open
  {
    ReservationsAfter(w.(mine := {}), setup, b, |b.entries|, inputs);
    hide Fails, EntriesSpec;
    var released := R.Update(w.rows, b.id, R.Released);
    if forall k :: 0 <= k < |w.rows| ==> w.rows[k].id != b.id || w.rows[k].status != R.Open {
      assert |released| == |w.rows| && forall k :: 0 <= k < |w.rows| ==> released[k] == w.rows[k];
    } else {
      var k :| 0 <= k < |w.rows| && w.rows[k].id == b.id && w.rows[k].status == R.Open;
      assert released[k].status == R.Released;
    }
  }

  /**
   Whatever is dispatched and however it ends, the reservations a batch was created with
   stay open: their ids are not the id of the batch.
   */
  lemma CreatedReservationsStayOpen(w: World, setup: Wiring, b: Batch, inputs: Inputs, others: seq<R.Row>,
                                    ids: nat -> string)
    requires w.rows == others + RowsFor(b, ids) && forall i :: 0 <= i < |b.entries| ==> ids(i) != b.id
    ensures var rows := DispatchSpec(w, setup, b, inputs).rows;
            && |rows| == |others| + |b.entries|
            && rows[|others|..] == RowsFor(b, ids)
            && forall row <- rows[|others|..] :: row.status == R.Open
  {
    hide EntriesSpec, Fails, RowsFor, R.Update;
    ReservationsAfter(w.(mine := {}), setup, b, |b.entries|, inputs);
    ReleaseMissesRows(b, others, ids);
  }

  lemma ReleaseMissesRows(b: Batch, others: seq<R.Row>, ids: nat -> string)
    requires forall i :: 0 <= i < |b.entries| ==> ids(i) != b.id
    ensures var rows, mine := others + RowsFor(b, ids), RowsFor(b, ids);
            && |rows| == |others| + |b.entries| == |R.Update(rows, b.id, R.Released)|
            && rows[|others|..] == mine == R.Update(rows, b.id, R.Released)[|others|..]
            && forall row <- mine :: row.status == R.Open
  {
    var mine := RowsFor(b, ids);
    var rows := others + mine;
    var released := R.Update(rows, b.id, R.Released);
    forall i | 0 <= i < |mine| ensures released[|others| + i] == mine[i] {
      assert rows[|others| + i] == mine[i];
    }
  }
}
