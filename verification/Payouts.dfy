/**
 Reservation rows and their guarded updates (internal/storage/postgres/payout_reservations.sql.go
 and pg_store.go).
 */
module Reservations {
  import opened Prelude
  import opened Money

  datatype Status = Open | Settled | Released

  datatype Row = Row(id: string, batchId: string, amount: Money, status: Status)

  datatype Error = NotFound

  datatype Op = Settle(id: string) | Release(id: string) {
    function Target(): Status {
      if Settle? then Settled else Released
    }
  }

  /** UPDATE ... SET status = to WHERE id = $1 AND status = 'open', on one row. */
  function UpdateRow(row: Row, id: string, to: Status): Row {
    if row.id == id && row.status == Open then row.(status := to) else row
  }

  function Update(rows: seq<Row>, id: string, to: Status): seq<Row> {
    seq(|rows|, i requires 0 <= i < |rows| => UpdateRow(rows[i], id, to))
  }

  predicate Exists(rows: seq<Row>, id: string) {
    exists i :: 0 <= i < |rows| && rows[i].id == id
  }

  class Table {
    var rows: seq<Row>

    constructor ()
      ensures rows == []
    {
      rows := [];
    }

    /** The statement itself; the number of rows it changed decides what is checked next. */
    method GuardedUpdate(id: string, to: Status) returns (affected: nat)
      requires to != Open
      modifies this
      ensures rows == Update(old(rows), id, to)
      ensures affected > 0 <==> exists i :: 0 <= i < |old(rows)| && old(rows)[i].id == id && old(rows)[i].status == Open
    {
      affected := 0;
      var updated: seq<Row> := [];
      for i := 0 to |rows|
        invariant updated == Update(rows[..i], id, to)
        invariant affected > 0 <==> exists k :: 0 <= k < i && rows[k].id == id && rows[k].status == Open
      {
        if rows[i].id == id && rows[i].status == Open {
          updated := updated + [rows[i].(status := to)];
          affected := affected + 1;
        } else {
          updated := updated + [rows[i]];
        }
      }
      assert rows[..|rows|] == rows;
      rows := updated;
    }

    /** An update that found no open row is a success all the same if the row exists. */
    method RowsChecked(id: string, affected: nat) returns (r: Result<(), Error>)
      ensures r == if affected > 0 || Exists(rows, id) then Ok(()) else Err(NotFound)
    {
      if affected > 0 {
        return Ok(());
      }
      for i := 0 to |rows|
        invariant forall k :: 0 <= k < i ==> rows[k].id != id
      {
        if rows[i].id == id {
          return Ok(());
        }
      }
      return Err(NotFound);
    }

    method SettleReservation(id: string) returns (r: Result<(), Error>)
      modifies this
      ensures rows == Update(old(rows), id, Settled)
      ensures r == if Exists(old(rows), id) then Ok(()) else Err(NotFound)
    {
      var affected := GuardedUpdate(id, Settled);
      UpdateKeepsIds(old(rows), id, Settled);
      r := RowsChecked(id, affected);
    }

    method ReleaseReservation(id: string) returns (r: Result<(), Error>)
      modifies this
      ensures rows == Update(old(rows), id, Released)
      ensures r == if Exists(old(rows), id) then Ok(()) else Err(NotFound)
    {
      var affected := GuardedUpdate(id, Released);
      UpdateKeepsIds(old(rows), id, Released);
      r := RowsChecked(id, affected);
    }
  }

  lemma UpdateKeepsIds(rows: seq<Row>, id: string, to: Status)
    ensures forall k :: Exists(Update(rows, id, to), k) <==> Exists(rows, k)
  {
    var rows' := Update(rows, id, to);
    forall k ensures Exists(rows', k) <==> Exists(rows, k) {
      assert forall i :: 0 <= i < |rows| ==> rows'[i].id == rows[i].id;
    }
  }

  // ---------------------------------------------------------------- any sequence of transitions

  function Apply(rows: seq<Row>, ops: seq<Op>): seq<Row> {
    if ops == [] then rows
    else Update(Apply(rows, ops[..|ops| - 1]), ops[|ops| - 1].id, ops[|ops| - 1].Target())
  }

  /** The amount in one status. */
  function Held(rows: seq<Row>, status: Status): int {
    if rows == [] then 0
    else Held(rows[..|rows| - 1], status)
         + if rows[|rows| - 1].status == status then rows[|rows| - 1].amount.minorUnits else 0
  }

  function Total(rows: seq<Row>): int {
    if rows == [] then 0 else Total(rows[..|rows| - 1]) + rows[|rows| - 1].amount.minorUnits
  }

  /** What the first transition on a row makes of it. */
  function Fate(ops: seq<Op>, id: string): Status {
    if ops == [] then Open
    else
      var before := Fate(ops[..|ops| - 1], id);
      if before == Open && ops[|ops| - 1].id == id then ops[|ops| - 1].Target() else before
  }

  /** An open row leaves open at most once, for the first transition on its id; others never move. */
  lemma {:induction false} FirstTransitionWins(rows: seq<Row>, ops: seq<Op>, i: nat)
    requires i < |rows|
    ensures |Apply(rows, ops)| == |rows|
    ensures var row := rows[i];
            Apply(rows, ops)[i] == row.(status := if row.status == Open then Fate(ops, row.id) else row.status)
  {
    if ops != [] {
      FirstTransitionWins(rows, ops[..|ops| - 1], i);
    }
  }

  lemma {:induction false} StatusesPartition(rows: seq<Row>)
    ensures Held(rows, Open) + Held(rows, Settled) + Held(rows, Released) == Total(rows)
  {
    if rows != [] {
      StatusesPartition(rows[..|rows| - 1]);
    }
  }

  lemma {:induction false} SameAmounts(rows: seq<Row>, rows': seq<Row>)
    requires |rows| == |rows'|
    requires forall i :: 0 <= i < |rows| ==>
               rows'[i].amount == rows[i].amount && (rows[i].status != Open ==> rows'[i].status == rows[i].status)
    requires forall i :: 0 <= i < |rows| ==> rows[i].amount.minorUnits >= 0
    ensures Total(rows) == Total(rows')
    ensures Held(rows', Settled) >= Held(rows, Settled) && Held(rows', Released) >= Held(rows, Released)
  {
    if rows != [] {
      var n := |rows| - 1;
      SameAmounts(rows[..n], rows'[..n]);
    }
  }

  /**
   Transitions only move money from open to settled or released: the total over the three
   never changes, and neither settled nor released money ever shrinks.
   */
  lemma ReservedMoneyIsConserved(rows: seq<Row>, ops: seq<Op>)
    requires forall i :: 0 <= i < |rows| ==> rows[i].amount.minorUnits >= 0
    ensures var rows' := Apply(rows, ops);
            && Held(rows', Open) + Held(rows', Settled) + Held(rows', Released)
               == Held(rows, Open) + Held(rows, Settled) + Held(rows, Released)
            && Held(rows', Settled) >= Held(rows, Settled) && Held(rows', Released) >= Held(rows, Released)
  {
    var rows' := Apply(rows, ops);
    if rows == [] {
      EmptyStaysEmpty(ops);
    } else {
      forall i | 0 <= i < |rows|
        ensures |rows'| == |rows| && rows'[i].amount == rows[i].amount
        ensures rows[i].status != Open ==> rows'[i].status == rows[i].status
      {
        FirstTransitionWins(rows, ops, i);
      }
      assert |rows'| == |rows| by { FirstTransitionWins(rows, ops, 0); }
      SameAmounts(rows, rows');
    }
    StatusesPartition(rows);
    StatusesPartition(rows');
  }

  lemma {:induction false} EmptyStaysEmpty(ops: seq<Op>)
    ensures Apply([], ops) == []
  {
    if ops != [] {
      EmptyStaysEmpty(ops[..|ops| - 1]);
    }
  }
}

/** Creating payout batches (internal/payouts/service.go). */
module Payouts {
  import opened Prelude
  import opened Gateways
  import opened Money
  import opened Reference
  import R = Reservations

  datatype Entry = Entry(recipient: string, amount: Money, reference: string, vendor: string)

  const NO_ENTRY: Entry := Entry("", Money(0, ""), "", "")

  /** Days are given by their printed date. */
  datatype Batch = Batch(id: string, product: string, entries: seq<Entry>, total: Money, day: string, key: string)

  datatype CreateRequest = CreateRequest(product: string, entries: seq<Entry>, key: string, day: string)

  datatype CreateError = InvalidRequest | MixedCurrencies | Conflict | CheckFailed

  // ---------------------------------------------------------------- creation

  function Accumulate(entries: seq<Entry>): (r: Result<Money, CreateError>)
    ensures r.Err? ==> r.error == InvalidRequest || r.error == MixedCurrencies
  {
    if entries == [] then Ok(Money(0, ""))
    else
      match Accumulate(entries[..|entries| - 1])
      case Err(e) => Err(e)
      case Ok(total) =>
        var amount := entries[|entries| - 1].amount;
        if amount.IsNegative() || amount.IsZero() then Err(InvalidRequest)
        else
          match Add(total, amount)
          case Err(_) => Err(MixedCurrencies)
          case Ok(t) => Ok(t)
  }

  /** The reference of entry `i`: its own, or a generated one. */
  function EntryReference(product: string, e: Entry, ulid: string): string {
    if e.reference == "" then BuildReference(product, MOOLRE, ulid) else e.reference
  }

  function BatchEntries(req: CreateRequest, ulids: nat -> string): seq<Entry> {
    seq(|req.entries|, i requires 0 <= i < |req.entries| =>
      req.entries[i].(reference := EntryReference(req.product, req.entries[i], ulids(i))))
  }

  /** A stored entry pays what was requested to whom it was requested, under its own reference or a generated one. */
  ghost predicate IsEntryOf(e: Entry, requested: Entry, product: string, ulid: string) {
    && e.recipient == requested.recipient && e.amount == requested.amount && e.vendor == requested.vendor
    && (requested.reference != "" ==> e.reference == requested.reference)
    && (requested.reference == "" && product != "" && DASH !in ulid ==>
          ParseReference(e.reference) == Some(Parsed(product, "moolre", ulid)))
  }

  ghost predicate IsBatchOf(b: Batch, req: CreateRequest, id: string, ulids: nat -> string) {
    && b.id == id && b.product == req.product && b.day == req.day && b.key == req.key
    && |b.entries| == |req.entries|
    && forall i :: 0 <= i < |b.entries| ==> IsEntryOf(b.entries[i], req.entries[i], req.product, ulids(i))
  }

  /** The database's unique index on (product, day, key), for batches that carry a key. */
  predicate Conflicts(batches: map<string, Batch>, b: Batch) {
    b.key != "" && exists id <- batches ::
      batches[id].product == b.product && batches[id].day == b.day && batches[id].key == b.key
  }

  /** One open reservation per entry, under ids of their own. */
  function RowsFor(b: Batch, ids: nat -> string): seq<R.Row> {
    seq(|b.entries|, i requires 0 <= i < |b.entries| => R.Row(ids(i), b.id, b.entries[i].amount, R.Open))
  }

  function NewBatch(req: CreateRequest, id: string, ulids: nat -> string, total: Money): Batch {
    Batch(id, req.product, BatchEntries(req, ulids), total, req.day, req.key)
  }

  function CreateResult(batches: map<string, Batch>, req: CreateRequest, id: string, ulids: nat -> string)
    : Result<Batch, CreateError>
  {
    if req.product == "" || req.entries == [] then Err(InvalidRequest)
    else
      match Accumulate(req.entries)
      case Err(e) => Err(e)
      case Ok(total) =>
        var b := NewBatch(req, id, ulids, total);
        if total.minorUnits <= 0 then Err(CheckFailed)
        else if id in batches || Conflicts(batches, b) then Err(Conflict)
        else Ok(b)
  }

  /** Which constraint, if any, stops a batch from being stored. */
  function StoreResult(batches: map<string, Batch>, b: Batch): Result<(), CreateError> {
    if b.total.minorUnits <= 0 then Err(CheckFailed)
    else if b.id in batches || Conflicts(batches, b) then Err(Conflict)
    else if exists e <- b.entries :: e.amount.minorUnits <= 0 then Err(CheckFailed)
    else Ok(())
  }

  /** The batch tables; both are written in one transaction. */
  class BatchStore {
    const table: R.Table
    var batches: map<string, Batch>

    constructor (table: R.Table)
      ensures this.table == table && batches == map[]
    {
      this.table, batches := table, map[];
    }

    /**
     The CHECKs on the amounts and the unique index each roll the whole transaction back;
     PostgreSQL checks a row before it enters it into an index.
     */
    method CreateBatchWithReservations(b: Batch, ids: nat -> string) returns (r: Result<(), CreateError>)
      modifies this, table
      ensures r == StoreResult(old(batches), b)
      ensures r.Err? ==> batches == old(batches) && table.rows == old(table.rows)
      ensures r.Ok? ==> batches == old(batches)[b.id := b] && table.rows == old(table.rows) + RowsFor(b, ids)
    {
      if b.total.minorUnits <= 0 {
        return Err(CheckFailed);
      }
      if b.id in batches || Conflicts(batches, b) {
        return Err(Conflict);
      }
      var batchesBefore, rowsBefore := batches, table.rows;
      batches := batches[b.id := b];
      for i := 0 to |b.entries|
        invariant table.rows == old(table.rows) + RowsFor(b, ids)[..i]
        invariant batches == old(batches)[b.id := b]
        invariant forall k :: 0 <= k < i ==> b.entries[k].amount.minorUnits > 0
      {
        if b.entries[i].amount.minorUnits <= 0 {
          assert b.entries[i] in b.entries;
          batches, table.rows := batchesBefore, rowsBefore;
          return Err(CheckFailed);
        }
        table.rows := table.rows + [R.Row(ids(i), b.id, b.entries[i].amount, R.Open)];
      }
      return Ok(());
    }
  }

  class BatchCreator {
    const store: BatchStore

    constructor (store: BatchStore)
      ensures this.store == store
    {
      this.store := store;
    }

    method Create(req: CreateRequest, id: string, ulids: nat -> string, ids: nat -> string)
      returns (r: Result<Batch, CreateError>)
      modifies store, store.table
      ensures r == CreateResult(old(store.batches), req, id, ulids)
      ensures r.Ok? ==> IsBatchOf(r.value, req, id, ulids)
      ensures r.Ok? ==> store.batches == old(store.batches)[id := r.value]
      ensures r.Ok? ==> store.table.rows == old(store.table.rows) + RowsFor(r.value, ids)
      ensures r.Err? ==> store.batches == old(store.batches) && store.table.rows == old(store.table.rows)
    {
      if req.product == "" || |req.entries| == 0 {
        return Err(InvalidRequest);
      }
      var total := TotalOf(req.entries);
      if total.Err? {
        return Err(total.error);
      }
      var entries := WithReferences(req, ulids);
      var batch := Batch(id, req.product, entries, total.value, req.day, req.key);
      assert batch == NewBatch(req, id, ulids, total.value);
      EntriesAreRequested(req, ulids);
      forall e <- entries ensures e.amount.minorUnits > 0 {
        TotalExistsIff(req.entries);
        var k :| 0 <= k < |entries| && entries[k] == e;
        assert req.entries[k] in req.entries;
      }
      var stored := store.CreateBatchWithReservations(batch, ids);
      if stored.Err? {
        return Err(stored.error);
      }
      return Ok(batch);
    }

    /** The first loop of Create: check and add up. */
    method TotalOf(es: seq<Entry>) returns (r: Result<Money, CreateError>)
      ensures r == Accumulate(es)
    {
      var total := Money(0, "");
      for i := 0 to |es|
        invariant Accumulate(es[..i]) == Ok(total)
      {
        assert es[..i + 1][..i] == es[..i];
        if es[i].amount.IsNegative() || es[i].amount.IsZero() {
          ErrorIsFinal(es, i + 1);
          return Err(InvalidRequest);
        }
        var sum := Add(total, es[i].amount);
        if sum.Err? {
          ErrorIsFinal(es, i + 1);
          return Err(MixedCurrencies);
        }
        total := sum.value;
      }
      assert es[..|es|] == es;
      return Ok(total);
    }

    /** The second loop: every entry gets a reference. */
    method WithReferences(req: CreateRequest, ulids: nat -> string) returns (entries: seq<Entry>)
      ensures entries == BatchEntries(req, ulids)
      ensures |entries| == |req.entries|
      ensures forall i :: 0 <= i < |entries| ==> IsEntryOf(entries[i], req.entries[i], req.product, ulids(i))
    {
      var es := req.entries;
      ghost var want := BatchEntries(req, ulids);
      var filled := new Entry[|es|](_ => NO_ENTRY);
      for i := 0 to |es|
        invariant forall k :: 0 <= k < i ==> filled[k] == want[k]
      {
        var ref := es[i].reference;
        if ref == "" {
          ref := BuildReference(req.product, MOOLRE, ulids(i));
        }
        assert want[i] == es[i].(reference := EntryReference(req.product, es[i], ulids(i)));
        filled[i] := Entry(es[i].recipient, es[i].amount, ref, es[i].vendor);
      }
      EntriesAreRequested(req, ulids);
      entries := filled[..];
    }
  }

  lemma {:induction false} ErrorIsFinal(entries: seq<Entry>, n: nat)
    requires n <= |entries| && Accumulate(entries[..n]).Err?
    ensures Accumulate(entries) == Accumulate(entries[..n])
  {
    if n < |entries| {
      var before := entries[..|entries| - 1];
      assert before[..n] == entries[..n];
      ErrorIsFinal(before, n);
    } else {
      assert entries[..n] == entries;
    }
  }

  lemma EntryIsRequested(product: string, e: Entry, ulid: string)
    ensures IsEntryOf(e.(reference := EntryReference(product, e, ulid)), e, product, ulid)
  {
    hide ParseReference, BuildReference;
    if product != "" && DASH !in ulid {
      ParseOfBuilt(product, MOOLRE, ulid);
    }
  }

  lemma EntriesAreRequested(req: CreateRequest, ulids: nat -> string)
    ensures forall i :: 0 <= i < |req.entries| ==>
              IsEntryOf(BatchEntries(req, ulids)[i], req.entries[i], req.product, ulids(i))
  {
    hide IsEntryOf;
    forall i | 0 <= i < |req.entries|
      ensures IsEntryOf(BatchEntries(req, ulids)[i], req.entries[i], req.product, ulids(i))
    {
      EntryIsRequested(req.product, req.entries[i], ulids(i));
    }
  }

  /** A created batch is the requested one, and its reservations are its amounts, open, under ids of their own. */
  lemma CreatedBatchIsRequested(batches: map<string, Batch>, req: CreateRequest, id: string, ulids: nat -> string,
                                ids: nat -> string)
    requires CreateResult(batches, req, id, ulids).Ok?
    ensures var b := CreateResult(batches, req, id, ulids).value;
            && IsBatchOf(b, req, id, ulids)
            && |RowsFor(b, ids)| == |req.entries|
            && forall i :: 0 <= i < |req.entries| ==>
                 RowsFor(b, ids)[i] == R.Row(ids(i), id, req.entries[i].amount, R.Open)
  {
    hide IsEntryOf, EntryReference;
    EntriesAreRequested(req, ulids);
    var b := CreateResult(batches, req, id, ulids).value;
    forall i | 0 <= i < |req.entries| ensures b.entries[i].amount == req.entries[i].amount {
      EntryIsRequested(req.product, req.entries[i], ulids(i));
    }
  }

  lemma LastFault(entries: seq<Entry>)
    requires entries != [] && Accumulate(entries[..|entries| - 1]).Ok? && Accumulate(entries).Err?
    ensures Accumulate(entries).error
         == if entries[|entries| - 1].amount.minorUnits <= 0 then InvalidRequest else MixedCurrencies
  {
    hide Add;
  }

  /** The first entry that cannot be added decides the error: its amount is not positive, or its currency differs. */
  lemma {:induction false} FirstFaultDecides(entries: seq<Entry>) returns (i: nat)
    requires Accumulate(entries).Err?
    ensures i < |entries| && Accumulate(entries[..i]).Ok? && Accumulate(entries[..i + 1]).Err?
    ensures Accumulate(entries).error == if entries[i].amount.minorUnits <= 0 then InvalidRequest else MixedCurrencies
  {
    hide Add;
    var n := |entries| - 1;
    if Accumulate(entries[..n]).Err? {
      i := FirstFaultDecides(entries[..n]);
      assert entries[..n][..i] == entries[..i] && entries[..n][..i + 1] == entries[..i + 1];
    } else {
      i := n;
      assert entries[..n + 1] == entries;
      LastFault(entries);
    }
  }

  /** How a creation fails: request, amounts and currencies, the CHECK on the total, the unique index, in this order. */
  lemma CreationError(batches: map<string, Batch>, req: CreateRequest, id: string, ulids: nat -> string)
    ensures var r := CreateResult(batches, req, id, ulids);
            var taken := id in batches || (req.key != "" && exists i <- batches ::
              batches[i].product == req.product && batches[i].day == req.day && batches[i].key == req.key);
            if req.product == "" || req.entries == [] then r == Err(InvalidRequest)
            else if Accumulate(req.entries).Err? then r.Err? && r.error == Accumulate(req.entries).error
            else if Accumulate(req.entries).value.minorUnits <= 0 then r == Err(CheckFailed)
            else if taken then r == Err(Conflict)
            else r.Ok? && r.value.total == Accumulate(req.entries).value
  {
    hide Accumulate;
  }

  /** A batch is stored exactly when its total and amounts are positive and neither its id nor its key is taken. */
  lemma StoredIff(batches: map<string, Batch>, b: Batch)
    ensures StoreResult(batches, b).Ok? <==>
              && b.total.minorUnits > 0 && (forall e <- b.entries :: e.amount.minorUnits > 0)
              && b.id !in batches
              && (b.key != "" ==> forall i <- batches ::
                    batches[i].product != b.product || batches[i].day != b.day || batches[i].key != b.key)
  {
  }

  function Sum(entries: seq<Entry>): int {
    if entries == [] then 0 else Sum(entries[..|entries| - 1]) + entries[|entries| - 1].amount.minorUnits
  }

  ghost predicate Positive(entries: seq<Entry>) {
    forall e <- entries :: e.amount.minorUnits > 0
  }

  ghost predicate OneCurrency(entries: seq<Entry>) {
    forall d, e :: d in entries && e in entries && d.amount.currency != "" && e.amount.currency != "" ==>
      d.amount.currency == e.amount.currency
  }

  /** `c` is the currency named by the entries, empty if none names one. */
  ghost predicate IsCurrencyOf(c: Currency, entries: seq<Entry>) {
    && (forall e <- entries :: e.amount.currency == "" || e.amount.currency == c)
    && (c != "" ==> exists e <- entries :: e.amount.currency == c)
  }

  /**
   A batch can be totalled exactly when every amount is positive and no two entries name
   different currencies; the total is then the sum, truncated to 64 bits, in the currency
   they name.
   */
  lemma {:induction false} TotalExistsIff(entries: seq<Entry>)
    ensures Accumulate(entries).Ok? <==> Positive(entries) && OneCurrency(entries)
    ensures Accumulate(entries).Ok? ==>
              && Accumulate(entries).value.minorUnits == Wrap64(Sum(entries))
              && IsCurrencyOf(Accumulate(entries).value.currency, entries)
  {
    if entries != [] {
      var n := |entries| - 1;
      assert entries == entries[..n] + [entries[n]];
      TotalExistsIff(entries[..n]);
      TotalNext(entries[..n], entries[n]);
    }
  }

  lemma TotalNext(before: seq<Entry>, e: Entry)
    requires var t := Accumulate(before); t.Ok? <==> Positive(before) && OneCurrency(before)
    requires var t := Accumulate(before);
             t.Ok? ==> t.value.minorUnits == Wrap64(Sum(before)) && IsCurrencyOf(t.value.currency, before)
    ensures var t := Accumulate(before + [e]); t.Ok? <==> Positive(before + [e]) && OneCurrency(before + [e])
    ensures var t := Accumulate(before + [e]);
            t.Ok? ==> t.value.minorUnits == Wrap64(Sum(before + [e])) && IsCurrencyOf(t.value.currency, before + [e])
  {
    hide Accumulate, Add, Wrap64, Sum;
    var entries, t := before + [e], Accumulate(before);
    AccumulateLast(before, e);
    SumLast(before, e);
    assert forall x :: x in entries <==> x in before || x == e;
    if t.Ok? {
      WrapAbsorbs(Sum(before), e.amount.minorUnits);
      var c := t.value.currency;
      if d :| d in before && d.amount.currency == c && c != "" {
        assert d in entries;
      }
    }
  }

  lemma AccumulateLast(before: seq<Entry>, e: Entry)
    ensures var t, r := Accumulate(before), Accumulate(before + [e]);
            && (r.Ok? <==>
                  && t.Ok? && e.amount.minorUnits > 0
                  && (t.value.currency == "" || e.amount.currency in {"", t.value.currency}))
            && (r.Ok? ==>
                  && r.value.minorUnits == Wrap64(t.value.minorUnits + e.amount.minorUnits)
                  && r.value.currency == if t.value.currency == "" then e.amount.currency else t.value.currency)
  {
    assert (before + [e])[..|before|] == before;
  }

  lemma SumLast(before: seq<Entry>, e: Entry)
    ensures Sum(before + [e]) == Sum(before) + e.amount.minorUnits
  {
    assert (before + [e])[..|before|] == before;
  }

  /** The recorded total is the true sum exactly when the sum fits in 64 bits. */
  lemma {:induction false} TotalIsSumIff(entries: seq<Entry>)
    requires Accumulate(entries).Ok?
    ensures Accumulate(entries).value.minorUnits == Sum(entries) <==> Sum(entries) < TWO63
  {
    TotalExistsIff(entries);
    SumNonNegative(entries);
  }

  lemma {:induction false} SumNonNegative(entries: seq<Entry>)
    requires Positive(entries)
    ensures Sum(entries) >= 0
  {
    if entries != [] {
      SumNonNegative(entries[..|entries| - 1]);
    }
  }

  lemma {:induction false} SumWithout(entries: seq<Entry>, i: nat)
    requires i < |entries|
    ensures Sum(entries) == Sum(entries[..i] + entries[i + 1..]) + entries[i].amount.minorUnits
  {
    var n := |entries| - 1;
    if i == n {
      assert entries[..i] + entries[i + 1..] == entries[..n];
    } else {
      SumWithout(entries[..n], i);
      var rest := entries[..i] + entries[i + 1..];
      assert rest[..|rest| - 1] == entries[..n][..i] + entries[..n][i + 1..];
    }
  }

  /** A rearrangement holds the last entry somewhere, and the others around it. */
  lemma FindLast(a: seq<Entry>, b: seq<Entry>) returns (i: nat)
    requires a != [] && multiset(a) == multiset(b)
    ensures i < |b| && b[i] == a[|a| - 1]
    ensures multiset(a[..|a| - 1]) == multiset(b[..i] + b[i + 1..])
  {
    var n := |a| - 1;
    assert a == a[..n] + [a[n]];
    assert a[n] in multiset(b);
    i :| 0 <= i < |b| && b[i] == a[n];
    assert b == b[..i] + [b[i]] + b[i + 1..];
    assert multiset(b[..i] + b[i + 1..]) == multiset(b[..i]) + multiset(b[i + 1..]) == multiset(b) - multiset{b[i]};
  }

  lemma {:induction false} SumOfPermutation(a: seq<Entry>, b: seq<Entry>)
    requires multiset(a) == multiset(b)
    ensures Sum(a) == Sum(b)
    decreases |a|
  {
    if a == [] {
      assert |multiset(b)| == 0;
    } else {
      var i := FindLast(a, b);
      SumOfPermutation(a[..|a| - 1], b[..i] + b[i + 1..]);
      SumWithout(b, i);
    }
  }

  /** The order of the entries decides neither whether a batch is accepted nor its total. */
  lemma OrderDoesNotMatter(a: seq<Entry>, b: seq<Entry>)
    requires multiset(a) == multiset(b)
    ensures Accumulate(a).Ok? <==> Accumulate(b).Ok?
    ensures Accumulate(a).Ok? ==> Accumulate(a) == Accumulate(b)
  {
    assert forall e :: e in a <==> e in multiset(a);
    assert forall e :: e in b <==> e in multiset(b);
    assert forall e :: e in a <==> e in b;
    TotalExistsIff(a);
    TotalExistsIff(b);
    SumOfPermutation(a, b);
  }

  lemma {:induction false} RowsTotal(b: Batch, ids: nat -> string, n: nat)
    requires n <= |b.entries|
    ensures R.Held(RowsFor(b, ids)[..n], R.Open) == R.Total(RowsFor(b, ids)[..n]) == Sum(b.entries[..n])
  {
    if n > 0 {
      RowsTotal(b, ids, n - 1);
      assert RowsFor(b, ids)[..n][..n - 1] == RowsFor(b, ids)[..n - 1];
      assert b.entries[..n][..n - 1] == b.entries[..n - 1];
    }
  }

  lemma {:induction false} SameSum(a: seq<Entry>, b: seq<Entry>)
    requires |a| == |b| && forall i :: 0 <= i < |a| ==> a[i].amount == b[i].amount
    ensures Sum(a) == Sum(b)
  {
    if a != [] {
      SameSum(a[..|a| - 1], b[..|b| - 1]);
    }
  }

  /** Whatever a batch is created from, its total is what its open reservations hold, up to 64 bits. */
  lemma TotalIsReserved(req: CreateRequest, id: string, ulids: nat -> string, ids: nat -> string, total: Money)
    requires Accumulate(req.entries) == Ok(total)
    ensures var b := NewBatch(req, id, ulids, total);
            && total.minorUnits == Wrap64(R.Held(RowsFor(b, ids), R.Open))
            && (Sum(req.entries) < TWO63 ==> total.minorUnits == R.Held(RowsFor(b, ids), R.Open))
  {
    var b := NewBatch(req, id, ulids, total);
    RowsTotal(b, ids, |b.entries|);
    assert RowsFor(b, ids)[..|b.entries|] == RowsFor(b, ids) && b.entries[..|b.entries|] == b.entries;
    SameSum(req.entries, b.entries);
    TotalExistsIff(req.entries);
    TotalIsSumIff(req.entries);
  }

  /**
   As long as the sum fits in 64 bits, a batch under a new id and key is refused exactly
   for a missing product, no entries, an amount that is not positive or two currencies;
   and a second batch under the same product, day and key is always refused.
   */
  lemma CreationFailsIff(batches: map<string, Batch>, req: CreateRequest, id: string, ulids: nat -> string)
    requires id !in batches && Sum(req.entries) < TWO63
    ensures var taken := req.key != "" && exists i <- batches ::
                  batches[i].product == req.product && batches[i].day == req.day && batches[i].key == req.key;
            CreateResult(batches, req, id, ulids).Err? <==>
              req.product == "" || req.entries == [] || !Positive(req.entries) || !OneCurrency(req.entries) || taken
  {
    TotalExistsIff(req.entries);
    if Accumulate(req.entries).Ok? && req.entries != [] {
      TotalIsSumIff(req.entries);
      var n := |req.entries| - 1;
      SumNonNegative(req.entries[..n]);
      assert req.entries[n] in req.entries;
    }
  }

  /** The outbox key of an entry, with its fallback to the recipient. */
  function OutboxKey(e: Entry, day: string, key: string): string {
    var own := e.vendor + ":" + day;
    var scoped := if own == ":" then e.recipient + ":" + day else own;
    if key != "" then key + ":" + scoped else scoped
  }

  /**
   The fallback tests the key with the date already in it, so it is never taken: entries
   share an outbox key exactly when they share a vendor, and all those without one do.
   */
  lemma OutboxKeysCollideIff(d: Entry, e: Entry, day: string, key: string)
    requires day != ""
    ensures OutboxKey(d, day, key) == OutboxKey(e, day, key) <==> d.vendor == e.vendor
  {
    var tail := ":" + day;
    assert d.vendor + ":" + day == d.vendor + tail && e.vendor + ":" + day == e.vendor + tail;
    if OutboxKey(d, day, key) == OutboxKey(e, day, key) {
      if key != "" {
        var head := key + ":";
        assert (head + (d.vendor + ":" + day))[|head|..] == d.vendor + ":" + day;
        assert (head + (e.vendor + ":" + day))[|head|..] == e.vendor + ":" + day;
      }
      CancelSuffix(d.vendor, e.vendor, tail);
    }
  }
}
