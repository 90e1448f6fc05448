/**
 The two settlement programs themselves: webhooks.Service.Process
 (internal/webhooks/webhooks.go) and worker.DrainOutbox with processOne
 (internal/worker/worker.go). Whatever a gateway answers is an argument.
 */
module Settlement {
  import opened Prelude
  import opened Gateways
  import opened Money
  import opened Store
  import opened Lease
  import opened Valkey
  import opened Protocol

  const WORKER_TTL: int := 60 * SECOND
  const BATCH: nat := 50

  /** What each gateway would answer when asked about a reference. */
  type Verify = (Gateway, string) -> Verdict

  datatype Delivery = Delivery(eventId: string, ref: string)

  datatype Processed = Done | Duplicate | UnknownRef | NoAdapter | VerifyFailed

  /** Process on a delivery whose payload parses. */
  function ProcessSpec(s: State, adapters: set<Gateway>, verify: Verify, d: Delivery): (State, Processed) {
    if d.eventId in s.inbox then (s, Duplicate)
    else if d.ref !in s.intents then (s, UnknownRef)
    else
      var intent := s.intents[d.ref];
      var recorded := s.(inbox := s.inbox + {d.eventId});
      if intent.status != Pending then (recorded, Done)
      else if intent.gateway !in adapters then (s, NoAdapter)
      else
        match verify(intent.gateway, d.ref)
        case Unavailable => (s, VerifyFailed)
        case Answered(answer) => (HookOutcome(recorded, d.ref, intent, answer), Done)
  }

  function ZeroAmount(status: Status, now: int): Answer {
    Answer(status, Money(0, ""), now)
  }

  /** processOne once the lock is taken. */
  function ProcessOneSpec(s: State, adapters: set<Gateway>, verify: Verify, ev: Event, now: int): State {
    if ev.gateway !in adapters then s
    else
      match ViewIntent(s, ev.ref)
      case None => FailedState(s, ev.id, ev.ref)
      case Some(view) =>
        if view.status != Pending then WorkOutcome(s, ev, view, ZeroAmount(view.status, now))
        else
          match verify(ev.gateway, ev.ref)
          case Unavailable => s
          case Answered(answer) => WorkOutcome(s, ev, view, answer)
  }

  // ---------------------------------------------------------------- what the two programs do, case by case

  /** A webhook's entry: the verified amount, zero or not, at the verified time. */
  ghost function Collected(answer: Answer, intent: Intent): (e: Entry)
    ensures e.kind == Collection && e.amount == answer.amount && e.product == intent.product && e.valueTime == answer.at
  {
    Entry(Collection, answer.amount, intent.product, answer.at)
  }

  /** A delivery: recorded only if it takes effect, and then the intent follows the gateway's answer. */
  lemma DeliveryEffect(s: State, adapters: set<Gateway>, verify: Verify, d: Delivery)
    ensures var (s', r) := ProcessSpec(s, adapters, verify, d);
            if d.eventId in s.inbox then s' == s && r == Duplicate
            else if d.ref !in s.intents then s' == s && r == UnknownRef
            else
              var intent := s.intents[d.ref];
              var recorded := s.(inbox := s.inbox + {d.eventId});
              var verdict := verify(intent.gateway, d.ref);
              if intent.status != Pending then s' == recorded && r == Done
              else if intent.gateway !in adapters then s' == s && r == NoAdapter
              else if verdict.Unavailable? then s' == s && r == VerifyFailed
              else if verdict.answer.status == Pending then s' == recorded && r == Done
              else
                && r == Done && s'.inbox == s.inbox + {d.eventId}
                && s'.outbox == s.outbox && s'.idemKeys == s.idemKeys
                && s'.intents == s.intents[d.ref := Intent(intent.gateway, verdict.answer.status, intent.product,
                                                           intent.authorizationURL)]
                && forall ref: string ::
                     Entries(s', ref) == Entries(s, ref)
                                         + if ref == d.ref && verdict.answer.status == Succeeded
                                           then [Collected(verdict.answer, intent)] else []
  {
    if d.ref in s.intents {
      var intent := s.intents[d.ref];
      var verdict := verify(intent.gateway, d.ref);
      if verdict.Answered? {
        HookWrites(s.(inbox := s.inbox + {d.eventId}), d.ref, intent, verdict.answer);
      }
    }
  }

  /** What the worker learns of a charge: the status already stored, else the gateway's answer. */
  ghost function Learned(s: State, verify: Verify, ev: Event, now: int): Option<Answer>
    requires ev.ref in s.intents
  {
    var status, verdict := s.intents[ev.ref].status, verify(ev.gateway, ev.ref);
    if status != Pending then Some(Answer(status, Money(0, ""), now))
    else if verdict.Answered? && verdict.answer.status != Pending then Some(verdict.answer)
    else None
  }

  /** Working a stored event: event and charge take the status learned, and a success is booked with a real amount. */
  lemma WorkEffect(s: State, adapters: set<Gateway>, verify: Verify, ev: Event, now: int)
    requires ev.id in s.outbox
    ensures var s' := ProcessOneSpec(s, adapters, verify, ev, now);
            if ev.gateway !in adapters then s' == s
            else if ev.ref !in s.intents then Writes(s, s', ev.id, ev.ref, Failed, [])
            else
              match Learned(s, verify, ev, now)
              case None => s' == s
              case Some(answer) =>
                var product, shown := s.intents[ev.ref].product, ShownAmount(Entries(s, ev.ref));
                var amount := if answer.amount.minorUnits != 0 then answer.amount else shown;
                Writes(s, s', ev.id, ev.ref, answer.status,
                       if answer.status == Succeeded then [Entry(Collection, amount, product, answer.at)] else [])
  {
    hide Writes, SucceededState, FailedState, IntentAmount;
    FailureBooksNothing(s, ev.id, ev.ref);
    ViewIs(s, ev.ref);
    if ev.ref in s.intents {
      var view := ViewIntent(s, ev.ref).value;
      if answer: Answer :| Learned(s, verify, ev, now) == Some(answer) {
        CompletionBooks(s, ev.id, ev.ref, answer, view);
      }
    }
  }

  class WebhookService {
    const store: MemoryStore
    const adapters: set<Gateway>

    constructor (store: MemoryStore, adapters: set<Gateway>)
      ensures this.store == store && this.adapters == adapters
    {
      this.store, this.adapters := store, adapters;
    }

    method Process(d: Delivery, verify: Verify) returns (r: Processed)
      modifies store
      ensures (store.St(), r) == ProcessSpec(old(store.St()), adapters, verify, d)
    {
      var inserted := store.InsertWebhookInbox(d.eventId);
      if !inserted {
        assert old(store.St()).inbox + {d.eventId} == old(store.St()).inbox;
        return Duplicate;
      }
      assert old(store.St()).inbox + {d.eventId} - {d.eventId} == old(store.St()).inbox;
      var found := store.FindIntent(d.ref);
      if found.Err? {
        store.DeleteWebhookInbox(d.eventId);
        return UnknownRef;
      }
      var intent := found.value;
      if intent.status != Pending {
        return Done;
      }
      if intent.gateway !in adapters {
        store.DeleteWebhookInbox(d.eventId);
        return NoAdapter;
      }
      match verify(intent.gateway, d.ref) {
        case Unavailable =>
          store.DeleteWebhookInbox(d.eventId);
          return VerifyFailed;
        case Answered(verified) =>
          match verified.status {
            case Succeeded =>
              var entry := Entry(Collection, verified.amount, intent.product, verified.at);
              var applied := store.ApplyChargeOutcome(d.ref, Succeeded, [entry]);
            case Failed =>
              var applied := store.ApplyChargeOutcome(d.ref, Failed, []);
            case Pending =>
          }
          return Done;
      }
    }
  }

  // ---------------------------------------------------------------- worker

  datatype WorkError = LockFailed | CompleteFailed

  /** The inputs a drain meets on its way: one clock reading, lock reply and answer per event. */
  datatype Inputs = Inputs(clock: nat -> int, broken: nat -> bool, verify: nat -> Verify)

  function LockKey(ev: Event): string {
    "outbox:" + ev.id
  }

  /** Store and lock table; no table when there is no locker or it has no client. */
  datatype World = World(s: State, locks: Option<Locks>)

  predicate Admits(w: World, ev: Event, now: int, broken: bool) {
    w.locks.Some? ==> !broken && !Held(w.locks.value, LockKey(ev), now)
  }

  /** processOne with its lock: afterwards the key is free again. */
  function WorkSpec(w: World, adapters: set<Gateway>, verify: Verify, ev: Event, now: int, broken: bool): World {
    if !Admits(w, ev, now, broken) then w
    else
      World(ProcessOneSpec(w.s, adapters, verify, ev, now),
            if w.locks.None? then None else Some(w.locks.value - {LockKey(ev)}))
  }

  /** The error processOne returns: its lock broke, or the event to complete is gone. */
  function WorkResult(w: World, adapters: set<Gateway>, verify: Verify, ev: Event, now: int, broken: bool)
    : Result<(), WorkError>
  {
    if w.locks.Some? && broken then Err(LockFailed)
    else if Admits(w, ev, now, broken) then LockedResult(w.s, adapters, verify, ev)
    else Ok(())
  }

  function LockedResult(s: State, adapters: set<Gateway>, verify: Verify, ev: Event): Result<(), WorkError> {
    if ev.gateway in adapters && ev.ref in s.intents && s.intents[ev.ref].status == Pending && ev.id !in s.outbox
       && verify(ev.gateway, ev.ref).Answered? && verify(ev.gateway, ev.ref).answer.status == Succeeded
    then Err(CompleteFailed)
    else Ok(())
  }

  /** The claimed events from first to last. */
  function DrainSpec(w: World, adapters: set<Gateway>, events: seq<Event>, inputs: Inputs): World {
    if events == [] then w
    else
      var n := |events| - 1;
      WorkSpec(DrainSpec(w, adapters, events[..n], inputs), adapters, inputs.verify(n), events[n],
               inputs.clock(n), inputs.broken(n))
  }

  /** How many of them ended without an error. */
  function DrainCount(w: World, adapters: set<Gateway>, events: seq<Event>, inputs: Inputs): nat {
    if events == [] then 0
    else
      var n := |events| - 1;
      var before := DrainSpec(w, adapters, events[..n], inputs);
      DrainCount(w, adapters, events[..n], inputs)
      + if WorkResult(before, adapters, inputs.verify(n), events[n], inputs.clock(n), inputs.broken(n)).Ok? then 1
        else 0
  }

  /**
   Whether a call of processOne works its event: always without a connected locker; else
   when Valkey answers and no unexpired lock is on the event. The lock is free afterwards.
   */
  lemma WorkHappensIff(w: World, adapters: set<Gateway>, verify: Verify, ev: Event, now: int, broken: bool)
    ensures var w' := WorkSpec(w, adapters, verify, ev, now, broken);
            var key := "outbox:" + ev.id;
            && (w.locks.None? ==> w' == World(ProcessOneSpec(w.s, adapters, verify, ev, now), None))
            && (w.locks.Some? ==>
                  var locks := w.locks.value;
                  if broken || (key in locks && now < locks[key]) then w' == w
                  else w' == World(ProcessOneSpec(w.s, adapters, verify, ev, now), Some(locks - {key})))
  {
  }

  /** A call fails only on a broken lock command, or when the gateway confirms a charge whose event is gone. */
  lemma WorkFailsIff(w: World, adapters: set<Gateway>, verify: Verify, ev: Event, now: int, broken: bool)
    ensures var r := WorkResult(w, adapters, verify, ev, now, broken);
            var key, verdict := "outbox:" + ev.id, verify(ev.gateway, ev.ref);
            && (r == Err(LockFailed) <==> w.locks.Some? && broken)
            && (r == Err(CompleteFailed) <==>
                  && (w.locks.Some? ==> !broken && !(key in w.locks.value && now < w.locks.value[key]))
                  && ev.gateway in adapters && ev.id !in w.s.outbox
                  && ev.ref in w.s.intents && w.s.intents[ev.ref].status == Pending
                  && verdict.Answered? && verdict.answer.status == Succeeded)
  {
  }

  /** Events whose lock command does not break. */
  ghost function Unbroken(events: seq<Event>, inputs: Inputs): nat {
    if events == [] then 0
    else Unbroken(events[..|events| - 1], inputs) + if inputs.broken(|events| - 1) then 0 else 1
  }

  /** A drain never loses an event, so it counts every one whose lock command it did not see break. */
  lemma {:induction false} DrainCounts(w: World, adapters: set<Gateway>, events: seq<Event>, inputs: Inputs)
    requires IdsOf(events) <= w.s.outbox.Keys
    ensures DrainSpec(w, adapters, events, inputs).s.outbox.Keys == w.s.outbox.Keys
    ensures DrainSpec(w, adapters, events, inputs).locks.Some? == w.locks.Some?
    ensures DrainCount(w, adapters, events, inputs) == if w.locks.Some? then Unbroken(events, inputs) else |events|
  {
    hide ProcessOneSpec;
    if events != [] {
      var n := |events| - 1;
      assert events[n].id in IdsOf(events) && forall id <- IdsOf(events[..n]) :: id in IdsOf(events);
      DrainCounts(w, adapters, events[..n], inputs);
      var s := DrainSpec(w, adapters, events[..n], inputs).s;
      WorkKeepsEvents(s, adapters, inputs.verify(n), events[n], inputs.clock(n));
    }
  }

  lemma OutcomeKeepsEvents(s: State, ev: Event, view: WorkerIntent, answer: Answer)
    ensures WorkOutcome(s, ev, view, answer).outbox.Keys == s.outbox.Keys
  {
    hide Entries, SettledAmount;
  }

  lemma WorkKeepsEvents(s: State, adapters: set<Gateway>, verify: Verify, ev: Event, now: int)
    ensures ProcessOneSpec(s, adapters, verify, ev, now).outbox.Keys == s.outbox.Keys
  {
    hide WorkOutcome, IntentAmount;
    if view: WorkerIntent :| ViewIntent(s, ev.ref) == Some(view) {
      OutcomeKeepsEvents(s, ev, view, ZeroAmount(view.status, now));
      if verify(ev.gateway, ev.ref).Answered? {
        OutcomeKeepsEvents(s, ev, view, verify(ev.gateway, ev.ref).answer);
      }
    }
  }

  class OutboxWorker {
    const store: MemoryStore
    const locker: Locker?
    const adapters: set<Gateway>

    constructor (store: MemoryStore, locker: Locker?, adapters: set<Gateway>)
      ensures this.store == store && this.locker == locker && this.adapters == adapters
    {
      this.store, this.locker, this.adapters := store, locker, adapters;
    }

    function Frame(): set<object>
    {
      if locker == null then {store} else {store, locker}
    }

    function Here(): World
      reads Frame()
    {
      World(store.St(), if locker == null || !locker.connected then None else Some(locker.locks))
    }

    method ProcessOne(ev: Event, verify: Verify, now: int, broken: bool) returns (r: Result<(), WorkError>)
      modifies Frame()
      ensures Here() == WorkSpec(old(Here()), adapters, verify, ev, now, broken)
      ensures r == WorkResult(old(Here()), adapters, verify, ev, now, broken)
    {
      if locker != null {
        var acquired := locker.TryAcquire(LockKey(ev), WORKER_TTL, now, broken);
        if acquired.Err? {
          return Err(LockFailed);
        }
        if !acquired.value {
          return Ok(());
        }
      }
      r := ProcessLocked(ev, verify, now);
      if locker != null {
        locker.Release(LockKey(ev));
        assert locker.connected ==> locker.locks == old(locker.locks) - {LockKey(ev)};
      }
    }

    /** The body of processOne between acquiring the lock and its deferred release. */
    method ProcessLocked(ev: Event, verify: Verify, now: int) returns (r: Result<(), WorkError>)
      modifies store
      ensures store.St() == ProcessOneSpec(old(store.St()), adapters, verify, ev, now)
      ensures r == LockedResult(old(store.St()), adapters, verify, ev)
    {
      if ev.gateway !in adapters {
        return Ok(());
      }
      var found := store.GetIntent(ev.ref);
      if found.None? {
        store.CompleteFailed(ev.id, ev.ref);
        return Ok(());
      }
      var intent := found.value;
      if intent.status == Succeeded || intent.status == Failed {
        var res := Answer(intent.status, Money(0, ""), now);
        if intent.status == Succeeded {
          var ignored := store.CompleteSucceeded(ev.id, ev.ref, res, intent);
        } else {
          store.CompleteFailed(ev.id, ev.ref);
        }
        return Ok(());
      }
      match verify(ev.gateway, ev.ref) {
        case Unavailable =>
          return Ok(());
        case Answered(verified) =>
          match verified.status {
            case Succeeded =>
              var res := verified;
              if res.amount.IsZero() {
                res := res.(amount := intent.amount);
              }
              var completed := store.CompleteSucceeded(ev.id, ev.ref, res, intent);
              if completed.Err? {
                return Err(CompleteFailed);
              }
            case Failed =>
              store.CompleteFailed(ev.id, ev.ref);
            case Pending =>
          }
          return Ok(());
      }
    }

    /** Claims a batch and works through it; errors of single events are only counted. */
    method DrainOutbox(inputs: Inputs) returns (processed: nat, ghost claimed: seq<Event>)
      requires WellKeyed(store.St())
      modifies Frame()
      ensures IsClaim(old(store.St()), BATCH, claimed)
      ensures Here() == DrainSpec(old(Here()), adapters, claimed, inputs)
      ensures processed == DrainCount(old(Here()), adapters, claimed, inputs)
    {
      hide ProcessOneSpec;
      var events := store.ClaimPending(BATCH);
      claimed := events;
      processed := 0;
      assert events[..0] == [];
      for i := 0 to |events|
        invariant Here() == DrainSpec(old(Here()), adapters, events[..i], inputs)
        invariant processed == DrainCount(old(Here()), adapters, events[..i], inputs)
      {
        var r := ProcessOne(events[i], inputs.verify(i), inputs.clock(i), inputs.broken(i));
        assert events[..i + 1][..i] == events[..i];
        if r.Ok? {
          processed := processed + 1;
        }
      }
      assert events[..|events|] == events;
    }
  }
}
