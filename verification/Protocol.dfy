/**
 Settlement as a concurrent protocol. Webhook deliveries (internal/webhooks/webhooks.go),
 outbox workers (internal/worker/worker.go) and charge initiations interleave on one
 store; reading, asking the gateway and writing are separate steps, any run may stop
 anywhere, and no lock is assumed.
 */
module Protocol {
  import opened Gateways
  import opened Money
  import opened Store

  /** The one terminal answer a gateway ever gives for a reference; `Pending` if none. */
  type Truth = (Gateway, string) -> Status

  datatype Verdict = Answered(answer: Answer) | Unavailable

  /** Where an unfinished run is, with everything it has read so far. */
  datatype Run =
    | Recorded(eventId: string, ref: string)
    | HookRead(eventId: string, ref: string, intent: Intent)
    | HookVerified(eventId: string, ref: string, intent: Intent, answer: Answer)
    | HookRollback(eventId: string)
    | Claimed(ev: Event)
    | WorkMissing(ev: Event)
    | WorkRead(ev: Event, view: WorkerIntent)
    | WorkVerified(ev: Event, view: WorkerIntent, answer: Answer)
    | Charged(ref: string, gw: Gateway)

  datatype Config = Config(s: State, runs: map<nat, Run>)

  const START: Config := Config(EMPTY, map[])

  datatype Step =
    | Deliver(r: nat, eventId: string, ref: string)
    | HookFind(r: nat)
    | HookNoAdapter(r: nat)
    | HookVerify(r: nat, verdict: Verdict)
    | HookSettle(r: nat)
    | HookUndo(r: nat)
    | Claim(r: nat, id: string)
    | WorkFind(r: nat)
    | WorkFailMissing(r: nat)
    | WorkMatch(r: nat, now: int)
    | WorkVerify(r: nat, verdict: Verdict)
    | WorkSettle(r: nat)
    | Create(r: nat, ref: string, product: string, key: string, gw: Gateway, url: string)
    | Enqueue(r: nat, id: string, now: int)
    | PayOut(ref: string, entry: Entry)
    | Reconcile
    | Abandon(r: nat)

  ghost predicate Truthful(truth: Truth, gw: Gateway, ref: string, verdict: Verdict) {
    verdict.Answered? ==> verdict.answer.status == Pending || verdict.answer.status == truth(gw, ref)
  }

  /** When a step can happen. New references and event ids are fresh; gateways do not contradict themselves. */
  ghost predicate Enabled(truth: Truth, c: Config, step: Step) {
    match step
    case Deliver(r, eventId, ref) => r !in c.runs
    case HookFind(r) => r in c.runs && c.runs[r].Recorded?
    case HookNoAdapter(r) => r in c.runs && c.runs[r].HookRead?
    case HookVerify(r, verdict) =>
      r in c.runs && c.runs[r].HookRead? && Truthful(truth, c.runs[r].intent.gateway, c.runs[r].ref, verdict)
    case HookSettle(r) => r in c.runs && c.runs[r].HookVerified?
    case HookUndo(r) => r in c.runs && c.runs[r].HookRollback?
    case Claim(r, id) => r !in c.runs && id in PendingIds(c.s)
    case WorkFind(r) => r in c.runs && c.runs[r].Claimed?
    case WorkFailMissing(r) => r in c.runs && c.runs[r].WorkMissing?
    case WorkMatch(r, now) => r in c.runs && c.runs[r].WorkRead? && c.runs[r].view.status != Pending
    case WorkVerify(r, verdict) =>
      && r in c.runs && c.runs[r].WorkRead? && c.runs[r].view.status == Pending
      && Truthful(truth, c.runs[r].ev.gateway, c.runs[r].ev.ref, verdict)
    case WorkSettle(r) => r in c.runs && c.runs[r].WorkVerified?
    case Create(r, ref, product, key, gw, url) => r !in c.runs && ref !in c.s.intents
    case Enqueue(r, id, now) => r in c.runs && c.runs[r].Charged? && id !in c.s.outbox
    case PayOut(ref, entry) => entry.kind == VendorPayout
    case Reconcile => true
    case Abandon(r) => r in c.runs
  }

  function Ended(c: Config, r: nat, s: State): Config {
    Config(s, c.runs - {r})
  }

  function Moved(c: Config, r: nat, run: Run): Config {
    c.(runs := c.runs[r := run])
  }

  /** The effect of an enabled step. */
  ghost function Do(truth: Truth, c: Config, step: Step): Config
    requires Enabled(truth, c, step)
  {
    var s := c.s;
    match step
    case Deliver(r, eventId, ref) =>
      if eventId in s.inbox then c
      else Config(s.(inbox := s.inbox + {eventId}), c.runs[r := Recorded(eventId, ref)])
    case HookFind(r) =>
      var run := c.runs[r];
      if run.ref !in s.intents then Moved(c, r, HookRollback(run.eventId))
      else if s.intents[run.ref].status != Pending then Ended(c, r, s)
      else Moved(c, r, HookRead(run.eventId, run.ref, s.intents[run.ref]))
    case HookNoAdapter(r) => Moved(c, r, HookRollback(c.runs[r].eventId))
    case HookVerify(r, verdict) =>
      var run := c.runs[r];
      Moved(c, r, if verdict.Unavailable? then HookRollback(run.eventId)
                  else HookVerified(run.eventId, run.ref, run.intent, verdict.answer))
    case HookSettle(r) =>
      var run := c.runs[r];
      Ended(c, r, HookOutcome(s, run.ref, run.intent, run.answer))
    case HookUndo(r) => Ended(c, r, s.(inbox := s.inbox - {c.runs[r].eventId}))
    case Claim(r, id) => Moved(c, r, Claimed(s.outbox[id]))
    case WorkFind(r) =>
      var ev := c.runs[r].ev;
      var view := ViewIntent(s, ev.ref);
      Moved(c, r, if view.None? then WorkMissing(ev) else WorkRead(ev, view.value))
    case WorkFailMissing(r) => Ended(c, r, FailedState(s, c.runs[r].ev.id, c.runs[r].ev.ref))
    case WorkMatch(r, now) =>
      var run := c.runs[r];
      Ended(c, r, WorkOutcome(s, run.ev, run.view, Answer(run.view.status, Money(0, ""), now)))
    case WorkVerify(r, verdict) =>
      var run := c.runs[r];
      if verdict.Unavailable? then Ended(c, r, s)
      else Moved(c, r, WorkVerified(run.ev, run.view, verdict.answer))
    case WorkSettle(r) =>
      var run := c.runs[r];
      Ended(c, r, WorkOutcome(s, run.ev, run.view, run.answer))
    case Create(r, ref, product, key, gw, url) =>
      Config(WithIntent(s, ref, product, key, gw, url), c.runs[r := Charged(ref, gw)])
    case Enqueue(r, id, now) =>
      Ended(c, r, WithOutboxEvent(s, id, c.runs[r].ref, c.runs[r].gw, now))
    case PayOut(ref, entry) => c.(s := WithEntries(s, ref, [entry]))
    case Reconcile => c
    case Abandon(r) => Ended(c, r, s)
  }

  /** What a webhook writes once the gateway has answered. */
  function HookOutcome(s: State, ref: string, intent: Intent, answer: Answer): State {
    if ref !in s.intents then s
    else
      match answer.status
      case Succeeded =>
        WithEntries(WithStatus(s, ref, Succeeded), ref, [Entry(Collection, answer.amount, intent.product, answer.at)])
      case Failed => WithEntries(WithStatus(s, ref, Failed), ref, [])
      case Pending => s
  }

  /** What the worker writes for an event once it knows the status. */
  function WorkOutcome(s: State, ev: Event, view: WorkerIntent, answer: Answer): State {
    match answer.status
    case Succeeded => SucceededState(s, ev.id, ev.ref, answer, view)
    case Failed => FailedState(s, ev.id, ev.ref)
    case Pending => s
  }

  // ---------------------------------------------------------------- executions

  ghost predicate Legal(truth: Truth, c: Config, steps: seq<Step>)
    decreases |steps|, 0
  {
    steps == [] || (
      && Legal(truth, c, steps[..|steps| - 1])
      && Enabled(truth, Execute(truth, c, steps[..|steps| - 1]), steps[|steps| - 1]))
  }

  ghost function Execute(truth: Truth, c: Config, steps: seq<Step>): Config
    requires Legal(truth, c, steps)
    decreases |steps|, 1
  {
    if steps == [] then c
    else Do(truth, Execute(truth, c, steps[..|steps| - 1]), steps[|steps| - 1])
  }

  // ---------------------------------------------------------------- invariant

  /** Collection entries of a reference. */
  function Collections(entries: seq<Entry>): nat {
    if entries == [] then 0
    else Collections(entries[..|entries| - 1]) + if entries[|entries| - 1].kind == Collection then 1 else 0
  }

  ghost predicate IntentInv(truth: Truth, s: State, ref: string)
    requires ref in s.intents
  {
    var i := s.intents[ref];
    && (i.status != Pending ==> i.status == truth(i.gateway, ref))
    && (i.status == Succeeded <==> Collections(Entries(s, ref)) >= 1)
  }

  ghost predicate EventInv(s: State, id: string)
    requires id in s.outbox
  {
    var ev := s.outbox[id];
    && ev.id == id
    && ev.ref in s.intents
    && ev.gateway == s.intents[ev.ref].gateway
    && (ev.status != Pending ==> ev.status == s.intents[ev.ref].status)
  }

  ghost predicate StoreInv(truth: Truth, s: State) {
    && (forall ref <- s.intents :: IntentInv(truth, s, ref))
    && (forall ref :: ref !in s.intents ==> Collections(Entries(s, ref)) == 0)
    && (forall id <- s.outbox :: EventInv(s, id))
  }

  ghost predicate EventKnown(s: State, ev: Event) {
    && ev.id in s.outbox && s.outbox[ev.id].ref == ev.ref && s.outbox[ev.id].gateway == ev.gateway
    && ev.ref in s.intents
  }

  ghost predicate RunInv(truth: Truth, s: State, run: Run) {
    match run
    case Recorded(_, _) => true
    case HookRead(_, ref, intent) => ref in s.intents && s.intents[ref].gateway == intent.gateway
    case HookVerified(_, ref, intent, answer) =>
      && ref in s.intents && s.intents[ref].gateway == intent.gateway
      && Truthful(truth, intent.gateway, ref, Answered(answer))
    case HookRollback(_) => true
    case Claimed(ev) => EventKnown(s, ev)
    case WorkMissing(_) => false
    case WorkRead(ev, view) => EventKnown(s, ev) && (view.status != Pending ==> s.intents[ev.ref].status == view.status)
    case WorkVerified(ev, view, answer) => EventKnown(s, ev) && Truthful(truth, ev.gateway, ev.ref, Answered(answer))
    case Charged(ref, gw) => ref in s.intents && s.intents[ref].gateway == gw
  }

  ghost predicate Inv(truth: Truth, c: Config) {
    && StoreInv(truth, c.s)
    && forall r <- c.runs :: RunInv(truth, c.s, c.runs[r])
  }

  /** Nothing recorded is lost, and whatever is terminal stays as it is. */
  ghost predicate Evolves(s: State, s': State) {
    && (forall ref <- s.intents ::
          && ref in s'.intents
          && s'.intents[ref] == s.intents[ref].(status := s'.intents[ref].status)
          && (s.intents[ref].status != Pending ==> s'.intents[ref].status == s.intents[ref].status))
    && (forall id <- s.outbox ::
          && id in s'.outbox
          && s'.outbox[id] == s.outbox[id].(status := s'.outbox[id].status)
          && (s.outbox[id].status != Pending ==> s'.outbox[id].status == s.outbox[id].status))
  }

  lemma CollectionsAppend(entries: seq<Entry>, e: Entry)
    ensures Collections(entries + [e]) == Collections(entries) + if e.kind == Collection then 1 else 0
  {
    assert (entries + [e])[..|entries|] == entries;
  }

  lemma RunInvStable(truth: Truth, s: State, s': State, run: Run)
    requires RunInv(truth, s, run) && Evolves(s, s')
    ensures RunInv(truth, s', run)
  {
  }

  /** Writing the true terminal status keeps the store sound if the ledger follows it. */
  lemma SettleKeeps(truth: Truth, s: State, s': State, ref: string, status: Status)
    requires StoreInv(truth, s) && ref in s.intents
    requires status != Pending && status == truth(s.intents[ref].gateway, ref)
    requires s'.intents == s.intents[ref := s.intents[ref].(status := status)] && s'.outbox == s.outbox
    requires forall other :: other != ref ==> Entries(s', other) == Entries(s, other)
    requires status == Succeeded ==> Collections(Entries(s', ref)) >= 1
    requires status == Failed ==> Entries(s', ref) == Entries(s, ref)
    ensures StoreInv(truth, s') && Evolves(s, s')
  {
    hide Collections, Entries;
    assert IntentInv(truth, s, ref);
    forall other <- s'.intents ensures IntentInv(truth, s', other) {
      assert other != ref ==> IntentInv(truth, s, other);
    }
    forall id <- s'.outbox ensures EventInv(s', id) {
      assert EventInv(s, id);
    }
  }

  lemma MarkKeeps(truth: Truth, s: State, id: string, status: Status)
    requires StoreInv(truth, s) && id in s.outbox
    requires status != Pending && s.intents[s.outbox[id].ref].status == status
    ensures StoreInv(truth, WithEvent(s, id, status)) && Evolves(s, WithEvent(s, id, status))
  {
    var s' := WithEvent(s, id, status);
    assert EventInv(s, id);
    forall other <- s'.outbox ensures EventInv(s', other) {
      assert EventInv(s, other);
    }
    forall ref <- s'.intents ensures IntentInv(truth, s', ref) {
      assert IntentInv(truth, s, ref);
      assert Entries(s', ref) == Entries(s, ref);
    }
  }

  lemma EvolvesTransitive(s: State, t: State, u: State)
    requires Evolves(s, t) && Evolves(t, u)
    ensures Evolves(s, u)
  {
  }

  lemma WorkOutcomeKeeps(truth: Truth, s: State, ev: Event, view: WorkerIntent, answer: Answer)
    requires StoreInv(truth, s) && EventKnown(s, ev)
    requires Truthful(truth, ev.gateway, ev.ref, Answered(answer))
    ensures StoreInv(truth, WorkOutcome(s, ev, view, answer)) && Evolves(s, WorkOutcome(s, ev, view, answer))
  {
    if answer.status != Pending {
      assert EventInv(s, ev.id);
      var entry := Entry(Collection, SettledAmount(answer, view), view.product, answer.at);
      CollectionsAppend(Entries(s, ev.ref), entry);
      var paid := WithStatus(s, ev.ref, answer.status);
      var mid := if answer.status == Succeeded then WithEntries(paid, ev.ref, [entry]) else paid;
      SettleKeeps(truth, s, mid, ev.ref, answer.status);
      MarkKeeps(truth, mid, ev.id, answer.status);
      EvolvesTransitive(s, mid, WithEvent(mid, ev.id, answer.status));
      assert WorkOutcome(s, ev, view, answer) == WithEvent(mid, ev.id, answer.status);
    }
  }

  lemma HookOutcomeKeeps(truth: Truth, s: State, ref: string, intent: Intent, answer: Answer)
    requires StoreInv(truth, s) && ref in s.intents && s.intents[ref].gateway == intent.gateway
    requires Truthful(truth, intent.gateway, ref, Answered(answer))
    ensures StoreInv(truth, HookOutcome(s, ref, intent, answer)) && Evolves(s, HookOutcome(s, ref, intent, answer))
  {
    if answer.status != Pending {
      CollectionsAppend(Entries(s, ref), Entry(Collection, answer.amount, intent.product, answer.at));
      assert Entries(s, ref) + [] == Entries(s, ref);
      SettleKeeps(truth, s, HookOutcome(s, ref, intent, answer), ref, answer.status);
    }
  }

  /** A fresh reference starts pending, without entries and without events. */
  lemma CreateKeeps(truth: Truth, s: State, ref: string, product: string, key: string, gw: Gateway, url: string)
    requires StoreInv(truth, s) && ref !in s.intents
    ensures var s' := WithIntent(s, ref, product, key, gw, url); StoreInv(truth, s') && Evolves(s, s')
  {
    var s' := WithIntent(s, ref, product, key, gw, url);
    forall other <- s'.intents ensures IntentInv(truth, s', other) {
      assert Entries(s', other) == Entries(s, other);
      assert other != ref ==> IntentInv(truth, s, other);
    }
    forall other | other !in s'.intents ensures Collections(Entries(s', other)) == 0 {
      assert Entries(s', other) == Entries(s, other);
    }
    forall id <- s'.outbox ensures EventInv(s', id) {
      assert EventInv(s, id);
    }
  }

  lemma EnqueueKeeps(truth: Truth, s: State, id: string, ref: string, gw: Gateway, now: int)
    requires StoreInv(truth, s) && id !in s.outbox && ref in s.intents && s.intents[ref].gateway == gw
    ensures var s' := WithOutboxEvent(s, id, ref, gw, now); StoreInv(truth, s') && Evolves(s, s')
  {
    var s' := WithOutboxEvent(s, id, ref, gw, now);
    forall other <- s'.intents ensures IntentInv(truth, s', other) {
      assert IntentInv(truth, s, other);
      assert Entries(s', other) == Entries(s, other);
    }
    forall other <- s'.outbox ensures EventInv(s', other) {
      assert other != id ==> EventInv(s, other);
    }
  }

  lemma PayOutKeeps(truth: Truth, s: State, ref: string, entry: Entry)
    requires StoreInv(truth, s) && entry.kind == VendorPayout
    ensures StoreInv(truth, WithEntries(s, ref, [entry])) && Evolves(s, WithEntries(s, ref, [entry]))
  {
    var s' := WithEntries(s, ref, [entry]);
    CollectionsAppend(Entries(s, ref), entry);
    forall other ensures Collections(Entries(s', other)) == Collections(Entries(s, other)) {
    }
    forall other <- s'.intents ensures IntentInv(truth, s', other) {
      assert IntentInv(truth, s, other);
    }
    forall id <- s'.outbox ensures EventInv(s', id) {
      assert EventInv(s, id);
    }
  }

  lemma InboxKeeps(truth: Truth, s: State, inbox: set<string>)
    requires StoreInv(truth, s)
    ensures StoreInv(truth, s.(inbox := inbox)) && Evolves(s, s.(inbox := inbox))
  {
    var s' := s.(inbox := inbox);
    forall ref ensures Entries(s', ref) == Entries(s, ref) {
    }
    forall ref <- s'.intents ensures IntentInv(truth, s', ref) {
      assert IntentInv(truth, s, ref);
    }
    forall id <- s'.outbox ensures EventInv(s', id) {
      assert EventInv(s, id);
    }
  }

  lemma StepKeepsStore(truth: Truth, c: Config, step: Step)
    requires Inv(truth, c) && Enabled(truth, c, step)
    ensures StoreInv(truth, Do(truth, c, step).s) && Evolves(c.s, Do(truth, c, step).s)
  {
    hide StoreInv, Evolves, EventKnown, WithIntent, WithOutboxEvent, WithEntries, HookOutcome, WorkOutcome, FailedState;
    InboxKeeps(truth, c.s, c.s.inbox);
    assert c.s.(inbox := c.s.inbox) == c.s;
    match step {
      case Deliver(r, eventId, ref) => InboxKeeps(truth, c.s, c.s.inbox + {eventId});
      case HookUndo(r) => InboxKeeps(truth, c.s, c.s.inbox - {c.runs[r].eventId});
      case HookSettle(r) => HookOutcomeKeeps(truth, c.s, c.runs[r].ref, c.runs[r].intent, c.runs[r].answer);
      case WorkFailMissing(r) => assert false;
      case WorkMatch(r, now) => WorkMatchIsTruthful(truth, c, r, now);
      case WorkSettle(r) => WorkOutcomeKeeps(truth, c.s, c.runs[r].ev, c.runs[r].view, c.runs[r].answer);
      case Create(r, ref, product, key, gw, url) => CreateKeeps(truth, c.s, ref, product, key, gw, url);
      case Enqueue(r, id, now) => EnqueueKeeps(truth, c.s, id, c.runs[r].ref, c.runs[r].gw, now);
      case PayOut(ref, entry) => PayOutKeeps(truth, c.s, ref, entry);
      case _ =>
    }
  }

  lemma WorkMatchIsTruthful(truth: Truth, c: Config, r: nat, now: int)
    requires Inv(truth, c) && Enabled(truth, c, WorkMatch(r, now))
    ensures var run := c.runs[r];
            var s' := WorkOutcome(c.s, run.ev, run.view, Answer(run.view.status, Money(0, ""), now));
            StoreInv(truth, s') && Evolves(c.s, s')
  {
    var run := c.runs[r];
    assert RunInv(truth, c.s, run);
    assert EventInv(c.s, run.ev.id);
    assert IntentInv(truth, c.s, run.ev.ref);
    WorkOutcomeKeeps(truth, c.s, run.ev, run.view, Answer(run.view.status, Money(0, ""), now));
  }

  /** Every step of every run keeps the invariant. */
  lemma StepKeepsInv(truth: Truth, c: Config, step: Step)
    requires Inv(truth, c) && Enabled(truth, c, step)
    ensures Inv(truth, Do(truth, c, step)) && Evolves(c.s, Do(truth, c, step).s)
  {
    StepKeepsStore(truth, c, step);
    var c' := Do(truth, c, step);
    forall r <- c'.runs ensures RunInv(truth, c'.s, c'.runs[r]) {
      if r in c.runs && c'.runs[r] == c.runs[r] {
        RunInvStable(truth, c.s, c'.s, c.runs[r]);
      } else {
        NewRunInv(truth, c, step, r);
      }
    }
  }

  lemma NewRunInv(truth: Truth, c: Config, step: Step, r: nat)
    requires Inv(truth, c) && Enabled(truth, c, step)
    requires r in Do(truth, c, step).runs && (r in c.runs ==> Do(truth, c, step).runs[r] != c.runs[r])
    ensures RunInv(truth, Do(truth, c, step).s, Do(truth, c, step).runs[r])
  {
    if r in c.runs {
      assert RunInv(truth, c.s, c.runs[r]);
    }
    if step.Claim? {
      assert EventInv(c.s, step.id);
    }
  }

  // ---------------------------------------------------------------- main results

  lemma {:induction false} ExecutionKeepsInv(truth: Truth, steps: seq<Step>)
    requires Legal(truth, START, steps)
    ensures Inv(truth, Execute(truth, START, steps))
  {
    if steps != [] {
      ExecutionKeepsInv(truth, steps[..|steps| - 1]);
      StepKeepsInv(truth, Execute(truth, START, steps[..|steps| - 1]), steps[|steps| - 1]);
    }
  }

  lemma {:induction false} LegalPrefix(truth: Truth, c: Config, steps: seq<Step>, n: nat)
    requires Legal(truth, c, steps) && n <= |steps|
    ensures Legal(truth, c, steps[..n])
  {
    if n < |steps| {
      LegalPrefix(truth, c, steps[..|steps| - 1], n);
      assert steps[..|steps| - 1][..n] == steps[..n];
    } else {
      assert steps[..n] == steps;
    }
  }

  /** From any point of a run to any later one, terminal statuses and all recorded facts stay. */
  lemma {:induction false} TerminalIsFinal(truth: Truth, steps: seq<Step>, n: nat)
    requires Legal(truth, START, steps) && n <= |steps|
    ensures Legal(truth, START, steps[..n])
    ensures Evolves(Execute(truth, START, steps[..n]).s, Execute(truth, START, steps).s)
  {
    LegalPrefix(truth, START, steps, n);
    if n < |steps| {
      var before := steps[..|steps| - 1];
      TerminalIsFinal(truth, before, n);
      assert before[..n] == steps[..n];
      ExecutionKeepsInv(truth, before);
      StepKeepsInv(truth, Execute(truth, START, before), steps[|steps| - 1]);
      var t, u := Execute(truth, START, before).s, Execute(truth, START, steps).s;
      EvolvesTransitive(Execute(truth, START, steps[..n]).s, t, u);
    } else {
      assert steps[..n] == steps;
    }
  }

  /** An intent only ever leaves pending for the gateway's own answer. */
  lemma OnlyTheTruth(truth: Truth, steps: seq<Step>, ref: string)
    requires Legal(truth, START, steps)
    ensures var s := Execute(truth, START, steps).s;
            ref in s.intents && s.intents[ref].status != Pending ==>
              s.intents[ref].status == truth(s.intents[ref].gateway, ref)
  {
    ExecutionKeepsInv(truth, steps);
    var s := Execute(truth, START, steps).s;
    assert ref in s.intents ==> IntentInv(truth, s, ref);
  }

  /** Succeeded means collected: pending, failed and unknown references have no collection entry. */
  lemma SucceededIffCollected(truth: Truth, steps: seq<Step>, ref: string)
    requires Legal(truth, START, steps)
    ensures var s := Execute(truth, START, steps).s;
            Collections(Entries(s, ref)) >= 1 <==> ref in s.intents && s.intents[ref].status == Succeeded
  {
    ExecutionKeepsInv(truth, steps);
    var s := Execute(truth, START, steps).s;
    assert ref in s.intents ==> IntentInv(truth, s, ref);
  }

  /** Every event has its intent, on the same gateway, and a terminal event agrees with it. */
  lemma EventsAgreeWithIntents(truth: Truth, steps: seq<Step>, id: string)
    requires Legal(truth, START, steps) && id in Execute(truth, START, steps).s.outbox
    ensures var s := Execute(truth, START, steps).s;
            var ev := s.outbox[id];
            && ev.ref in s.intents && s.intents[ev.ref].gateway == ev.gateway
            && (ev.status != Pending ==> ev.status == s.intents[ev.ref].status)
  {
    ExecutionKeepsInv(truth, steps);
    assert EventInv(Execute(truth, START, steps).s, id);
  }

  /** The branch that fails an event because its intent is missing never runs. */
  lemma MissingIntentUnreachable(truth: Truth, steps: seq<Step>, r: nat)
    requires Legal(truth, START, steps)
    ensures !Enabled(truth, Execute(truth, START, steps), WorkFailMissing(r))
  {
    ExecutionKeepsInv(truth, steps);
    var c := Execute(truth, START, steps);
    assert r in c.runs ==> RunInv(truth, c.s, c.runs[r]);
  }

  // ---------------------------------------------------------------- how often a charge is collected

  /** The step settles `ref` as succeeded, from whatever it has read before. */
  ghost predicate Collects(c: Config, step: Step, ref: string) {
    match step
    case HookSettle(r) =>
      r in c.runs && c.runs[r].HookVerified? && c.runs[r].ref == ref && c.runs[r].answer.status == Succeeded
    case WorkSettle(r) =>
      r in c.runs && c.runs[r].WorkVerified? && c.runs[r].ev.ref == ref && c.runs[r].answer.status == Succeeded
    case WorkMatch(r, _) =>
      r in c.runs && c.runs[r].WorkRead? && c.runs[r].ev.ref == ref && c.runs[r].view.status == Succeeded
    case _ => false
  }

  ghost predicate IsSucceeded(s: State, ref: string) {
    ref in s.intents && s.intents[ref].status == Succeeded
  }

  lemma HookCollects(s: State, ref: string, intent: Intent, answer: Answer, other: string)
    ensures Collections(Entries(HookOutcome(s, ref, intent, answer), other))
         == Collections(Entries(s, other))
            + if other == ref && ref in s.intents && answer.status == Succeeded then 1 else 0
  {
    hide Collections;
    CollectionsAppend(Entries(s, ref), Entry(Collection, answer.amount, intent.product, answer.at));
    assert Entries(s, ref) + [] == Entries(s, ref);
  }

  lemma WorkCollects(s: State, ev: Event, view: WorkerIntent, answer: Answer, other: string)
    ensures Collections(Entries(WorkOutcome(s, ev, view, answer), other))
         == Collections(Entries(s, other))
            + if other == ev.ref && ev.id in s.outbox && answer.status == Succeeded then 1 else 0
  {
    hide Collections, SettledAmount;
    CollectionsAppend(Entries(s, ev.ref), Entry(Collection, SettledAmount(answer, view), view.product, answer.at));
  }

  /** Each settling step adds one collection entry, every other step none. */
  lemma StepCollects(truth: Truth, c: Config, step: Step, ref: string)
    requires Inv(truth, c) && Enabled(truth, c, step)
    ensures Collections(Entries(Do(truth, c, step).s, ref))
         == Collections(Entries(c.s, ref)) + if Collects(c, step, ref) then 1 else 0
  {
    hide Collections, HookOutcome, WorkOutcome, StoreInv;
    match step {
      case HookSettle(r) =>
        assert RunInv(truth, c.s, c.runs[r]);
        HookCollects(c.s, c.runs[r].ref, c.runs[r].intent, c.runs[r].answer, ref);
      case WorkSettle(r) =>
        assert RunInv(truth, c.s, c.runs[r]);
        WorkCollects(c.s, c.runs[r].ev, c.runs[r].view, c.runs[r].answer, ref);
      case WorkMatch(r, now) =>
        var run := c.runs[r];
        assert RunInv(truth, c.s, run);
        WorkCollects(c.s, run.ev, run.view, Answer(run.view.status, Money(0, ""), now), ref);
      case PayOut(other, entry) => CollectionsAppend(Entries(c.s, other), entry);
      case _ => assert Entries(Do(truth, c, step).s, ref) == Entries(c.s, ref);
    }
  }

  /** What a webhook writes: the verified amount, zero or not, at the verified time. */
  lemma HookWrites(s: State, ref: string, intent: Intent, answer: Answer)
    requires ref in s.intents
    ensures var s' := HookOutcome(s, ref, intent, answer);
            && s'.outbox == s.outbox && s'.inbox == s.inbox && s'.idemKeys == s.idemKeys
            && s'.intents == (if answer.status == Pending then s.intents
                              else s.intents[ref := s.intents[ref].(status := answer.status)])
            && forall r: string ::
                 Entries(s', r) == Entries(s, r)
                                   + if r == ref && answer.status == Succeeded
                                     then [Entry(Collection, answer.amount, intent.product, answer.at)] else []
  {
  }

  /** The entries a step books for `ref`, from what its run has read and been answered. */
  ghost function Books(c: Config, step: Step, ref: string): seq<Entry> {
    match step
    case HookSettle(r) =>
      if !Collects(c, step, ref) then []
      else
        var run := c.runs[r];
        [Entry(Collection, run.answer.amount, run.intent.product, run.answer.at)]
    case WorkSettle(r) =>
      if !Collects(c, step, ref) then []
      else
        var run := c.runs[r];
        [Entry(Collection, BookedAmount(run.answer, run.view), run.view.product, run.answer.at)]
    case WorkMatch(r, now) =>
      if !Collects(c, step, ref) then []
      else
        var run := c.runs[r];
        [Entry(Collection, BookedAmount(Answer(Succeeded, Money(0, ""), now), run.view), run.view.product, now)]
    case PayOut(other, entry) => if other == ref then [entry] else []
    case _ => []
  }

  lemma WorkBooks(s: State, ev: Event, view: WorkerIntent, answer: Answer, ref: string)
    requires ev.id in s.outbox
    ensures Entries(WorkOutcome(s, ev, view, answer), ref)
         == Entries(s, ref) + if ref == ev.ref && answer.status == Succeeded
                              then [Entry(Collection, BookedAmount(answer, view), view.product, answer.at)]
                              else []
  {
    hide SucceededState, FailedState, BookedAmount;
    CompletionBooks(s, ev.id, ev.ref, answer, view);
    FailureBooksNothing(s, ev.id, ev.ref);
    assert Entries(s, ref) + [] == Entries(s, ref);
  }

  /** Every step adds to a ledger exactly what it books. */
  lemma StepBooks(truth: Truth, c: Config, step: Step, ref: string)
    requires Inv(truth, c) && Enabled(truth, c, step)
    ensures Entries(Do(truth, c, step).s, ref) == Entries(c.s, ref) + Books(c, step, ref)
  {
    hide StoreInv, HookOutcome, WorkOutcome, FailedState;
    assert Entries(c.s, ref) + [] == Entries(c.s, ref);
    match step {
      case HookSettle(r) =>
        assert RunInv(truth, c.s, c.runs[r]);
        HookWrites(c.s, c.runs[r].ref, c.runs[r].intent, c.runs[r].answer);
      case WorkSettle(r) =>
        assert RunInv(truth, c.s, c.runs[r]);
        WorkBooks(c.s, c.runs[r].ev, c.runs[r].view, c.runs[r].answer, ref);
      case WorkMatch(r, now) =>
        var run := c.runs[r];
        assert RunInv(truth, c.s, run);
        WorkBooks(c.s, run.ev, run.view, Answer(run.view.status, Money(0, ""), now), ref);
      case WorkFailMissing(r) => assert false;
      case _ =>
    }
  }

  /** The bookings of a run, in order. */
  ghost function Bookings(truth: Truth, steps: seq<Step>, ref: string): seq<Entry>
    requires Legal(truth, START, steps)
  {
    if steps == [] then []
    else
      var n := |steps| - 1;
      Bookings(truth, steps[..n], ref) + Books(Execute(truth, START, steps[..n]), steps[n], ref)
  }

  /** In every interleaving a ledger is, entry by entry and amount by amount, what its steps have booked. */
  lemma {:induction false} LedgerOfRun(truth: Truth, steps: seq<Step>, ref: string)
    requires Legal(truth, START, steps)
    ensures Entries(Execute(truth, START, steps).s, ref) == Bookings(truth, steps, ref)
  {
    hide Inv, Do, Enabled, Books;
    if steps == [] {
      StartIsEmpty(ref);
    } else {
      var n := |steps| - 1;
      LedgerOfRun(truth, steps[..n], ref);
      ExecutionKeepsInv(truth, steps[..n]);
      StepBooks(truth, Execute(truth, START, steps[..n]), steps[n], ref);
    }
  }

  lemma StartIsEmpty(ref: string)
    ensures Entries(START.s, ref) == []
  {
  }

  /** The settling steps of a run. */
  ghost function Settlings(truth: Truth, steps: seq<Step>, ref: string): nat
    requires Legal(truth, START, steps)
  {
    if steps == [] then 0
    else
      var n := |steps| - 1;
      Settlings(truth, steps[..n], ref) + if Collects(Execute(truth, START, steps[..n]), steps[n], ref) then 1 else 0
  }

  /** In every interleaving a reference has exactly one collection entry per settling step. */
  lemma {:induction false} CollectionsOfRun(truth: Truth, steps: seq<Step>, ref: string)
    requires Legal(truth, START, steps)
    ensures Collections(Entries(Execute(truth, START, steps).s, ref)) == Settlings(truth, steps, ref)
  {
    if steps != [] {
      var n := |steps| - 1;
      CollectionsOfRun(truth, steps[..n], ref);
      ExecutionKeepsInv(truth, steps[..n]);
      hide Inv;
      StepCollects(truth, Execute(truth, START, steps[..n]), steps[n], ref);
    }
  }

  /**
   The guard that is missing: a settling step leaves a second entry exactly when the intent
   is already succeeded just before it writes.
   */
  lemma SecondEntryIff(truth: Truth, c: Config, step: Step, ref: string)
    requires Inv(truth, c) && Enabled(truth, c, step) && Collects(c, step, ref)
    ensures Collections(Entries(Do(truth, c, step).s, ref)) >= 2 <==> IsSucceeded(c.s, ref)
  {
    hide Collections, RunInv, Collects;
    StepCollects(truth, c, step, ref);
    assert ref in c.s.intents ==> IntentInv(truth, c.s, ref);
  }

  /** Step `n` of the run settles an intent that is succeeded already. */
  ghost predicate SettlesAgain(truth: Truth, steps: seq<Step>, n: nat, ref: string)
    requires Legal(truth, START, steps) && n < |steps|
  {
    LegalPrefix(truth, START, steps, n);
    var c := Execute(truth, START, steps[..n]);
    Collects(c, steps[n], ref) && IsSucceeded(c.s, ref)
  }

  lemma StepKeepsSingle(truth: Truth, c: Config, step: Step, ref: string)
    requires Inv(truth, c) && Enabled(truth, c, step)
    ensures Collections(Entries(Do(truth, c, step).s, ref)) <= 1 <==>
              Collections(Entries(c.s, ref)) <= 1 && !(Collects(c, step, ref) && IsSucceeded(c.s, ref))
  {
    hide Collections, RunInv, Collects, Do, Enabled;
    StepCollects(truth, c, step, ref);
    assert ref in c.s.intents ==> IntentInv(truth, c.s, ref);
  }

  lemma SettlesAgainInPrefix(truth: Truth, steps: seq<Step>, m: nat, n: nat, ref: string)
    requires Legal(truth, START, steps) && n < m <= |steps|
    ensures Legal(truth, START, steps[..m])
    ensures SettlesAgain(truth, steps[..m], n, ref) <==> SettlesAgain(truth, steps, n, ref)
  {
    hide Legal, Execute, Collects, IsSucceeded;
    LegalPrefix(truth, START, steps, m);
    assert steps[..m][..n] == steps[..n];
  }

  /**
   In any interleaving, with any number of workers and webhooks, a charge is collected at
   most once exactly when no step of the run settles it while it is already succeeded.
   */
  lemma {:induction false} CollectedOnceIff(truth: Truth, steps: seq<Step>, ref: string)
    requires Legal(truth, START, steps)
    ensures Collections(Entries(Execute(truth, START, steps).s, ref)) <= 1
       <==> forall n :: 0 <= n < |steps| ==> !SettlesAgain(truth, steps, n, ref)
  {
    hide Inv, Do, Enabled, Collections, Collects, IsSucceeded;
    if steps == [] {
      StartIsBare(ref);
      return;
    }
    var m := |steps| - 1;
    var before := steps[..m];
    CollectedOnceIff(truth, before, ref);
    ExecutionKeepsInv(truth, before);
    var c := Execute(truth, START, before);
    StepKeepsSingle(truth, c, steps[m], ref);
    assert Execute(truth, START, steps) == Do(truth, c, steps[m]);
    assert SettlesAgain(truth, steps, m, ref) <==> Collects(c, steps[m], ref) && IsSucceeded(c.s, ref);
    forall n | 0 <= n < m ensures SettlesAgain(truth, steps, n, ref) <==> SettlesAgain(truth, before, n, ref) {
      SettlesAgainInPrefix(truth, steps, m, n, ref);
    }
  }

  lemma StartIsBare(ref: string)
    ensures Collections(Entries(START.s, ref)) == 0
  {
  }

  // ---------------------------------------------------------------- what does not hold

  /** One more step of an execution that has led from `from` to `c`. */
  lemma Play(truth: Truth, from: Config, steps: seq<Step>, c: Config, step: Step)
    requires Legal(truth, from, steps) && Execute(truth, from, steps) == c && Enabled(truth, c, step)
    ensures Legal(truth, from, steps + [step])
    ensures Execute(truth, from, steps + [step]) == Do(truth, c, step)
  {
    assert (steps + [step])[..|steps|] == steps;
  }

  /** A charge whose call has returned. */
  lemma RaceCharged(truth: Truth, ref: string) returns (steps: seq<Step>, s: State)
    ensures Legal(truth, START, steps)
    ensures s == WithIntent(EMPTY, ref, "p", "", HUBTEL, "")
    ensures Execute(truth, START, steps) == Config(s, map[])
  {
    assert Legal(truth, START, []) && Execute(truth, START, []) == START;
    hide Legal, Execute;
    s := WithIntent(EMPTY, ref, "p", "", HUBTEL, "");
    steps := [] + [Create(0, ref, "p", "", HUBTEL, "")];
    Play(truth, START, [], START, Create(0, ref, "p", "", HUBTEL, ""));
    var c := Config(s, map[0 := Charged(ref, HUBTEL)]);
    assert c.runs - {0} == map[];
    Play(truth, START, steps, c, Abandon(0));
    steps := steps + [Abandon(0)];
  }

  /** Two deliveries with different event ids, both past their read: the setup of the race. */
  lemma RaceSetup(truth: Truth, ref: string) returns (steps: seq<Step>, s: State)
    ensures Legal(truth, START, steps)
    ensures s.intents == map[ref := Intent(HUBTEL, Pending, "p", "")] && s.ledgers == map[]
    ensures Execute(truth, START, steps)
         == Config(s, map[1 := HookRead("a", ref, s.intents[ref]), 2 := HookRead("b", ref, s.intents[ref])])
  {
    var s0;
    steps, s0 := RaceCharged(truth, ref);
    hide Legal, Execute;
    Play(truth, START, steps, Config(s0, map[]), Deliver(1, "a", ref));
    steps := steps + [Deliver(1, "a", ref)];
    var c := Config(s0.(inbox := {"a"}), map[1 := Recorded("a", ref)]);
    assert Do(truth, Config(s0, map[]), Deliver(1, "a", ref)) == c;
    Play(truth, START, steps, c, Deliver(2, "b", ref));
    steps := steps + [Deliver(2, "b", ref)];
    s := s0.(inbox := {"a", "b"});
    assert {"a"} + {"b"} == {"a", "b"};
    c := Config(s, map[1 := Recorded("a", ref), 2 := Recorded("b", ref)]);
    Play(truth, START, steps, c, HookFind(1));
    steps := steps + [HookFind(1)];
    c := Config(s, map[1 := HookRead("a", ref, s.intents[ref]), 2 := Recorded("b", ref)]);
    Play(truth, START, steps, c, HookFind(2));
    steps := steps + [HookFind(2)];
  }

  /** Both deliveries settle: one charge, two collection entries. */
  lemma RacingWebhooksCollectTwice(ref: string, a: Answer)
    requires a.status == Succeeded
    ensures exists truth: Truth, steps: seq<Step> ::
              Legal(truth, START, steps) && Collections(Entries(Execute(truth, START, steps).s, ref)) == 2
  {
    var truth: Truth := (_, _) => Succeeded;
    var steps, s := RaceSetup(truth, ref);
    hide Legal, Execute, Collections;
    var i, e := s.intents[ref], Entry(Collection, a.amount, "p", a.at);
    var r1, r2 := HookVerified("a", ref, i, a), HookVerified("b", ref, i, a);
    var c := Config(s, map[1 := HookRead("a", ref, i), 2 := HookRead("b", ref, i)]);
    Play(truth, START, steps, c, HookVerify(1, Answered(a)));
    steps := steps + [HookVerify(1, Answered(a))];
    c := Config(s, map[1 := r1, 2 := HookRead("b", ref, i)]);
    Play(truth, START, steps, c, HookVerify(2, Answered(a)));
    steps := steps + [HookVerify(2, Answered(a))];
    c := Config(s, map[1 := r1, 2 := r2]);
    Play(truth, START, steps, c, HookSettle(1));
    steps := steps + [HookSettle(1)];
    var s' := HookOutcome(s, ref, i, a);
    assert c.runs - {1} == map[2 := r2];
    c := Config(s', map[2 := r2]);
    Play(truth, START, steps, c, HookSettle(2));
    steps := steps + [HookSettle(2)];
    CollectionsOfTwo(e);
    assert Entries(s', ref) == [] + [e];
    assert Entries(Execute(truth, START, steps).s, ref) == [e, e];
  }

  lemma CollectionsOfTwo(e: Entry)
    requires e.kind == Collection
    ensures Collections([e, e]) == 2
  {
    CollectionsAppend([], e);
    CollectionsAppend([e], e);
    assert [] + [e] == [e] && [e] + [e] == [e, e];
  }
}
