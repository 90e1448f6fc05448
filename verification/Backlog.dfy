/**
 Who waits in the outbox: drains that keep meeting events they cannot finish
 (internal/worker/worker.go, internal/storage/postgres/store.go).
 */
module Backlog {
  import opened Prelude
  import opened Gateways
  import opened Store
  import opened Protocol
  import opened Settlement
  import opened Accounting

  /** processOne ends the event: an adapter is there, and the intent or the gateway has a terminal answer. */
  predicate Finishes(s: State, adapters: set<Gateway>, verify: Verify, ev: Event) {
    && ev.gateway in adapters
    && (|| ev.ref !in s.intents || s.intents[ev.ref].status != Pending
        || (verify(ev.gateway, ev.ref).Answered? && verify(ev.gateway, ev.ref).answer.status != Pending))
  }

  /** The drain ends its `k`th event: nobody holds its lock, and processOne finishes it. */
  predicate Ends(w: World, adapters: set<Gateway>, events: seq<Event>, inputs: Inputs, k: nat)
    requires k < |events|
  {
    var before := DrainSpec(w, adapters, events[..k], inputs);
    && Admits(before, events[k], inputs.clock(k), inputs.broken(k))
    && Finishes(before.s, adapters, inputs.verify(k), events[k])
  }

  /** Events keep their place in time; some may have come to an end, and none comes back. */
  ghost predicate SameEvents(s: State, s': State) {
    s'.outbox.Keys == s.outbox.Keys && forall id <- s.outbox :: s'.outbox[id].createdAt == s.outbox[id].createdAt
  }

  lemma OutcomeEnds(s: State, ev: Event, view: WorkerIntent, answer: Answer)
    requires ev.id in s.outbox && answer.status != Pending
    ensures var s' := WorkOutcome(s, ev, view, answer); SameEvents(s, s') && PendingIds(s') == PendingIds(s) - {ev.id}
  {
    hide WorkOutcome;
    OutcomeMarksEvent(s, ev, view, answer);
  }

  lemma WorkEndsIff(s: State, adapters: set<Gateway>, verify: Verify, ev: Event, now: int)
    requires ev.id in s.outbox
    ensures var s' := ProcessOneSpec(s, adapters, verify, ev, now);
            && SameEvents(s, s')
            && PendingIds(s') == PendingIds(s) - if Finishes(s, adapters, verify, ev) then {ev.id} else {}
  {
    hide SameEvents, PendingIds, WorkOutcome, IntentAmount, FailedState;
    Unchanged(s);
    MissingEnds(s, ev);
    if view: WorkerIntent :| ViewIntent(s, ev.ref) == Some(view) {
      if view.status != Pending {
        OutcomeEnds(s, ev, view, ZeroAmount(view.status, now));
      } else if verify(ev.gateway, ev.ref).Answered? {
        var answer := verify(ev.gateway, ev.ref).answer;
        if answer.status != Pending {
          OutcomeEnds(s, ev, view, answer);
        } else {
          PendingChangesNothing(s, ev, view, answer);
        }
      }
    }
  }

  lemma Unchanged(s: State)
    ensures SameEvents(s, s) && PendingIds(s) == PendingIds(s) - {}
  {
  }

  lemma MissingEnds(s: State, ev: Event)
    requires ev.id in s.outbox
    ensures var s' := FailedState(s, ev.id, ev.ref); SameEvents(s, s') && PendingIds(s') == PendingIds(s) - {ev.id}
  {
  }

  lemma PendingChangesNothing(s: State, ev: Event, view: WorkerIntent, answer: Answer)
    requires answer.status == Pending
    ensures WorkOutcome(s, ev, view, answer) == s
  {
  }

  /** The events a drain ends. */
  ghost function EndedBy(w: World, adapters: set<Gateway>, events: seq<Event>, inputs: Inputs): set<string> {
    set k | 0 <= k < |events| && Ends(w, adapters, events, inputs, k) :: events[k].id
  }

  lemma EndsInPrefix(w: World, adapters: set<Gateway>, events: seq<Event>, inputs: Inputs, k: nat)
    requires k < |events| - 1
    ensures Ends(w, adapters, events, inputs, k) <==> Ends(w, adapters, events[..|events| - 1], inputs, k)
  {
    hide DrainSpec, Admits, Finishes;
    assert events[..|events| - 1][..k] == events[..k];
  }

  lemma {:induction false} DrainEndsExactly(w: World, adapters: set<Gateway>, events: seq<Event>, inputs: Inputs)
    requires IdsOf(events) <= w.s.outbox.Keys
    ensures var s' := DrainSpec(w, adapters, events, inputs).s;
            SameEvents(w.s, s') && PendingIds(s') == PendingIds(w.s) - EndedBy(w, adapters, events, inputs)
  {
    hide ProcessOneSpec, Finishes, PendingIds, Admits;
    if events != [] {
      var n := |events| - 1;
      var before := DrainSpec(w, adapters, events[..n], inputs);
      assert forall id <- IdsOf(events[..n]) :: id in IdsOf(events);
      DrainEndsExactly(w, adapters, events[..n], inputs);
      assert events[n].id in IdsOf(events);
      WorkEndsIff(before.s, adapters, inputs.verify(n), events[n], inputs.clock(n));
      LastEnded(w, adapters, events, inputs);
    } else {
      Unchanged(w.s);
    }
  }

  lemma LastEnded(w: World, adapters: set<Gateway>, events: seq<Event>, inputs: Inputs)
    requires events != []
    ensures var n := |events| - 1;
            var last := if Ends(w, adapters, events, inputs, n) then {events[n].id} else {};
            EndedBy(w, adapters, events, inputs) == EndedBy(w, adapters, events[..n], inputs) + last
  {
    hide Ends;
    forall k | 0 <= k < |events| - 1
      ensures Ends(w, adapters, events, inputs, k) <==> Ends(w, adapters, events[..|events| - 1], inputs, k)
    {
      EndsInPrefix(w, adapters, events, inputs, k);
    }
  }

  // ---------------------------------------------------------------- drain after drain

  /**
   One drain and what arrives before the next: everything claimed is ended but the stuck
   events, and whatever is new in the outbox is newer than `at`.
   */
  ghost predicate Turn(stuck: set<string>, at: int, s: State, claimed: seq<Event>, s': State) {
    && IsClaim(s, BATCH, claimed)
    && (forall id <- s.outbox :: id in s'.outbox && s'.outbox[id].createdAt == s.outbox[id].createdAt)
    && (forall id <- s.outbox :: id in PendingIds(s') <==> id in PendingIds(s) - (IdsOf(claimed) - stuck))
    && (forall id <- s'.outbox :: id !in s.outbox ==> s'.outbox[id].createdAt > at)
  }

  /** Every drain of the worker is such a turn, with the claimed events it does not end as the stuck ones. */
  lemma DrainIsTurn(w: World, adapters: set<Gateway>, claimed: seq<Event>, inputs: Inputs, stuck: set<string>, at: int)
    requires IsClaim(w.s, BATCH, claimed)
    requires forall k :: 0 <= k < |claimed| ==> (claimed[k].id in stuck <==> !Ends(w, adapters, claimed, inputs, k))
    ensures Turn(stuck, at, w.s, claimed, DrainSpec(w, adapters, claimed, inputs).s)
  {
    hide Ends, DrainSpec;
    assert PendingIds(w.s) <= w.s.outbox.Keys;
    DrainEndsExactly(w, adapters, claimed, inputs);
    assert EndedBy(w, adapters, claimed, inputs) == IdsOf(claimed) - stuck;
  }

  /** Drains for ever: the state before each, and what each claims. */
  datatype History = History(states: nat -> State, claims: nat -> seq<Event>)

  ghost predicate Drains(h: History, stuck: set<string>, at: int) {
    forall i: nat :: Turn(stuck, at, h.states(i), h.claims(i), h.states(i + 1))
  }

  /** Stuck events older than a moment. */
  ghost function StuckBefore(s: State, stuck: set<string>, at: int): set<string> {
    set id <- PendingIds(s) | id in stuck && s.outbox[id].createdAt < at
  }

  /** Events that can be ended, and are not newer. */
  ghost function EndableUpTo(s: State, stuck: set<string>, at: int): set<string> {
    set id <- PendingIds(s) | id !in stuck && s.outbox[id].createdAt <= at
  }

  /** Pending since `at`, and no stuck event of the same instant. */
  ghost predicate Waits(s: State, stuck: set<string>, at: int, id: string) {
    && id in PendingIds(s) && id !in stuck && s.outbox[id].createdAt == at
    && forall other <- PendingIds(s) :: other in stuck ==> s.outbox[other].createdAt != at
  }

  lemma TurnKeepsWaiting(s: State, s': State, stuck: set<string>, at: int, claimed: seq<Event>, id: string)
    requires Turn(stuck, at, s, claimed, s') && Waits(s, stuck, at, id) && id !in IdsOf(claimed)
    ensures Waits(s', stuck, at, id) && StuckBefore(s', stuck, at) == StuckBefore(s, stuck, at)
    ensures EndableUpTo(s', stuck, at) == EndableUpTo(s, stuck, at) - IdsOf(claimed)
  {
    hide IsClaim, IdsOf;
  }

  /** With a batch or more of stuck older events, a claim has no room. */
  lemma CrowdedOut(s: State, stuck: set<string>, at: int, claimed: seq<Event>, id: string)
    requires IsClaim(s, BATCH, claimed) && Waits(s, stuck, at, id) && |StuckBefore(s, stuck, at)| >= BATCH
    ensures id !in IdsOf(claimed)
  {
    if id in IdsOf(claimed) {
      var k := PlaceOf(claimed, id);
      var stuckOnes := StuckBefore(s, stuck, at);
      forall other <- stuckOnes ensures other in IdsOf(claimed) {
        assert claimed[k].createdAt == at;
      }
      DistinctCount(claimed);
      SubsetSize(stuckOnes + {id}, IdsOf(claimed));
    }
  }

  lemma PlaceOf(xs: seq<Event>, id: string) returns (k: nat)
    requires id in IdsOf(xs)
    ensures k < |xs| && xs[k].id == id
  {
    k :| 0 <= k < |xs| && xs[k].id == id;
  }

  /** With fewer, a claim without the event ends another one that is not newer. */
  lemma SomebodyEnds(s: State, stuck: set<string>, at: int, claimed: seq<Event>, id: string)
    requires IsClaim(s, BATCH, claimed) && Waits(s, stuck, at, id) && |StuckBefore(s, stuck, at)| < BATCH
    requires id !in IdsOf(claimed)
    ensures EndableUpTo(s, stuck, at) * IdsOf(claimed) != {}
  {
    DistinctCount(claimed);
    if |claimed| < BATCH {
      SubsetSameSize(IdsOf(claimed), PendingIds(s));
      assert false;
    }
    var stuckOnes := StuckBefore(s, stuck, at);
    if IdsOf(claimed) <= stuckOnes {
      SubsetSize(IdsOf(claimed), stuckOnes);
      assert false;
    }
    var other :| other in IdsOf(claimed) && other !in stuckOnes;
    var k := PlaceOf(claimed, other);
    assert claimed[k].createdAt <= at;
    assert other in EndableUpTo(s, stuck, at) * IdsOf(claimed);
  }

  lemma {:induction false} StillWaiting(h: History, stuck: set<string>, at: int, id: string, n: nat)
    requires Drains(h, stuck, at) && Waits(h.states(0), stuck, at, id)
    requires forall i: nat :: i < n ==> id !in IdsOf(h.claims(i))
    ensures Waits(h.states(n), stuck, at, id)
    ensures StuckBefore(h.states(n), stuck, at) == StuckBefore(h.states(0), stuck, at)
  {
    hide Turn, Waits, StuckBefore;
    if n > 0 {
      StillWaiting(h, stuck, at, id, n - 1);
      TurnKeepsWaiting(h.states(n - 1), h.states(n - 1 + 1), stuck, at, h.claims(n - 1), id);
    }
  }

  /** Starvation: behind a full batch of stuck events no drain ever gets to the event. */
  lemma {:induction false} NeverClaimed(h: History, stuck: set<string>, at: int, id: string, n: nat)
    requires Drains(h, stuck, at) && Waits(h.states(0), stuck, at, id)
    requires |StuckBefore(h.states(0), stuck, at)| >= BATCH
    ensures forall i: nat :: i <= n ==> id !in IdsOf(h.claims(i))
  {
    hide Waits, StuckBefore, IsClaim;
    if n > 0 {
      NeverClaimed(h, stuck, at, id, n - 1);
    }
    StillWaiting(h, stuck, at, id, n);
    assert Turn(stuck, at, h.states(n), h.claims(n), h.states(n + 1));
    CrowdedOut(h.states(n), stuck, at, h.claims(n), id);
  }

  /** Otherwise it is claimed within as many drains as there are events to end that are not newer. */
  lemma {:induction false} ClaimedWithin(h: History, stuck: set<string>, at: int, id: string, n: nat) returns (i: nat)
    requires Drains(h, stuck, at) && Waits(h.states(0), stuck, at, id)
    requires |StuckBefore(h.states(0), stuck, at)| < BATCH
    requires forall j: nat :: j < n ==> id !in IdsOf(h.claims(j))
    ensures i < n + |EndableUpTo(h.states(n), stuck, at)| && id in IdsOf(h.claims(i))
    decreases |EndableUpTo(h.states(n), stuck, at)|
  {
    hide Waits, StuckBefore, IsClaim, IdsOf;
    StillWaiting(h, stuck, at, id, n);
    var s, claimed := h.states(n), h.claims(n);
    assert Turn(stuck, at, s, claimed, h.states(n + 1));
    WaitsIsEndable(s, stuck, at, id);
    if id in IdsOf(claimed) {
      return n;
    }
    TurnKeepsWaiting(s, h.states(n + 1), stuck, at, claimed, id);
    SomebodyEnds(s, stuck, at, claimed, id);
    var endable := EndableUpTo(s, stuck, at);
    var gone :| gone in endable * IdsOf(claimed);
    SubsetSize(endable - IdsOf(claimed), endable - {gone});
    i := ClaimedWithin(h, stuck, at, id, n + 1);
  }

  lemma WaitsIsEndable(s: State, stuck: set<string>, at: int, id: string)
    requires Waits(s, stuck, at, id)
    ensures id in EndableUpTo(s, stuck, at) && |EndableUpTo(s, stuck, at)| >= 1
  {
    SubsetSize({id}, EndableUpTo(s, stuck, at));
  }

  /**
   Who starves: among drains without end, with newer events arriving at any time, an event
   is ever worked exactly when fewer than a batch of older events are stuck.
   */
  lemma WorkedIff(h: History, stuck: set<string>, at: int, id: string)
    requires Drains(h, stuck, at) && Waits(h.states(0), stuck, at, id)
    ensures (exists i: nat :: id in IdsOf(h.claims(i))) <==> |StuckBefore(h.states(0), stuck, at)| < BATCH
  {
    hide Drains, Waits, StuckBefore, IdsOf;
    if |StuckBefore(h.states(0), stuck, at)| < BATCH {
      var i := ClaimedWithin(h, stuck, at, id, 0);
    } else if i: nat :| id in IdsOf(h.claims(i)) {
      NeverClaimed(h, stuck, at, id, i);
      assert false;
    }
  }
}
