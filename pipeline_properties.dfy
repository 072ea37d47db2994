/**
 * What a run of the stream job guarantees: what it emits, what it writes to
 * the store, how its per-card state relates to the store, and that cards do
 * not influence each other.
 */
module PipelineProperties {
  import opened Wrappers
  import opened Transactions
  import opened Cards
  import opened Store
  import opened StreamState
  import opened AuthorizationPipeline

  /**
   * Every event processed before the job stops is emitted once, in order,
   * keyed by its card number, with only its status changed and that status
   * final; a run without a fault emits one transaction per event.
   */
  lemma {:induction false} RunEmitted(p: JobState, events: seq<Transaction>)
    ensures var r := Run(p, events);
      && |p.emitted| <= |r.last.emitted| <= |p.emitted| + |events|
      && r.last.emitted[..|p.emitted|] == p.emitted
      && (r.fault.None? ==> |r.last.emitted| == |p.emitted| + |events|)
      && forall i :: |p.emitted| <= i < |r.last.emitted| ==>
           && r.last.emitted[i].0 == events[i - |p.emitted|].cardNumber
           && r.last.emitted[i].1 == events[i - |p.emitted|].(status := r.last.emitted[i].1.status)
           && r.last.emitted[i].1.status != New
    decreases |events|
  {
    if events != [] {
      match Step(p, events[0])
      case Failure(_) =>
      case Success(q) =>
        RunEmitted(q, events[1..]);
        var r := Run(q, events[1..]);
        assert r.last.emitted[..|q.emitted|] == q.emitted;
        assert r.last.emitted[..|p.emitted|] == q.emitted[..|p.emitted|];
        forall i | |p.emitted| <= i < |r.last.emitted|
          ensures r.last.emitted[i].0 == events[i - |p.emitted|].cardNumber
          ensures r.last.emitted[i].1 == events[i - |p.emitted|].(status := r.last.emitted[i].1.status)
          ensures r.last.emitted[i].1.status != New
        {
          if i == |p.emitted| {
            assert r.last.emitted[i] == q.emitted[i];
          } else {
            assert events[1..][i - |q.emitted|] == events[i - |p.emitted|];
          }
        }
    }
  }

  /** The dollars of the approved transactions among `emitted` for one card. */
  function ApprovedTotal(emitted: seq<(string, Transaction)>, key: string): int {
    if emitted == [] then 0
    else
      var last := emitted[|emitted| - 1];
      ApprovedTotal(emitted[..|emitted| - 1], key)
      + (if last.0 == key && last.1.status == Approved then last.1.amount else 0)
  }

  /**
   * The store of `p` is `initial` with each card credited by exactly the
   * approved transactions emitted for it, and holds the same cards.
   */
  ghost predicate Accounted(initial: map<string, CardRecord>, p: JobState) {
    && p.cards.Keys == initial.Keys
    && forall k :: k in initial ==> p.cards[k] == Credited(initial[k], ApprovedTotal(p.emitted, k))
  }

  lemma StartAccounted(cards: map<string, CardRecord>)
    ensures Accounted(cards, Start(cards))
  {
  }

  lemma StepAccounted(initial: map<string, CardRecord>, p: JobState, t: Transaction)
    requires Accounted(initial, p)
    requires Step(p, t).Success?
    ensures Accounted(initial, Step(p, t).value)
  {
    var q := Step(p, t).value;
    assert q.emitted[..|q.emitted| - 1] == p.emitted;
    forall k | k in initial
      ensures q.cards[k] == Credited(initial[k], ApprovedTotal(q.emitted, k))
    {
      CreditedTwice(initial[k], ApprovedTotal(p.emitted, k), if k == t.cardNumber then t.amount else 0);
    }
  }

  /**
   * Exactly the approved transactions reach the store: after any run, each
   * card's authorized dollars have grown by the sum of the approved amounts
   * emitted for that card, and by nothing else.
   */
  lemma {:induction false} RunAccounted(initial: map<string, CardRecord>, p: JobState, events: seq<Transaction>)
    requires Accounted(initial, p)
    ensures Accounted(initial, Run(p, events).last)
    decreases |events|
  {
    if events != [] {
      match Step(p, events[0])
      case Failure(_) =>
      case Success(q) =>
        StepAccounted(initial, p, events[0]);
        RunAccounted(initial, q, events[1..]);
    }
  }

  /** A run from a (re)start credits each card with its own approvals, on top of the store it started from. */
  lemma RunFromStartAccounted(cards: map<string, CardRecord>, events: seq<Transaction>, r: JobState)
    requires r == Run(Start(cards), events).last
    ensures r.cards.Keys == cards.Keys
    ensures forall k :: k in cards ==> r.cards[k] == Credited(cards[k], ApprovedTotal(r.emitted, k))
  {
    StartAccounted(cards);
    RunAccounted(cards, Start(cards), events);
  }

  /**
   * The per-card state agrees with the store: every seeded state holds
   * exactly the stored card's authorized dollars and credit limit.
   */
  ghost predicate Coherent(p: JobState) {
    forall k :: k in p.states && IsSeeded(p.states[k]) ==>
      k in p.cards && p.states[k] == CachedCredit(p.cards[k].authorizedDollars, p.cards[k].creditLimitDollars)
  }

  lemma StartCoherent(cards: map<string, CardRecord>)
    ensures Coherent(Start(cards))
  {
  }

  /**
   * So long as the job is the only writer and no event arrives already
   * APPROVED, the cache and the store move together: an approval adds the
   * amount to both, every other outcome to neither.
   */
  lemma StepCoherent(p: JobState, t: Transaction)
    requires Coherent(p)
    requires t.status != Approved
    requires Step(p, t).Success?
    ensures Coherent(Step(p, t).value)
  {
    var key := t.cardNumber;
    var s := StateFor(p.states, key);
    var q := Step(p, t).value;
    if IsSeeded(q.states[key]) {
      var big := BigTxnStage(t);
      if big.status == New {
        assert key in p.cards;
      }
    }
  }

  lemma {:induction false} RunCoherent(p: JobState, events: seq<Transaction>)
    requires Coherent(p)
    requires forall i :: 0 <= i < |events| ==> events[i].status != Approved
    ensures Coherent(Run(p, events).last)
    decreases |events|
  {
    if events != [] {
      match Step(p, events[0])
      case Failure(_) =>
      case Success(q) =>
        StepCoherent(p, events[0]);
        RunCoherent(q, events[1..]);
    }
  }

  /**
   * Safety of the stream path on its own: when no event arrives already
   * APPROVED and the cache agrees with the store, every card stays within
   * its limit.
   */
  lemma StepKeepsWithinLimits(p: JobState, t: Transaction)
    requires Coherent(p) && WithinLimits(p.cards)
    requires t.status != Approved
    requires Step(p, t).Success?
    ensures WithinLimits(Step(p, t).value.cards)
  {
  }

  lemma {:induction false} RunKeepsWithinLimits(p: JobState, events: seq<Transaction>)
    requires Coherent(p) && WithinLimits(p.cards)
    requires forall i :: 0 <= i < |events| ==> events[i].status != Approved
    ensures WithinLimits(Run(p, events).last.cards)
    decreases |events|
  {
    if events != [] {
      match Step(p, events[0])
      case Failure(_) =>
      case Success(q) =>
        StepKeepsWithinLimits(p, events[0]);
        StepCoherent(p, events[0]);
        RunKeepsWithinLimits(q, events[1..]);
    }
  }

  // ---------------------------------------------------------------------
  // Isolation of cards

  /** The events for one card, in their original order. */
  function EventsFor(events: seq<Transaction>, key: string): (r: seq<Transaction>)
    ensures forall i :: 0 <= i < |r| ==> r[i].cardNumber == key
    ensures |r| <= |events|
  {
    if events == [] then []
    else (if events[0].cardNumber == key then [events[0]] else []) + EventsFor(events[1..], key)
  }

  /** The emitted entries for one card, in their original order. */
  function EmittedFor(emitted: seq<(string, Transaction)>, key: string): seq<(string, Transaction)> {
    if emitted == [] then []
    else
      var last := emitted[|emitted| - 1];
      EmittedFor(emitted[..|emitted| - 1], key) + (if last.0 == key then [last] else [])
  }

  /** Two job states hold the same state, the same card and the same output for `key`. */
  ghost predicate SameFor(p: JobState, q: JobState, key: string) {
    && StateFor(p.states, key) == StateFor(q.states, key)
    && Lookup(p.cards, key) == Lookup(q.cards, key)
    && EmittedFor(p.emitted, key) == EmittedFor(q.emitted, key)
  }

  lemma StepElsewhere(p: JobState, t: Transaction, key: string)
    requires t.cardNumber != key
    requires Step(p, t).Success?
    ensures SameFor(p, Step(p, t).value, key)
  {
    var q := Step(p, t).value;
    assert q.emitted[..|q.emitted| - 1] == p.emitted;
  }

  lemma StepHere(p: JobState, q: JobState, t: Transaction)
    requires SameFor(p, q, t.cardNumber)
    ensures Step(p, t).Success? <==> Step(q, t).Success?
    ensures Step(p, t).Success? ==> SameFor(Step(p, t).value, Step(q, t).value, t.cardNumber)
  {
    var key := t.cardNumber;
    StagesOnCard(StateFor(p.states, key), p.cards, q.cards, t);
    if Step(p, t).Success? {
      var p', q' := Step(p, t).value, Step(q, t).value;
      assert p'.emitted[..|p'.emitted| - 1] == p.emitted;
      assert q'.emitted[..|q'.emitted| - 1] == q.emitted;
      if key in p.cards {
        assert p'.cards[key] == q'.cards[key];
      }
    }
  }

  /** The stages read and write only the transaction's own card. */
  lemma StagesOnCard(s: CachedCredit, cards: map<string, CardRecord>, other: map<string, CardRecord>, t: Transaction)
    requires Lookup(cards, t.cardNumber) == Lookup(other, t.cardNumber)
    ensures Stages(s, cards, t).Success? <==> Stages(s, other, t).Success?
    ensures Stages(s, cards, t).Success? ==>
      && Stages(s, cards, t).value.0 == Stages(s, other, t).value.0
      && Stages(s, cards, t).value.2 == Stages(s, other, t).value.2
      && Lookup(Stages(s, cards, t).value.1, t.cardNumber) == Lookup(Stages(s, other, t).value.1, t.cardNumber)
  {
    var key := t.cardNumber;
    assert key in cards <==> key in other;
    if key in cards {
      assert cards[key] == other[key];
      assert SeedFrom(s, key, cards) == SeedFrom(s, key, other);
    }
  }

  /**
   * Different cards never affect each other: in a run that does not fail,
   * the state, the stored card and the output of one card are what a run of
   * that card's events alone, from the same state of that card, produces.
   */
  lemma {:induction false} RunIsolated(p: JobState, q: JobState, events: seq<Transaction>, key: string)
    requires SameFor(p, q, key)
    requires Run(p, events).fault.None?
    ensures Run(q, EventsFor(events, key)).fault.None?
    ensures SameFor(Run(p, events).last, Run(q, EventsFor(events, key)).last, key)
    decreases |events|
  {
    if events != [] {
      var t := events[0];
      var p' := Step(p, t).value;
      if t.cardNumber == key {
        StepHere(p, q, t);
        var q' := Step(q, t).value;
        assert EventsFor(events, key) == [t] + EventsFor(events[1..], key);
        assert ([t] + EventsFor(events[1..], key))[1..] == EventsFor(events[1..], key);
        RunIsolated(p', q', events[1..], key);
      } else {
        StepElsewhere(p, t, key);
        assert EventsFor(events, key) == EventsFor(events[1..], key);
        RunIsolated(p', q, events[1..], key);
      }
    }
  }
}
