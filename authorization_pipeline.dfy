/**
 * The stream authorization job (AuthorizationPipelineSolution.createPipeline):
 * each parsed transaction passes a big-transaction check, a locked-card check,
 * the per-card stateful credit check and the final approval; every result is
 * emitted keyed by card number, and approved ones are also sent to the store
 * as a CardEntryProcessor. Events are processed one at a time in arrival
 * order, which is what keying by card number and order preservation give
 * each card.
 */
module AuthorizationPipeline {
  import opened Wrappers
  import opened Transactions
  import opened Cards
  import opened Store
  import opened StreamState
  import opened CardUpdate

  /** The ways the job fails on an event. */
  datatype Fault =
      /** `card.getLocked()` on the null a lookup of an unknown card gives. */
    | NullCardInLockedCheck(cardNumber: string)
      /** The exception CardState raises when it cannot seed itself. */
    | CreditCheckFailed(message: string)
      /** The store update reaching an entry without a card. */
    | NullCardInStoreUpdate(cardNumber: string)

  /** Stage "check for big transactions": over 5000 is declined, whatever the status was. */
  function BigTxnStage(t: Transaction): (r: Transaction)
    ensures r == t.(status := r.status)
    ensures r.status == DeclinedBigTxn <==> t.amount > 5000 || t.status == DeclinedBigTxn
    ensures t.amount <= 5000 ==> r == t
  {
    if t.amount > 5000 then t.(status := DeclinedBigTxn) else t
  }

  /**
   * Stage "check for locked card", given the lookup of the transaction's card.
   * Only a transaction still NEW is looked at: it is declined if the card is
   * locked, and the job fails if there is no card.
   */
  function LockedStage(t: Transaction, card: Option<CardRecord>): (r: Result<Transaction, Fault>)
    ensures r.Failure? <==> t.status == New && card.None?
    ensures r.Failure? ==> r.error == NullCardInLockedCheck(t.cardNumber)
    ensures r.Success? ==> r.value == t.(status := r.value.status)
    ensures r.Success? ==> (r.value.status != t.status <==> t.status == New && card.value.locked)
    ensures r.Success? && r.value.status != t.status ==> r.value.status == DeclinedLocked
  {
    if t.status == New then
      if card.None? then Failure(NullCardInLockedCheck(t.cardNumber))
      else if card.value.locked then Success(t.(status := DeclinedLocked))
      else Success(t)
    else Success(t)
  }

  /**
   * The mapStateful stage: a NEW transaction goes through the card's credit
   * check; any other passes through and leaves the card's state as it was.
   */
  function StatefulStage(s: CachedCredit, t: Transaction, cards: map<string, CardRecord>)
    : (r: Result<(CachedCredit, Transaction), Fault>)
    ensures t.status != New ==> r == Success((s, t))
    ensures t.status == New ==> (r.Failure? <==> CheckCredit(s, t, cards).Failure?)
    ensures t.status == New && r.Success? ==> r.value == CheckCredit(s, t, cards).value
    ensures r.Failure? ==> r.error == CreditCheckFailed(MissingCardMessage(t.cardNumber))
  {
    if t.status != New then Success((s, t))
    else
      match CheckCredit(s, t, cards)
      case Success(p) => Success(p)
      case Failure(e) => Failure(CreditCheckFailed(e))
  }

  /** Stage "final approval": whatever survived every check is approved. */
  function FinalApproval(t: Transaction): (r: Transaction)
    ensures r.status != New
    ensures r == t.(status := r.status)
    ensures t.status == New ==> r.status == Approved
    ensures t.status != New ==> r == t
  {
    if t.status == New then t.(status := Approved) else t
  }

  /**
   * What the job holds between events: the per-card states of the stateful
   * stage, the card store, and everything emitted so far (key, transaction).
   */
  datatype JobState = JobState(
    states: map<string, CachedCredit>,
    cards: map<string, CardRecord>,
    emitted: seq<(string, Transaction)>)

  /** A job (re)started against the store: no per-card state, nothing emitted yet. */
  function Start(cards: map<string, CardRecord>): JobState {
    JobState(map[], cards, [])
  }

  /** The state mapStateful gives the function for a key: the kept one, or a new CardState. */
  function StateFor(states: map<string, CachedCredit>, key: string): (s: CachedCredit)
    ensures key !in states ==> s == Unseeded
    ensures key in states ==> s == states[key]
  {
    if key in states then states[key] else Unseeded
  }

  /**
   * One event through every stage and both sinks, given the state kept for
   * its card: the card's new state, the store afterwards and the transaction
   * emitted.
   */
  function Stages(s: CachedCredit, cards: map<string, CardRecord>, t: Transaction)
    : (r: Result<(CachedCredit, map<string, CardRecord>, Transaction), Fault>)
    // the job fails exactly on a card missing from the store, for a NEW
    // transaction (at the locked check) or one arriving already APPROVED
    // (at the store update), unless it is a big transaction
    ensures r.Failure? <==>
      t.cardNumber !in cards && t.amount <= 5000 && (t.status == New || t.status == Approved)
    // the emitted transaction is the input with its final status
    ensures r.Success? ==> r.value.2 == t.(status := r.value.2.status) && r.value.2.status != New
    // exactly an approval adds the amount to the card, and nothing else is written
    ensures r.Success? && r.value.2.status == Approved ==>
      t.cardNumber in cards && r.value.1 == Increment(cards, t.cardNumber, t.amount)
    ensures r.Success? && r.value.2.status != Approved ==> r.value.1 == cards
    // a transaction declined before the credit check leaves the card's state as it was
    ensures r.Success? && BigTxnStage(t).status != New ==> r.value.0 == s
    ensures r.Success? && r.value.2.status == DeclinedLocked ==> r.value.0 == s
    // a NEW transaction that passes both checks leaves the state the credit check gives
    ensures t.status == New && t.amount <= 5000 && t.cardNumber in cards && !cards[t.cardNumber].locked ==>
      r.Success? && r.value.0 == CheckCredit(s, t, cards).value.0
  {
    var big := BigTxnStage(t);
    match LockedStage(big, Lookup(cards, big.cardNumber))
    case Failure(f) => Failure(f)
    case Success(checked) =>
      match StatefulStage(s, checked, cards)
      case Failure(f) => Failure(f)
      case Success(authorized) =>
        var final := FinalApproval(authorized.1);
        if final.status == Approved && t.cardNumber !in cards then
          Failure(NullCardInStoreUpdate(t.cardNumber))
        else if final.status == Approved then
          Success((authorized.0, Increment(cards, t.cardNumber, final.amount), final))
        else
          Success((authorized.0, cards, final))
  }

  /** One event as the job sees it: keyed by the transaction's card number. */
  function Step(p: JobState, t: Transaction): Result<JobState, Fault> {
    var key := t.cardNumber;
    match Stages(StateFor(p.states, key), p.cards, t)
    case Failure(f) => Failure(f)
    case Success(e) => Success(JobState(p.states[key := e.0], e.1, p.emitted + [(key, e.2)]))
  }

  /**
   * A step replaces the state of the event's card number alone, appends one
   * output keyed by it, and never adds or removes a card; it fails exactly
   * when the stages find the card missing.
   */
  lemma StepKeyed(p: JobState, t: Transaction)
    ensures Step(p, t).Failure? <==>
      t.cardNumber !in p.cards && t.amount <= 5000 && (t.status == New || t.status == Approved)
    ensures Step(p, t).Success? ==> var q := Step(p, t).value;
      && q.states.Keys == p.states.Keys + {t.cardNumber}
      && (forall k :: k in p.states && k != t.cardNumber ==> q.states[k] == p.states[k])
      && q.cards.Keys == p.cards.Keys
      && |q.emitted| == |p.emitted| + 1 && q.emitted[..|p.emitted|] == p.emitted
      && q.emitted[|p.emitted|].0 == t.cardNumber
  {
  }

  /**
   * The status the stages emit for an event on a stored card: a big
   * transaction is declined as such whatever its status; a NEW one is then
   * declined on a locked card, and otherwise approved exactly when the
   * numbers the card's state holds (seeded from the store on its first
   * event) leave room for the amount.
   */
  lemma StagesDecide(s: CachedCredit, cards: map<string, CardRecord>, t: Transaction)
    ensures t.amount > 5000 ==> Stages(s, cards, t).Success? && Stages(s, cards, t).value.2.status == DeclinedBigTxn
    ensures t.status == New && t.amount <= 5000 && t.cardNumber in cards && cards[t.cardNumber].locked ==>
      Stages(s, cards, t).Success? && Stages(s, cards, t).value.2.status == DeclinedLocked
    ensures t.status == New && t.amount <= 5000 && t.cardNumber in cards && !cards[t.cardNumber].locked ==>
      var base := SeedFrom(s, t.cardNumber, cards).value;
      && Stages(s, cards, t).Success?
      && (Stages(s, cards, t).value.2.status == Approved <==> base.authorizedDollars + t.amount <= base.creditLimitDollars)
      && (Stages(s, cards, t).value.2.status != Approved ==> Stages(s, cards, t).value.2.status == DeclinedOverAuthLimit)
  {
  }

  /** How a run ends: the last job state reached, and the fault that stopped the job, if any. */
  datatype Outcome = Outcome(last: JobState, fault: Option<Fault>)

  /** The events processed in order until they run out or one fails the job. */
  function Run(p: JobState, events: seq<Transaction>): Outcome
    decreases |events|
  {
    if events == [] then Outcome(p, None)
    else
      match Step(p, events[0])
      case Failure(f) => Outcome(p, Some(f))
      case Success(q) => Run(q, events[1..])
  }

  /** A run over one event is that event's step. */
  lemma RunSingle(p: JobState, t: Transaction)
    ensures Step(p, t).Failure? ==> Run(p, [t]) == Outcome(p, Some(Step(p, t).error))
    ensures Step(p, t).Success? ==> Run(p, [t]) == Outcome(Step(p, t).value, None)
  {
    assert [t][1..] == [];
  }

  /** Running from event `i` on, when the event fails the job: the run stops there. */
  lemma RunHalts(p: JobState, events: seq<Transaction>, i: nat, f: Fault)
    requires i < |events|
    requires Stages(StateFor(p.states, events[i].cardNumber), p.cards, events[i]) == Failure(f)
    ensures Run(p, events[i..]) == Outcome(p, Some(f))
  {
    assert events[i..][0] == events[i];
  }

  /** Running from event `i` on, when the event passes: its results are kept and the run goes on. */
  lemma RunAdvances(p: JobState, events: seq<Transaction>, i: nat,
                    s: CachedCredit, cards: map<string, CardRecord>, final: Transaction)
    requires i < |events|
    requires Stages(StateFor(p.states, events[i].cardNumber), p.cards, events[i]) == Success((s, cards, final))
    ensures Run(p, events[i..])
         == Run(JobState(p.states[events[i].cardNumber := s], cards, p.emitted + [(events[i].cardNumber, final)]), events[i + 1..])
  {
    assert events[i..][0] == events[i] && events[i..][1..] == events[i + 1..];
  }

  /**
   * One event, with `state` the CardState that mapStateful keeps for the
   * event's card number. On a fault the job stops; what the stages had
   * already done to the state is then of no further interest.
   */
  method ProcessEvent(store: CardStore, state: CardState, t: Transaction)
    returns (final: Transaction, fault: Option<Fault>)
    modifies store, state
    ensures fault.None? <==> Stages(old(state.Value()), old(store.cards), t).Success?
    ensures fault.Some? ==> fault.value == Stages(old(state.Value()), old(store.cards), t).error
    ensures fault.Some? ==> store.cards == old(store.cards)
    ensures fault.Some? ==> state.Value() == old(state.Value())
    ensures fault.None? ==>
      Stages(old(state.Value()), old(store.cards), t).value == (state.Value(), store.cards, final)
  {
    // check for big transactions
    var big := BigTxnStage(t);

    // check for locked card
    var locked := LockedStage(big, store.Get(big.cardNumber));
    if locked.Failure? {
      return t, Some(locked.error);
    }
    var txn := locked.value;

    // the per-card stateful credit check, for transactions still NEW
    if txn.status == New {
      var checked := state.CheckCreditLimit(txn, store.cards);
      if checked.Failure? {
        // cannot happen: LockedStage has already failed for a NEW transaction
        // whose card is missing, and the check fails only on a missing card
        assert false;
        return t, Some(CreditCheckFailed(MissingCardMessage(t.cardNumber)));
      }
      txn := checked.value;
    }

    // final approval
    final := FinalApproval(txn);

    // the store update, for approved transactions only
    if final.status == Approved {
      if t.cardNumber !in store.cards {
        return final, Some(NullCardInStoreUpdate(t.cardNumber));
      }
      var update := new CardEntryProcessor(final.amount);
      var withinLimit := update.Process(store, t.cardNumber);
    }
    fault := None;
  }

  /**
   * The job run over a sequence of events against the store, from fresh
   * per-card state. One CardState object is kept per card number, created
   * when the card's first event arrives.
   */
  method RunPipeline(store: CardStore, events: seq<Transaction>)
    returns (emitted: seq<(string, Transaction)>, fault: Option<Fault>)
    modifies store
    ensures emitted == Run(Start(old(store.cards)), events).last.emitted
    ensures store.cards == Run(Start(old(store.cards)), events).last.cards
    ensures fault == Run(Start(old(store.cards)), events).fault
  {
    ghost var goal := Run(Start(store.cards), events);
    var states: map<string, CardState> := map[];
    ghost var view: map<string, CachedCredit> := map[];
    emitted := [];
    var i := 0;
    while i < |events|
      invariant 0 <= i <= |events|
      invariant states.Keys == view.Keys
      invariant forall k :: k in states ==> fresh(states[k])
      invariant forall k :: k in states ==> states[k].Value() == view[k]
      invariant forall j, k :: j in states && k in states && j != k ==> states[j] != states[k]
      invariant goal == Run(JobState(view, store.cards, emitted), events[i..])
    {
      var t := events[i];
      var key := t.cardNumber;
      ghost var p := JobState(view, store.cards, emitted);

      if key !in states {
        var created := new CardState();
        states := states[key := created];
      }
      var state := states[key];
      assert state.Value() == StateFor(p.states, key);

      var final, failed := ProcessEvent(store, state, t);
      if failed.Some? {
        RunHalts(p, events, i, failed.value);
        return emitted, failed;
      }
      forall k | k in states && k != key
        ensures states[k].Value() == p.states[k]
      {
        assert states[k] != state;
      }

      // the response output
      emitted := emitted + [(key, final)];
      view := p.states[key := state.Value()];
      RunAdvances(p, events, i, state.Value(), store.cards, final);
      i := i + 1;
    }
    fault := None;
  }
}
