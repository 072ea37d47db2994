/**
 * The synchronous authorization (TransactionEntryProcessor.java): run on the
 * entry of one card, it decides the transaction by a fixed-priority chain of
 * checks and, on approval only, adds the amount to the stored card.
 */
module SyncAuthorization {
  import opened Wrappers
  import opened Transactions
  import opened Cards
  import opened Store

  /**
   * The decision for a transaction of `amount` dollars on the card stored
   * under the entry's key (`None` when there is no such card). Each outcome is
   * characterized by exactly the inputs that produce it, earlier checks
   * winning over later ones.
   */
  function Decision(entry: Option<CardRecord>, amount: int): (r: Status)
    ensures r != New
    ensures r == InvalidCard <==> entry.None?
    ensures r == DeclinedBigTxn <==> entry.Some? && amount > 5000
    ensures r == DeclinedLocked <==> entry.Some? && amount <= 5000 && entry.value.locked
    ensures r == Approved <==>
      entry.Some? && amount <= 5000 && !entry.value.locked
      && entry.value.authorizedDollars + amount <= entry.value.creditLimitDollars
    ensures r == DeclinedOverAuthLimit <==>
      entry.Some? && amount <= 5000 && !entry.value.locked
      && entry.value.authorizedDollars + amount > entry.value.creditLimitDollars
  {
    if entry.None? then InvalidCard
    else if amount > 5000 then DeclinedBigTxn
    else if entry.value.locked then DeclinedLocked
    else if entry.value.authorizedDollars + amount <= entry.value.creditLimitDollars then Approved
    else DeclinedOverAuthLimit
  }

  /**
   * One synchronous authorization against the whole store, as a value: the
   * decision, and the store afterwards. Only an approval writes, and it only
   * credits the one card; a missing card is never created.
   */
  function Authorize(cards: map<string, CardRecord>, key: string, amount: int)
    : (r: (Status, map<string, CardRecord>))
    ensures r.0 == Decision(Lookup(cards, key), amount)
    ensures r.1.Keys == cards.Keys
    ensures r.0 == Approved ==> key in cards && r.1 == cards[key := Credited(cards[key], amount)]
    ensures r.0 != Approved ==> r.1 == cards
  {
    var status := Decision(Lookup(cards, key), amount);
    if status == Approved then (status, cards[key := Credited(cards[key], amount)])
    else (status, cards)
  }

  /** An approval leaves the card within its limit; every other outcome writes nothing. */
  lemma AuthorizeKeepsWithinLimits(cards: map<string, CardRecord>, key: string, amount: int)
    requires WithinLimits(cards)
    ensures WithinLimits(Authorize(cards, key, amount).1)
  {
  }

  /** A sequence of synchronous requests `(card number, amount)` applied one after another. */
  function AuthorizeAll(cards: map<string, CardRecord>, requests: seq<(string, int)>)
    : (r: (seq<Status>, map<string, CardRecord>))
    ensures |r.0| == |requests|
    ensures r.1.Keys == cards.Keys
  {
    if requests == [] then ([], cards)
    else
      var first := Authorize(cards, requests[0].0, requests[0].1);
      var rest := AuthorizeAll(first.1, requests[1..]);
      ([first.0] + rest.0, rest.1)
  }

  /** Safety of the synchronous path: after any sequence of requests every card is within its limit. */
  lemma {:induction false} AuthorizeAllKeepsWithinLimits(
    cards: map<string, CardRecord>, requests: seq<(string, int)>)
    requires WithinLimits(cards)
    ensures WithinLimits(AuthorizeAll(cards, requests).1)
    decreases |requests|
  {
    if requests != [] {
      var first := Authorize(cards, requests[0].0, requests[0].1);
      AuthorizeKeepsWithinLimits(cards, requests[0].0, requests[0].1);
      AuthorizeAllKeepsWithinLimits(first.1, requests[1..]);
    }
  }

  /** With non-negative amounts no card's authorized dollars ever become negative. */
  lemma {:induction false} AuthorizeAllKeepsNonNegative(
    cards: map<string, CardRecord>, requests: seq<(string, int)>)
    requires NonNegative(cards)
    requires forall i :: 0 <= i < |requests| ==> requests[i].1 >= 0
    ensures NonNegative(AuthorizeAll(cards, requests).1)
    decreases |requests|
  {
    if requests != [] {
      var first := Authorize(cards, requests[0].0, requests[0].1);
      assert NonNegative(first.1);
      AuthorizeAllKeepsNonNegative(first.1, requests[1..]);
    }
  }

  /**
   * Nothing checks the sign of an amount: a request of -100 is approved and
   * lowers the card's authorized dollars below zero.
   */
  lemma NegativeAmountApproved()
    ensures Authorize(map["c" := CardRecord("c", false, 1000, 0)], "c", -100)
         == (Approved, map["c" := CardRecord("c", false, 1000, -100)])
  {
    var c := CardRecord("c", false, 1000, 0);
    assert map["c" := c]["c" := Credited(c, -100)] == map["c" := CardRecord("c", false, 1000, -100)];
  }

  /** The worked examples of the decision rules. */
  lemma DecisionExamples()
    ensures var c := CardRecord("c", false, 1000, 400);
      && Authorize(map["c" := c], "c", 500) == (Approved, map["c" := c.(authorizedDollars := 900)])
      && Authorize(map["c" := c], "c", 700) == (DeclinedOverAuthLimit, map["c" := c])
      && Authorize(map["c" := c], "c", 6000) == (DeclinedBigTxn, map["c" := c])
    ensures Decision(Some(CardRecord("c", true, 2000, 0)), 10) == DeclinedLocked
    ensures Decision(Some(CardRecord("c", true, 1000, 2000)), 6000) == DeclinedBigTxn
    ensures Authorize(map[], "unknown", 10) == (InvalidCard, map[])
  {
    var c := CardRecord("c", false, 1000, 400);
    assert map["c" := c]["c" := Credited(c, 500)] == map["c" := c.(authorizedDollars := 900)];
  }

  class TransactionEntryProcessor {
    const transaction: Transaction

    constructor (t: Transaction)
      ensures transaction == t
    {
      transaction := t;
    }

    /**
     * `process(entry)` on the entry stored under `key`: the response is the
     * name of the decision, and the store is as `Authorize` says.
     */
    method Process(store: CardStore, key: string) returns (response: string)
      modifies store
      ensures response == Name(Authorize(old(store.cards), key, transaction.amount).0)
      ensures store.cards == Authorize(old(store.cards), key, transaction.amount).1
    {
      if key !in store.cards {
        return Name(InvalidCard);
      }
      var card := new Card.FromRecord(store.cards[key]);

      if transaction.amount > 5000 {
        return Name(DeclinedBigTxn);
      }

      if card.locked {
        return Name(DeclinedLocked);
      }

      if card.authorizedDollars + transaction.amount <= card.creditLimitDollars {
        card.AddAuthorizedDollars(transaction.amount);
        store.cards := store.cards[key := card.Record()];
        return Name(Approved);
      } else {
        return Name(DeclinedOverAuthLimit);
      }
    }
  }
}
