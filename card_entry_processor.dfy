/**
 * The store-side increment (CardEntryProcessor.java) that the stream path
 * sends for every approved transaction: it adds the amount unconditionally
 * and reports whether the card is still within its limit.
 */
module CardUpdate {
  import opened Cards
  import opened Store

  /** The store after `amount` has been added to the card under `key`. */
  function Increment(cards: map<string, CardRecord>, key: string, amount: int)
    : (r: map<string, CardRecord>)
    requires key in cards
    ensures r.Keys == cards.Keys
    ensures r[key] == Credited(cards[key], amount)
    ensures forall k :: k in cards && k != key ==> r[k] == cards[k]
  {
    cards[key := Credited(cards[key], amount)]
  }

  /** The increment is not idempotent: delivering it twice adds the amount twice. */
  lemma IncrementTwice(cards: map<string, CardRecord>, key: string, amount: int)
    requires key in cards
    ensures Increment(Increment(cards, key, amount), key, amount)[key].authorizedDollars
      == cards[key].authorizedDollars + 2 * amount
  {
  }

  /** Unlike the synchronous processor, the increment can push a card past its limit. */
  lemma IncrementCanExceedLimit()
    ensures var cards := map["c" := CardRecord("c", false, 1000, 900)];
      !WithinLimits(Increment(cards, "c", 200))
  {
    var cards := map["c" := CardRecord("c", false, 1000, 900)];
    assert Increment(cards, "c", 200)["c"].authorizedDollars == 1100;
  }

  class CardEntryProcessor {
    const amount: int

    constructor (amount: int)
      ensures this.amount == amount
    {
      this.amount := amount;
    }

    /**
     * `process(entry)`: the entry must hold a card (there is no null check).
     * Adds `amount` to it and answers whether it is still within its limit.
     */
    method Process(store: CardStore, key: string) returns (withinLimit: bool)
      requires key in store.cards
      modifies store
      ensures store.cards == Increment(old(store.cards), key, amount)
      ensures withinLimit <==>
        old(store.cards[key].authorizedDollars) + amount <= store.cards[key].creditLimitDollars
    {
      var card := new Card.FromRecord(store.cards[key]);
      card.AddAuthorizedDollars(amount);
      store.cards := store.cards[key := card.Record()];
      withinLimit := card.authorizedDollars <= card.creditLimitDollars;
    }
  }
}
