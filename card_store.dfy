/**
 * The "cards" map of the data grid: card number to stored card record.
 * Each entry-processor call is one method on the store, so it runs as one
 * atomic read-modify-write of its key.
 */
module Store {
  import opened Wrappers
  import opened Cards

  /** `map.get(key)`: the stored card, or nothing for an unknown card number. */
  function Lookup(cards: map<string, CardRecord>, key: string): (r: Option<CardRecord>)
    ensures r.Some? <==> key in cards
    ensures r.Some? ==> r.value == cards[key]
  {
    if key in cards then Some(cards[key]) else None
  }

  /** Every stored card's authorized dollars are within its credit limit. */
  ghost predicate WithinLimits(cards: map<string, CardRecord>) {
    forall k :: k in cards ==> cards[k].authorizedDollars <= cards[k].creditLimitDollars
  }

  /** No stored card has authorized a negative number of dollars. */
  ghost predicate NonNegative(cards: map<string, CardRecord>) {
    forall k :: k in cards ==> 0 <= cards[k].authorizedDollars
  }

  class CardStore {
    var cards: map<string, CardRecord>

    constructor (initial: map<string, CardRecord>)
      ensures cards == initial
    {
      cards := initial;
    }

    function Get(key: string): Option<CardRecord>
      reads this
    {
      Lookup(cards, key)
    }
  }
}
