/**
 * The per-card state of the stream's credit check (CardState.java). A fresh
 * state holds -1 in both fields, meaning "not yet seeded"; the first check
 * copies the card's numbers from the store, and from then on the state
 * evolves on its own, without consulting the store again.
 */
module StreamState {
  import opened Wrappers
  import opened Transactions
  import opened Cards

  /** The values of a CardState's two fields. */
  datatype CachedCredit = CachedCredit(authorizedDollars: int, creditLimitDollars: int)

  /** The state that `new CardState()` starts in. */
  const Unseeded := CachedCredit(-1, -1)

  /** The check tests only the credit limit for the -1 sentinel. */
  predicate IsSeeded(s: CachedCredit) {
    s.creditLimitDollars != -1
  }

  /** The message of the exception raised when the card is not in the store. */
  function MissingCardMessage(cardNumber: string): string {
    "Could not retrieve credit limit for " + cardNumber
  }

  /**
   * The numbers the credit check runs against: the state itself once it is
   * seeded, otherwise the stored card's; failing when it must seed and the
   * card is absent.
   */
  function SeedFrom(s: CachedCredit, cardNumber: string, cards: map<string, CardRecord>)
    : (r: Result<CachedCredit, string>)
    ensures r.Failure? <==> !IsSeeded(s) && cardNumber !in cards
    ensures r.Failure? ==> r.error == MissingCardMessage(cardNumber)
    ensures IsSeeded(s) ==> r == Success(s)
    ensures !IsSeeded(s) && cardNumber in cards ==>
      r == Success(CachedCredit(cards[cardNumber].authorizedDollars, cards[cardNumber].creditLimitDollars))
  {
    if IsSeeded(s) then Success(s)
    else if cardNumber !in cards then Failure(MissingCardMessage(cardNumber))
    else Success(CachedCredit(cards[cardNumber].authorizedDollars, cards[cardNumber].creditLimitDollars))
  }

  /**
   * `checkCreditLimit(t)` as a value: the new state and the transaction it
   * returns. Within the limit, the cached authorized dollars grow by the
   * amount and the transaction is returned untouched; otherwise the state
   * keeps the seeded numbers and only the status changes. The limit is the
   * seeded one either way, and only the status of the transaction can change.
   */
  function CheckCredit(s: CachedCredit, t: Transaction, cards: map<string, CardRecord>)
    : (r: Result<(CachedCredit, Transaction), string>)
    ensures r.Failure? <==> !IsSeeded(s) && t.cardNumber !in cards
    ensures r.Failure? ==> r.error == MissingCardMessage(t.cardNumber)
    ensures r.Success? ==>
      var base := SeedFrom(s, t.cardNumber, cards).value;
      && r.value.0.creditLimitDollars == base.creditLimitDollars
      && r.value.1 == t.(status := r.value.1.status)
      && (base.authorizedDollars + t.amount <= base.creditLimitDollars ==>
            && r.value.1 == t
            && r.value.0.authorizedDollars == base.authorizedDollars + t.amount
            && r.value.0.authorizedDollars <= r.value.0.creditLimitDollars)
      && (base.authorizedDollars + t.amount > base.creditLimitDollars ==>
            r.value.0 == base && r.value.1.status == DeclinedOverAuthLimit)
  {
    match SeedFrom(s, t.cardNumber, cards)
    case Failure(e) => Failure(e)
    case Success(base) =>
      if t.amount + base.authorizedDollars <= base.creditLimitDollars then
        Success((base.(authorizedDollars := base.authorizedDollars + t.amount), t))
      else
        Success((base, t.(status := DeclinedOverAuthLimit)))
  }

  /** Once seeded, the check gives the same answer whatever the store holds. */
  lemma SeededIgnoresStore(
    s: CachedCredit, t: Transaction, cards: map<string, CardRecord>, other: map<string, CardRecord>)
    requires IsSeeded(s)
    ensures CheckCredit(s, t, cards) == CheckCredit(s, t, other)
  {
  }

  class CardState {
    var authorizedDollars: int
    var creditLimitDollars: int

    constructor ()
      ensures Value() == Unseeded
    {
      authorizedDollars := -1;
      creditLimitDollars := -1;
    }

    function Value(): CachedCredit
      reads this
    {
      CachedCredit(authorizedDollars, creditLimitDollars)
    }

    /**
     * `checkCreditLimit(t)`, with the card store a parameter. A thrown
     * exception becomes `Failure`, and it leaves the fields as they were.
     */
    method CheckCreditLimit(t: Transaction, cards: map<string, CardRecord>)
      returns (r: Result<Transaction, string>)
      modifies this
      ensures match CheckCredit(old(Value()), t, cards)
        case Success(p) => r == Success(p.1) && Value() == p.0
        case Failure(e) => r == Failure(e) && Value() == old(Value())
    {
      if creditLimitDollars == -1 {
        if t.cardNumber !in cards {
          return Failure(MissingCardMessage(t.cardNumber));
        }
        var card := cards[t.cardNumber];
        authorizedDollars := card.authorizedDollars;
        creditLimitDollars := card.creditLimitDollars;
      }

      var checked := t;
      if t.amount + authorizedDollars <= creditLimitDollars {
        authorizedDollars := authorizedDollars + t.amount;
      } else {
        checked := t.(status := DeclinedOverAuthLimit);
      }
      return Success(checked);
    }
  }
}
