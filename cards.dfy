/**
 * The card record (Card.java): its four fields, the in-place mutators and the
 * text rendering, together with a reader that recovers a card from its text.
 */
module Cards {
  import opened Wrappers
  import opened Decimal

  /** A card as the store holds it: the store keeps serialized values, not shared objects. */
  datatype CardRecord = CardRecord(
    cardNumber: string,
    locked: bool,
    creditLimitDollars: int,
    authorizedDollars: int)

  /** The record after `amount` more dollars have been authorized against it. */
  function Credited(c: CardRecord, amount: int): (r: CardRecord)
    ensures r.authorizedDollars == c.authorizedDollars + amount
    ensures r.cardNumber == c.cardNumber && r.locked == c.locked
    ensures r.creditLimitDollars == c.creditLimitDollars
  {
    c.(authorizedDollars := c.authorizedDollars + amount)
  }

  /** Crediting is additive: two credits in a row are one credit of the sum. */
  lemma CreditedTwice(c: CardRecord, a: int, b: int)
    ensures Credited(Credited(c, a), b) == Credited(c, a + b)
  {
  }

  class Card {
    var cardNumber: string
    var locked: bool
    var creditLimitDollars: int
    var authorizedDollars: int

    /** The card the store hands out for an entry: a fresh copy of the stored record. */
    constructor FromRecord(r: CardRecord)
      ensures Record() == r
    {
      cardNumber := r.cardNumber;
      locked := r.locked;
      creditLimitDollars := r.creditLimitDollars;
      authorizedDollars := r.authorizedDollars;
    }

    /** The value written back to the store by `entry.setValue(card)`. */
    function Record(): CardRecord
      reads this
    {
      CardRecord(cardNumber, locked, creditLimitDollars, authorizedDollars)
    }

    method SetCardNumber(number: string)
      modifies this
      ensures cardNumber == number
      ensures Record() == old(Record()).(cardNumber := number)
    {
      cardNumber := number;
    }

    method SetCreditLimitDollars(limit: int)
      modifies this
      ensures creditLimitDollars == limit
      ensures Record() == old(Record()).(creditLimitDollars := limit)
    {
      creditLimitDollars := limit;
    }

    method SetAuthorizedDollars(authorized: int)
      modifies this
      ensures authorizedDollars == authorized
      ensures Record() == old(Record()).(authorizedDollars := authorized)
    {
      authorizedDollars := authorized;
    }

    method SetLocked(isLocked: bool)
      modifies this
      ensures locked == isLocked
      ensures Record() == old(Record()).(locked := isLocked)
    {
      locked := isLocked;
    }

    /** `authorizedDollars += amount`; the other three fields keep their values. */
    method AddAuthorizedDollars(amount: int)
      modifies this
      ensures authorizedDollars == old(authorizedDollars) + amount
      ensures Record() == Credited(old(Record()), amount)
    {
      authorizedDollars := authorizedDollars + amount;
    }

    /**
     * toString(): the card number between quotes after `Card{cardNumber=`,
     * then the other three fields, closed by a brace.
     */
    function ToString(): (r: string)
      reads this
      ensures var head := "Card{cardNumber='" + cardNumber + "', locked=";
        |head| < |r| && r[..|head|] == head && r[|r| - 1] == '}'
    {
      CardTextShape(Record());
      CardText(Record())
    }
  }

  /** `Card{cardNumber='<n>', locked=<b>, creditLimitDollars=<l>, authorizedDollars=<a>}` */
  function CardText(r: CardRecord): string {
    "Card{cardNumber='" + (r.cardNumber
    + ("', locked=" + (BoolToString(r.locked)
    + (", creditLimitDollars=" + (IntToString(r.creditLimitDollars)
    + (", authorizedDollars=" + (IntToString(r.authorizedDollars)
    + "}")))))))
  }

  /** The text of a card opens with its number in quotes and ends with a brace. */
  lemma CardTextShape(r: CardRecord)
    ensures var head := "Card{cardNumber='" + r.cardNumber + "', locked=";
      |head| < |CardText(r)| && CardText(r)[..|head|] == head && CardText(r)[|CardText(r)| - 1] == '}'
  {
    var t7 := IntToString(r.authorizedDollars) + "}";
    var t6 := ", authorizedDollars=" + t7;
    var t5 := IntToString(r.creditLimitDollars) + t6;
    var t4 := ", creditLimitDollars=" + t5;
    var t3 := BoolToString(r.locked) + t4;
    var t2 := "', locked=" + t3;
    var t1 := r.cardNumber + t2;
    PrefixThenRest("Card{cardNumber='", r.cardNumber, "', locked=", t3);
    LastOfConcat(IntToString(r.authorizedDollars), "}");
    LastOfConcat(", authorizedDollars=", t7);
    LastOfConcat(IntToString(r.creditLimitDollars), t6);
    LastOfConcat(", creditLimitDollars=", t5);
    LastOfConcat(BoolToString(r.locked), t4);
    LastOfConcat("', locked=", t3);
    LastOfConcat(r.cardNumber, t2);
    LastOfConcat("Card{cardNumber='", t1);
  }

  /** Regrouping a text `a + n + b` followed by `rest`: it starts with `a + n + b`. */
  lemma PrefixThenRest(a: string, n: string, b: string, rest: string)
    ensures var head := a + n + b;
      a + (n + (b + rest)) == head + rest && (head + rest)[..|head|] == head
  {
    assert a + (n + (b + rest)) == (a + n + b) + rest;
  }

  /** The last character of a concatenation with a non-empty end is that end's last. */
  lemma LastOfConcat(s: string, e: string)
    requires |e| > 0
    ensures (s + e)[|s + e| - 1] == e[|e| - 1]
  {
  }

  function BoolToString(b: bool): string {
    if b then "true" else "false"
  }

  /** The rest of `s` after the literal `lit`, if `s` starts with it. */
  function Expect(lit: string, s: string): Option<string> {
    if |lit| <= |s| && s[..|lit|] == lit then Some(s[|lit|..]) else None
  }

  function ReadBool(s: string): Option<(bool, string)> {
    match Expect("true", s)
    case Some(rest) => Some((true, rest))
    case None =>
      match Expect("false", s)
      case Some(rest) => Some((false, rest))
      case None => None
  }

  /** The characters before the first quote, and the rest of `s` from that quote on. */
  function ReadUntilQuote(s: string): (r: Option<(string, string)>)
    ensures r.Some? ==> r.value.0 + r.value.1 == s
  {
    if s == [] then None
    else if s[0] == '\'' then Some(([], s))
    else
      match ReadUntilQuote(s[1..])
      case None => None
      case Some(p) => Some(([s[0]] + p.0, p.1))
  }

  lemma {:induction false} ReadUntilQuoteOf(n: string, rest: string)
    requires '\'' !in n
    requires |rest| > 0 && rest[0] == '\''
    ensures ReadUntilQuote(n + rest) == Some((n, rest))
  {
    if n == [] {
      assert n + rest == rest;
    } else {
      assert (n + rest)[1..] == n[1..] + rest;
      assert n[0] in n;
      ReadUntilQuoteOf(n[1..], rest);
      assert [n[0]] + n[1..] == n;
    }
  }

  lemma ExpectOf(lit: string, rest: string)
    ensures Expect(lit, lit + rest) == Some(rest)
  {
    assert (lit + rest)[..|lit|] == lit;
    assert (lit + rest)[|lit|..] == rest;
  }

  lemma ReadBoolOf(b: bool, rest: string)
    ensures ReadBool(BoolToString(b) + rest) == Some((b, rest))
  {
    ExpectOf(BoolToString(b), rest);
    if !b {
      assert ("false" + rest)[..4][0] == 'f';
    }
  }

  /** Reads the text that `Card.ToString` produces. */
  function ParseCardString(s: string): Option<CardRecord> {
    var r1 :- Expect("Card{cardNumber='", s);
    var number :- ReadUntilQuote(r1);
    var r3 :- Expect("', locked=", number.1);
    var locked :- ReadBool(r3);
    var r5 :- Expect(", creditLimitDollars=", locked.1);
    var limit :- ReadInt(r5);
    var r7 :- Expect(", authorizedDollars=", limit.1);
    var authorized :- ReadInt(r7);
    if authorized.1 == "}" then Some(CardRecord(number.0, locked.0, limit.0, authorized.0)) else None
  }

  /**
   * The rendering loses nothing: as long as the card number holds no quote
   * character, the text of a card reads back as exactly that card.
   */
  lemma CardTextRoundTrip(r: CardRecord)
    requires '\'' !in r.cardNumber
    ensures ParseCardString(CardText(r)) == Some(r)
  {
    var tail8 := "}";
    var tail7 := IntToString(r.authorizedDollars) + tail8;
    var tail6 := ", authorizedDollars=" + tail7;
    var tail5 := IntToString(r.creditLimitDollars) + tail6;
    var tail4 := ", creditLimitDollars=" + tail5;
    var tail3 := BoolToString(r.locked) + tail4;
    var tail2 := "', locked=" + tail3;
    var tail1 := r.cardNumber + tail2;
    assert CardText(r) == "Card{cardNumber='" + tail1;
    ExpectOf("Card{cardNumber='", tail1);
    ReadUntilQuoteOf(r.cardNumber, tail2);
    ExpectOf("', locked=", tail3);
    ReadBoolOf(r.locked, tail4);
    ExpectOf(", creditLimitDollars=", tail5);
    ReadIntOfIntToString(r.creditLimitDollars, tail6);
    ExpectOf(", authorizedDollars=", tail7);
    ReadIntOfIntToString(r.authorizedDollars, tail8);
  }

  /** The same for a `Card` object: its text reads back as its current fields. */
  lemma ToStringRoundTrip(c: Card)
    requires '\'' !in c.cardNumber
    ensures ParseCardString(c.ToString()) == Some(c.Record())
  {
    CardTextRoundTrip(c.Record());
  }
}
