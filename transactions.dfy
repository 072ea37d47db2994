/**
 * The transaction record that both authorization paths work on. The Java
 * class Transaction.java is not part of this model; its fields and its
 * status values are the ones every processor and stage reads and writes.
 */
module Transactions {
  import opened Wrappers

  /** Transaction.Status: `New` is the status of a freshly parsed event, the others are outcomes. */
  datatype Status =
    | New
    | Approved
    | DeclinedBigTxn
    | DeclinedLocked
    | DeclinedOverAuthLimit
    | InvalidCard

  datatype Transaction = Transaction(
    cardNumber: string,
    transactionId: string,
    amount: int,
    merchantId: string,
    status: Status)

  /**
   * Enum.name(): the text the synchronous endpoint returns as its response
   * body, the constant's identifier in capitals and underscores.
   */
  function Name(s: Status): (r: string)
    ensures |r| > 0
    ensures forall i :: 0 <= i < |r| ==> 'A' <= r[i] <= 'Z' || r[i] == '_'
  {
    match s
    case New => "NEW"
    case Approved => "APPROVED"
    case DeclinedBigTxn => "DECLINED_BIG_TXN"
    case DeclinedLocked => "DECLINED_LOCKED"
    case DeclinedOverAuthLimit => "DECLINED_OVER_AUTH_LIMIT"
    case InvalidCard => "INVALID_CARD"
  }

  /** Enum.valueOf(): the status a name stands for, if any. */
  function StatusNamed(n: string): Option<Status> {
    if n == "NEW" then Some(New)
    else if n == "APPROVED" then Some(Approved)
    else if n == "DECLINED_BIG_TXN" then Some(DeclinedBigTxn)
    else if n == "DECLINED_LOCKED" then Some(DeclinedLocked)
    else if n == "DECLINED_OVER_AUTH_LIMIT" then Some(DeclinedOverAuthLimit)
    else if n == "INVALID_CARD" then Some(InvalidCard)
    else None
  }

  /** A status name always reads back as the status it names, so no two statuses share a name. */
  lemma NameRoundTrip(s: Status)
    ensures StatusNamed(Name(s)) == Some(s)
  {
  }

  lemma NameInjective(s: Status, u: Status)
    requires Name(s) == Name(u)
    ensures s == u
  {
    NameRoundTrip(s);
    NameRoundTrip(u);
  }
}
