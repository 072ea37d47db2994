/**
 * The two encodings of the authorization rules side by side: the
 * synchronous entry processor and the stream stages. On a card the store
 * holds, with the stream's cache in agreement with the store, they take the
 * same decision and make the same write; they part ways on unknown cards,
 * on events that arrive already approved, and after a restart.
 */
module PathAgreement {
  import opened Wrappers
  import opened Transactions
  import opened Cards
  import opened Store
  import opened StreamState
  import opened SyncAuthorization
  import opened AuthorizationPipeline
  import opened PipelineProperties

  /**
   * For a NEW transaction on a stored card, the stream emits the status the
   * synchronous processor returns and writes to the store what it writes,
   * and its cache stays in agreement with the store.
   */
  lemma StepAgreesWithSync(p: JobState, t: Transaction)
    requires Coherent(p)
    requires t.status == New && t.cardNumber in p.cards
    ensures Step(p, t).Success?
    ensures Step(p, t).value.emitted
      == p.emitted + [(t.cardNumber, t.(status := Decision(Lookup(p.cards, t.cardNumber), t.amount)))]
    ensures Step(p, t).value.cards == Authorize(p.cards, t.cardNumber, t.amount).1
    ensures Coherent(Step(p, t).value)
  {
    StepCoherent(p, t);
  }

  /** The same for the first event of a card after a (re)start, when the state is still unseeded. */
  lemma FreshStateAgreesWithSync(cards: map<string, CardRecord>, t: Transaction)
    requires t.status == New && t.cardNumber in cards
    ensures Step(Start(cards), t).Success?
    ensures Step(Start(cards), t).value.emitted
      == [(t.cardNumber, t.(status := Authorize(cards, t.cardNumber, t.amount).0))]
    ensures Step(Start(cards), t).value.cards == Authorize(cards, t.cardNumber, t.amount).1
  {
    StartCoherent(cards);
    StepAgreesWithSync(Start(cards), t);
  }

  /** The synchronous requests that a sequence of transactions stands for. */
  function Requests(events: seq<Transaction>): (r: seq<(string, int)>)
    ensures |r| == |events|
    ensures forall i :: 0 <= i < |events| ==> r[i] == (events[i].cardNumber, events[i].amount)
  {
    if events == [] then [] else [(events[0].cardNumber, events[0].amount)] + Requests(events[1..])
  }

  /** The statuses of emitted transactions, in emission order. */
  function Statuses(emitted: seq<(string, Transaction)>): (r: seq<Status>)
    ensures |r| == |emitted|
    ensures forall i :: 0 <= i < |emitted| ==> r[i] == emitted[i].1.status
  {
    if emitted == [] then []
    else Statuses(emitted[..|emitted| - 1]) + [emitted[|emitted| - 1].1.status]
  }

  lemma StatusesOfAppend(emitted: seq<(string, Transaction)>, e: (string, Transaction))
    ensures Statuses(emitted + [e]) == Statuses(emitted) + [e.1.status]
  {
    assert (emitted + [e])[..|emitted|] == emitted;
  }

  /**
   * Within one run of the job, with no other writer, the stream is the
   * synchronous path applied event by event: the same statuses in the same
   * order, and the same store at the end.
   */
  lemma {:induction false} RunAgreesWithSync(p: JobState, events: seq<Transaction>)
    requires Coherent(p)
    requires forall i :: 0 <= i < |events| ==> events[i].status == New && events[i].cardNumber in p.cards
    ensures var r := Run(p, events);
      && r.fault.None?
      && r.last.cards == AuthorizeAll(p.cards, Requests(events)).1
      && Statuses(r.last.emitted) == Statuses(p.emitted) + AuthorizeAll(p.cards, Requests(events)).0
    decreases |events|
  {
    if events == [] {
      assert Statuses(p.emitted) + [] == Statuses(p.emitted);
    } else {
      var t := events[0];
      var first := Authorize(p.cards, t.cardNumber, t.amount);
      StepAgreesWithSync(p, t);
      var q := Step(p, t).value;
      assert Statuses(q.emitted) == Statuses(p.emitted) + [first.0] by {
        StatusesOfAppend(p.emitted, (t.cardNumber, t.(status := first.0)));
      }
      var rest := AuthorizeAll(first.1, Requests(events[1..]));
      AuthorizeAllOfRequests(p.cards, events);
      RunAgreesWithSync(q, events[1..]);
      AppendAssociates(Statuses(p.emitted), [first.0], rest.0);
    }
  }

  lemma AppendAssociates(a: seq<Status>, b: seq<Status>, c: seq<Status>)
    ensures (a + b) + c == a + (b + c)
  {
  }

  /** The synchronous path over a first request and the rest. */
  lemma AuthorizeAllOfRequests(cards: map<string, CardRecord>, events: seq<Transaction>)
    requires events != []
    ensures var first := Authorize(cards, events[0].cardNumber, events[0].amount);
      var rest := AuthorizeAll(first.1, Requests(events[1..]));
      AuthorizeAll(cards, Requests(events)) == ([first.0] + rest.0, rest.1)
  {
    assert Requests(events)[0] == (events[0].cardNumber, events[0].amount);
    assert Requests(events)[1..] == Requests(events[1..]);
  }

  /** Safety again, now read off the synchronous path: the stream alone keeps every card within its limit. */
  lemma RunWithinLimitsFromStart(cards: map<string, CardRecord>, events: seq<Transaction>)
    requires WithinLimits(cards)
    requires forall i :: 0 <= i < |events| ==> events[i].status == New && events[i].cardNumber in cards
    ensures WithinLimits(Run(Start(cards), events).last.cards)
  {
    StartCoherent(cards);
    RunAgreesWithSync(Start(cards), events);
    AuthorizeAllKeepsWithinLimits(cards, Requests(events));
  }

  /**
   * On an unknown card the two paths disagree: the synchronous one answers
   * INVALID_CARD, while the stream declines a big transaction and fails the
   * job on any other.
   */
  lemma UnknownCardDisagreement(p: JobState, t: Transaction)
    requires t.status == New && t.cardNumber !in p.cards
    ensures Authorize(p.cards, t.cardNumber, t.amount) == (InvalidCard, p.cards)
    ensures t.amount <= 5000 ==> Step(p, t) == Failure(NullCardInLockedCheck(t.cardNumber))
    ensures t.amount > 5000 ==>
      Step(p, t).Success?
      && Step(p, t).value.emitted == p.emitted + [(t.cardNumber, t.(status := DeclinedBigTxn))]
  {
  }

  /**
   * An event that arrives with status APPROVED skips the locked and credit
   * checks and is added to the store, locked card or not, over its limit or not.
   */
  lemma PreApprovedSkipsChecks(p: JobState, t: Transaction)
    requires t.status == Approved && t.amount <= 5000 && t.cardNumber in p.cards
    ensures Step(p, t).Success?
    ensures Step(p, t).value.emitted == p.emitted + [(t.cardNumber, t)]
    ensures Step(p, t).value.cards[t.cardNumber].authorizedDollars
      == p.cards[t.cardNumber].authorizedDollars + t.amount
  {
  }

  /** Priority in the stream: a big transaction on a locked card stays DECLINED_BIG_TXN. */
  lemma BigTxnOnLockedCard(p: JobState, t: Transaction)
    requires t.status == New && t.amount > 5000
    requires t.cardNumber in p.cards && p.cards[t.cardNumber].locked
    ensures Step(p, t).Success?
    ensures Step(p, t).value.emitted == p.emitted + [(t.cardNumber, t.(status := DeclinedBigTxn))]
    ensures Step(p, t).value.cards == p.cards
  {
  }

  /**
   * Same-card ordering: of two transactions that fit the limit one at a time
   * but not together, the first is approved and the second declined.
   */
  lemma SameCardOrdering(c: CardRecord, t1: Transaction, t2: Transaction)
    requires t1.status == New && t2.status == New
    requires t1.cardNumber == c.cardNumber && t2.cardNumber == c.cardNumber
    requires !c.locked && t1.amount <= 5000 && t2.amount <= 5000
    requires c.authorizedDollars + t1.amount <= c.creditLimitDollars
    requires c.authorizedDollars + t1.amount + t2.amount > c.creditLimitDollars
    ensures var r := Run(Start(map[c.cardNumber := c]), [t1, t2]);
      && r.fault.None?
      && r.last.emitted == [(c.cardNumber, t1.(status := Approved)), (c.cardNumber, t2.(status := DeclinedOverAuthLimit))]
      && r.last.cards == map[c.cardNumber := Credited(c, t1.amount)]
  {
    var cards := map[c.cardNumber := c];
    StartCoherent(cards);
    StepAgreesWithSync(Start(cards), t1);
    var q := Step(Start(cards), t1).value;
    assert Decision(Lookup(cards, c.cardNumber), t1.amount) == Approved;
    assert q.cards == map[c.cardNumber := Credited(c, t1.amount)];
    StepAgreesWithSync(q, t2);
    assert Decision(Lookup(q.cards, c.cardNumber), t2.amount) == DeclinedOverAuthLimit;
    assert [t1, t2][1..] == [t2];
    RunSingle(q, t2);
  }

  /** The worked example: limit 1000, nothing authorized, two 600 transactions. */
  lemma OrderingExample()
    ensures var c := CardRecord("6771-8952-0704-5425", false, 1000, 0);
      var t1 := Transaction(c.cardNumber, "1", 600, "8222", New);
      var t2 := Transaction(c.cardNumber, "2", 600, "8222", New);
      var r := Run(Start(map[c.cardNumber := c]), [t1, t2]);
      && r.last.emitted == [(c.cardNumber, t1.(status := Approved)), (c.cardNumber, t2.(status := DeclinedOverAuthLimit))]
      && r.last.cards[c.cardNumber].authorizedDollars == 600
  {
    var c := CardRecord("6771-8952-0704-5425", false, 1000, 0);
    SameCardOrdering(c, Transaction(c.cardNumber, "1", 600, "8222", New), Transaction(c.cardNumber, "2", 600, "8222", New));
  }

  /**
   * A write by the synchronous path behind the job's back: a card the job
   * has already seeded keeps its cached numbers, so after a synchronous
   * approval of 100 the job approves 400 more against the stale cache, and
   * the store update adds it unconditionally, leaving 1100 on a limit of 1000.
   */
  lemma SyncWriteThenStreamOverLimit()
    ensures var c := CardRecord("c", false, 1000, 0);
      var t1 := Transaction("c", "1", 600, "m", New);
      var t2 := Transaction("c", "2", 400, "m", New);
      var first := Run(Start(map["c" := c]), [t1]);
      var sync := Authorize(first.last.cards, "c", 100);
      var second := Run(JobState(first.last.states, sync.1, first.last.emitted), [t2]);
      && first.fault.None?
      && first.last.emitted == [("c", t1.(status := Approved))]
      && first.last.cards == map["c" := CardRecord("c", false, 1000, 600)]
      && StateFor(first.last.states, "c") == CachedCredit(600, 1000)
      && sync == (Approved, map["c" := CardRecord("c", false, 1000, 700)])
      && second.fault.None?
      && second.last.emitted == first.last.emitted + [("c", t2.(status := Approved))]
      && second.last.cards == map["c" := CardRecord("c", false, 1000, 1100)]
  {
    var c := CardRecord("c", false, 1000, 0);
    var cards := map["c" := c];
    var t1 := Transaction("c", "1", 600, "m", New);
    var t2 := Transaction("c", "2", 400, "m", New);
    StagesDecide(Unseeded, cards, t1);
    RunSingle(Start(cards), t1);
    var q := Step(Start(cards), t1).value;
    assert q.cards == map["c" := CardRecord("c", false, 1000, 600)] by {
      assert cards["c" := Credited(c, 600)] == map["c" := CardRecord("c", false, 1000, 600)];
    }
    var stale := map["c" := CardRecord("c", false, 1000, 700)];
    assert Authorize(q.cards, "c", 100).1 == stale by {
      assert q.cards["c" := Credited(q.cards["c"], 100)] == stale;
    }
    var p := JobState(q.states, stale, q.emitted);
    StagesDecide(CachedCredit(600, 1000), stale, t2);
    RunSingle(p, t2);
    assert Step(p, t2).value.cards == map["c" := CardRecord("c", false, 1000, 1100)] by {
      assert stale["c" := Credited(stale["c"], 400)] == map["c" := CardRecord("c", false, 1000, 1100)];
    }
  }

  /**
   * Replay after a restart that discards the per-card state: the second run
   * seeds itself from a store that already holds the first run's approvals,
   * and adds its own approvals on top, so the store counts both runs.
   */
  lemma ReplayAfterRestart(cards: map<string, CardRecord>, events: seq<Transaction>, first: JobState, second: JobState)
    requires first == Run(Start(cards), events).last
    requires second == Run(Start(first.cards), events).last
    ensures CountedTwice(cards, first, second)
  {
    RunFromStartAccounted(cards, events, first);
    RunFromStartAccounted(first.cards, events, second);
    AccountedTwice(cards, first, second);
  }

  /**
   * The store after `second` holds the cards of `cards`, each credited with
   * the approvals emitted by both `first` and `second`.
   */
  ghost predicate CountedTwice(cards: map<string, CardRecord>, first: JobState, second: JobState) {
    && second.cards.Keys == cards.Keys
    && forall k :: k in cards ==>
         second.cards[k] == Credited(cards[k], ApprovedTotal(first.emitted, k) + ApprovedTotal(second.emitted, k))
  }

  /** Two runs, the second started from the store the first left, credit each card with both runs' approvals. */
  lemma AccountedTwice(cards: map<string, CardRecord>, first: JobState, second: JobState)
    requires Accounted(cards, first) && Accounted(first.cards, second)
    ensures CountedTwice(cards, first, second)
  {
    forall k | k in cards
      ensures second.cards[k] == Credited(cards[k], ApprovedTotal(first.emitted, k) + ApprovedTotal(second.emitted, k))
    {
      CreditedTwice(cards[k], ApprovedTotal(first.emitted, k), ApprovedTotal(second.emitted, k));
    }
  }

  /** One approved 400 transaction replayed after a restart is approved again and counted twice. */
  lemma ReplayCountsTwice()
    ensures var c := CardRecord("6771-8952-0704-5425", false, 1000, 0);
      var t := Transaction(c.cardNumber, "1", 400, "8222", New);
      var first := Run(Start(map[c.cardNumber := c]), [t]);
      var second := Run(Start(first.last.cards), [t]);
      && first.last.emitted == [(c.cardNumber, t.(status := Approved))]
      && second.last.emitted == [(c.cardNumber, t.(status := Approved))]
      && second.last.cards[c.cardNumber].authorizedDollars == 800
  {
    var c := CardRecord("6771-8952-0704-5425", false, 1000, 0);
    var t := Transaction(c.cardNumber, "1", 400, "8222", New);
    FreshStateAgreesWithSync(map[c.cardNumber := c], t);
    RunSingle(Start(map[c.cardNumber := c]), t);
    var first := Run(Start(map[c.cardNumber := c]), [t]);
    assert first.last.cards == map[c.cardNumber := Credited(c, 400)];
    FreshStateAgreesWithSync(first.last.cards, t);
    RunSingle(Start(first.last.cards), t);
  }

  /** A 600 transaction approved before the restart is declined when it is replayed. */
  lemma ReplayDeclinesApproved()
    ensures var c := CardRecord("6771-8952-0704-5425", false, 1000, 0);
      var t := Transaction(c.cardNumber, "1", 600, "8222", New);
      var first := Run(Start(map[c.cardNumber := c]), [t]);
      var second := Run(Start(first.last.cards), [t]);
      && first.last.emitted == [(c.cardNumber, t.(status := Approved))]
      && second.last.emitted == [(c.cardNumber, t.(status := DeclinedOverAuthLimit))]
      && second.last.cards[c.cardNumber].authorizedDollars == 600
  {
    var c := CardRecord("6771-8952-0704-5425", false, 1000, 0);
    var t := Transaction(c.cardNumber, "1", 600, "8222", New);
    FreshStateAgreesWithSync(map[c.cardNumber := c], t);
    RunSingle(Start(map[c.cardNumber := c]), t);
    var first := Run(Start(map[c.cardNumber := c]), [t]);
    assert first.last.cards == map[c.cardNumber := Credited(c, 600)];
    FreshStateAgreesWithSync(first.last.cards, t);
    RunSingle(Start(first.last.cards), t);
  }
}
