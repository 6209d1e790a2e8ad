/** What the duel commands promise, proved about the `DuelSpec` functions:
    the invariant each command keeps, the exact effect of a challenge, the
    refusals that change nothing, conservation of points when a duel is
    fought, the idempotence of expiry, and the same facts over any run of
    commands. */
module DuelProps {
  import opened Wrappers
  import opened DuelSpec

  // --------------------------------------------------------------- initiate

  /** The guards of `initiate_duel` that come before the dictionaries are
      consulted all pass: there is a message with a first word, its user is
      known, and the stake parses to at least `MinStake`. */
  predicate InputAccepted(c: Challenge) {
    && c.words.Some? && |c.words.value| > 0
    && c.found.Some?
    && (|c.words.value| > 1 ==> c.parsedStake.Some?)
    && StakeOf(c) >= MinStake
  }

  lemma InitiateKeepsConsistent(b: Book, l: Ledger, c: Challenge)
    requires Consistent(b)
    ensures Consistent(Initiate(b, l, c).book)
    ensures Initiate(b, l, c).book.prices.Keys >= b.prices.Keys
  {
    var r := Initiate(b, l, c);
    InitiateSentIff(b, l, c);
    if r.reply == Sent {
      var s, t, p := c.source, c.found.value, StakeOf(c);
      var b' := Book(b.targets[t := s], b.requests[s := t], b.prices[s := p]);
      assert r.book == b';
      forall x | x in b'.targets
        ensures b'.targets[x] in b'.requests && b'.requests[b'.targets[x]] == x
      {
        if x != t {
          assert b.targets[x] != s;
        }
      }
      forall x | x in b'.requests
        ensures b'.requests[x] in b'.targets && b'.targets[b'.requests[x]] == x
      {
        if x != s {
          assert b.requests[x] != t;
        }
      }
    }
  }

  /** A challenge is recorded exactly when every check of the handler
      passes, and then the three maps gain the one pair and its stake and
      nothing else changes. */
  lemma InitiateSentIff(b: Book, l: Ledger, c: Challenge)
    ensures Initiate(b, l, c).reply == Sent <==>
      && InputAccepted(c)
      && c.source !in b.requests
      && c.found.value != c.source
      && c.found.value !in BlockedTargets
      && Active(c.lastActive, c.now)
      && CanAfford(l, c.found.value, StakeOf(c)) && CanAfford(l, c.source, StakeOf(c))
      && c.found.value !in b.targets
    ensures Initiate(b, l, c).reply == Sent ==>
      Initiate(b, l, c).book == Book(b.targets[c.found.value := c.source],
                                     b.requests[c.source := c.found.value],
                                     b.prices[c.source := StakeOf(c)])
    ensures Initiate(b, l, c).reply != Sent ==> Initiate(b, l, c).book == b
  {
  }

  /** Without a second word the stake is 300. */
  lemma DefaultStake(b: Book, l: Ledger, c: Challenge)
    requires c.words.Some? && |c.words.value| == 1
    requires Initiate(b, l, c).reply == Sent
    ensures Initiate(b, l, c).book.prices[c.source] == 300
  {
  }

  /** A parsed stake below 300 is refused and records nothing. */
  lemma StakeBelowMinimumRefused(b: Book, l: Ledger, c: Challenge)
    requires c.words.Some? && |c.words.value| > 1 && c.found.Some?
    requires c.parsedStake.Some? && c.parsedStake.value < MinStake
    ensures Initiate(b, l, c) == InitiateStep(Refused(StakeTooLow), b)
  {
  }

  /** A user with a pending request cannot send a second one. */
  lemma SecondRequestRefused(b: Book, l: Ledger, c: Challenge)
    requires InputAccepted(c) && c.source in b.requests
    ensures Initiate(b, l, c) == InitiateStep(Refused(AlreadyChallenging), b)
  {
  }

  /** Challenging oneself is refused; challenging a blocked account looks
      like a success to the caller but records nothing. */
  lemma SelfAndBlockedRecordNothing(b: Book, l: Ledger, c: Challenge)
    requires InputAccepted(c) && c.source !in b.requests
    ensures c.found.value == c.source ==> Initiate(b, l, c) == InitiateStep(Refused(SelfDuel), b)
    ensures c.found.value != c.source && c.found.value in BlockedTargets ==>
      Initiate(b, l, c) == InitiateStep(Ignored, b)
  {
  }

  /** Either party short of the stake means no challenge; once the earlier
      checks have passed, the handler refuses it for lack of points. */
  lemma ShortOfPointsRecordsNothing(b: Book, l: Ledger, c: Challenge)
    requires InputAccepted(c)
    requires !CanAfford(l, c.found.value, StakeOf(c)) || !CanAfford(l, c.source, StakeOf(c))
    ensures Initiate(b, l, c).reply != Sent && Initiate(b, l, c).book == b
    ensures c.source !in b.requests && c.found.value != c.source
            && c.found.value !in BlockedTargets && Active(c.lastActive, c.now) ==>
      Initiate(b, l, c) == InitiateStep(Refused(InsufficientFunds), b)
  {
  }

  /** Of two users challenging the same target one after the other, the
      second is told the target is busy, whatever else it asks for. */
  lemma SecondChallengerFindsTargetBusy(b: Book, l: Ledger, c1: Challenge, c2: Challenge)
    requires Initiate(b, l, c1).reply == Sent
    requires InputAccepted(c2) && c2.found == c1.found && c2.source != c1.source
    requires c2.source !in b.requests && c2.found.value != c2.source
    requires Active(c2.lastActive, c2.now)
    requires CanAfford(l, c2.found.value, StakeOf(c2)) && CanAfford(l, c2.source, StakeOf(c2))
    ensures Initiate(Initiate(b, l, c1).book, l, c2).reply == Refused(TargetBusy)
  {
    InitiateSentIff(b, l, c1);
  }

  /** After a challenge is recorded, the challenger's status shows the
      outgoing request and the target's status the incoming one. */
  lemma StatusAfterInitiate(b: Book, l: Ledger, c: Challenge)
    requires Consistent(b)
    requires Initiate(b, l, c).reply == Sent
    ensures Consistent(Initiate(b, l, c).book)
    ensures Status(Initiate(b, l, c).book, c.source).outgoing == Some(Pending(c.found.value, StakeOf(c)))
    ensures Status(Initiate(b, l, c).book, c.found.value).incoming == Some(Pending(c.source, StakeOf(c)))
  {
    InitiateKeepsConsistent(b, l, c);
  }

  // ------------------------------------------------------ cancel and decline

  lemma RemovePairKeepsConsistent(b: Book, requestor: Username, target: Username)
    requires Consistent(b)
    requires requestor in b.requests && b.requests[requestor] == target
    ensures Consistent(RemovePair(b, requestor, target))
  {
    var b' := RemovePair(b, requestor, target);
    forall x | x in b'.targets
      ensures b'.targets[x] in b'.requests && b'.requests[b'.targets[x]] == x
    {
      assert b.targets[x] != requestor;
    }
  }

  /** Cancelling drops exactly the caller's pair: afterwards neither party
      has a pending challenge, and every other pair and every stake is as
      before. */
  lemma CancelEffect(b: Book, source: Username)
    requires Consistent(b)
    ensures Consistent(Cancel(b, source).book)
    ensures source !in b.requests ==> Cancel(b, source) == CancelStep(NoActiveRequest, b)
    ensures source in b.requests ==>
      var t := b.requests[source];
      var b' := Cancel(b, source).book;
      && Cancel(b, source).reply == Cancelled(t)
      && Status(b', source).outgoing == None && Status(b', t).incoming == None
      && b'.requests == b.requests - {source}
      && b'.targets == b.targets - {t}
      && b'.prices == b.prices
  {
    if source in b.requests {
      RemovePairKeepsConsistent(b, source, b.requests[source]);
    }
  }

  /** Declining drops exactly the pair that targets the caller; every other
      pair and every stake is as before. */
  lemma DeclineEffect(b: Book, source: Username)
    requires Consistent(b)
    ensures Consistent(Decline(b, source).book)
    ensures source !in b.targets ==> Decline(b, source) == DeclineStep(NotChallenged, b)
    ensures source in b.targets ==>
      var r := b.targets[source];
      var b' := Decline(b, source).book;
      && Decline(b, source).reply == Declined(r)
      && Status(b', r).outgoing == None && Status(b', source).incoming == None
      && b'.requests == b.requests - {r}
      && b'.targets == b.targets - {source}
      && b'.prices == b.prices
  {
    if source in b.targets {
      RemovePairKeepsConsistent(b, b.targets[source], source);
    }
  }

  // ------------------------------------------------------------------ accept

  /** Accepting a duel both players can afford moves exactly the stake from
      the loser to the winner: the two balances keep their sum, no other
      balance moves, and the pair is gone from both maps. */
  lemma AcceptConservesPoints(b: Book, l: Ledger, source: Username, sourceWins: bool)
    requires Consistent(b)
    requires source in b.targets
    requires CanAfford(l, source, b.prices[b.targets[source]])
    requires CanAfford(l, b.targets[source], b.prices[b.targets[source]])
    ensures
      var requestor, price := b.targets[source], b.prices[b.targets[source]];
      var r := Accept(b, l, source, sourceWins);
      && r.reply.Resolved?
      && {r.reply.winner, r.reply.loser} == {source, requestor}
      && (r.reply.winner == source <==> sourceWins)
      && r.reply.pot == price
      && Balance(r.ledger, r.reply.winner) == Balance(l, r.reply.winner) + price
      && Balance(r.ledger, r.reply.loser) == Balance(l, r.reply.loser) - price
      && Balance(r.ledger, source) + Balance(r.ledger, requestor)
         == Balance(l, source) + Balance(l, requestor)
      && (forall u :: u != source && u != requestor ==> Balance(r.ledger, u) == Balance(l, u))
      && requestor !in r.book.requests && source !in r.book.targets
      && Consistent(r.book)
  {
    var requestor := b.targets[source];
    assert requestor != source;
    RemovePairKeepsConsistent(b, requestor, source);
  }

  /** The handler's order of updates, debiting both players and then
      crediting the winner twice the stake, has the net effect `Payout`. */
  lemma DebitBothThenCreditWinner(l: Ledger, source: Username, requestor: Username,
                                  sourceWins: bool, stake: int)
    requires source != requestor
    ensures
      var l1 := l[source := Balance(l, source) - stake];
      var l2 := l1[requestor := Balance(l1, requestor) - stake];
      var winner := if sourceWins then source else requestor;
      var loser := if sourceWins then requestor else source;
      l2[winner := Balance(l2, winner) + stake * 2] == Payout(l, winner, loser, stake)
  {
  }

  /** When either player can no longer afford the stake the challenge is
      dropped and no balance moves. */
  lemma AcceptShortOfPoints(b: Book, l: Ledger, source: Username, sourceWins: bool)
    requires Consistent(b)
    requires source in b.targets
    requires !CanAfford(l, source, b.prices[b.targets[source]])
             || !CanAfford(l, b.targets[source], b.prices[b.targets[source]])
    ensures
      var r := Accept(b, l, source, sourceWins);
      && r == AcceptStep(CannotAfford(b.targets[source]), RemovePair(b, b.targets[source], source), l)
      && Consistent(r.book)
  {
    RemovePairKeepsConsistent(b, b.targets[source], source);
  }

  /** Accepting with nobody to accept changes nothing. */
  lemma AcceptWithoutChallenge(b: Book, l: Ledger, source: Username, sourceWins: bool)
    requires Consistent(b) && source !in b.targets
    ensures Accept(b, l, source, sourceWins) == AcceptStep(NoChallenge, b, l)
  {
  }

  predicate NonNegative(l: Ledger) {
    forall u :: u in l ==> l[u] >= 0
  }

  /** A duel never drives a balance below zero, since both stakes are
      checked right before they are debited. */
  lemma AcceptKeepsBalancesNonNegative(b: Book, l: Ledger, source: Username, sourceWins: bool)
    requires Consistent(b) && NonNegative(l)
    ensures NonNegative(Accept(b, l, source, sourceWins).ledger)
  {
    if source in b.targets {
      var requestor := b.targets[source];
      var price := b.prices[requestor];
      if CanAfford(l, source, price) && CanAfford(l, requestor, price) {
        AcceptConservesPoints(b, l, source, sourceWins);
        var l' := Accept(b, l, source, sourceWins).ledger;
        forall u | u in l' ensures l'[u] >= 0 {
          if u != source && u != requestor {
            assert Balance(l', u) == Balance(l, u);
          }
        }
      }
    }
  }

  // ------------------------------------------------------------------ expire

  lemma ExpireKeepsConsistent(b: Book, initiator: Username, target: Username)
    requires Consistent(b)
    ensures Consistent(Expire(b, initiator, target))
    ensures Consistent(ExpireAsWritten(b, initiator, target))
  {
    if target in b.targets && b.targets[target] == initiator {
      RemovePairKeepsConsistent(b, initiator, target);
    }
    if initiator in b.requests {
      RemovePairKeepsConsistent(b, initiator, b.requests[initiator]);
    }
  }

  /** Corrected expiry touches nothing unless the very pair
      initiator -> target is pending, and then removes just that pair. */
  lemma ExpireRemovesOnlyItsPair(b: Book, initiator: Username, target: Username)
    requires Consistent(b)
    ensures Expire(b, initiator, target) != b <==>
      initiator in b.requests && b.requests[initiator] == target
    ensures Expire(b, initiator, target) != b ==>
      Expire(b, initiator, target) == RemovePair(b, initiator, target)
  {
    if initiator in b.requests && b.requests[initiator] == target {
      assert initiator in b.requests && initiator !in Expire(b, initiator, target).requests;
    }
  }

  /** The handler's expiry does nothing unless the target is challenged by
      someone and the initiator has a request; otherwise it removes the
      initiator's current pair, whatever its target. */
  lemma ExpireAsWrittenEffect(b: Book, initiator: Username, target: Username)
    requires Consistent(b)
    ensures !(target in b.targets && initiator in b.requests) ==>
      ExpireAsWritten(b, initiator, target) == b
    ensures target in b.targets && initiator in b.requests ==>
      var b' := ExpireAsWritten(b, initiator, target);
      && b'.requests == b.requests - {initiator}
      && b'.targets == b.targets - {b.requests[initiator]}
      && b'.prices == b.prices
  {
  }

  // The run behind the finding on expiry: four users, 1000 points each.

  const ScenarioLedger: Ledger := map["X" := 1000, "Y" := 1000, "T" := 1000, "U" := 1000]

  function Challenges(source: Username, target: Username): Challenge {
    Challenge(source, Some([target]), Some(target), None, Some(0), 0)
  }

  /** X challenges T for the default stake. */
  lemma ScenarioFirstChallenge()
    ensures Initiate(EmptyBook, ScenarioLedger, Challenges("X", "T"))
         == InitiateStep(Sent, Book(map["T" := "X"], map["X" := "T"], map["X" := 300]))
  {
    assert "T" !in BlockedTargets && "X" != "T";
  }

  /** T accepts and wins: the pair is gone, X is down to 700, T up to 1300. */
  lemma ScenarioAccept()
    ensures Consistent(Book(map["T" := "X"], map["X" := "T"], map["X" := 300]))
    ensures
      var a := Accept(Book(map["T" := "X"], map["X" := "T"], map["X" := 300]), ScenarioLedger, "T", true);
      && a.reply.Resolved?
      && a.book == Book(map[], map[], map["X" := 300])
      && Balance(a.ledger, "X") == 700 && Balance(a.ledger, "Y") == 1000
      && Balance(a.ledger, "T") == 1300 && Balance(a.ledger, "U") == 1000
  {
    assert "X" != "T";
    var b := Book(map["T" := "X"], map["X" := "T"], map["X" := 300]);
    assert RemovePair(b, "X", "T").targets == map[];
    assert RemovePair(b, "X", "T").requests == map[];
  }

  /** Y challenges T, then X challenges U. */
  lemma ScenarioTwoChallenges(l: Ledger)
    requires Balance(l, "X") == 700 && Balance(l, "Y") == 1000
    requires Balance(l, "T") == 1300 && Balance(l, "U") == 1000
    ensures Initiate(Book(map[], map[], map["X" := 300]), l, Challenges("Y", "T"))
         == InitiateStep(Sent, Book(map["T" := "Y"], map["Y" := "T"], map["X" := 300, "Y" := 300]))
    ensures Initiate(Book(map["T" := "Y"], map["Y" := "T"], map["X" := 300, "Y" := 300]), l, Challenges("X", "U"))
         == InitiateStep(Sent, Book(map["T" := "Y", "U" := "X"], map["Y" := "T", "X" := "U"],
                                    map["X" := 300, "Y" := 300]))
  {
    assert "T" !in BlockedTargets && "U" !in BlockedTargets;
    assert "Y" != "T" && "X" != "U" && "X" != "Y" && "T" != "U";
  }

  /** The book the run reaches: Y challenges T and X challenges U. */
  const ScenarioBook := Book(map["T" := "Y", "U" := "X"], map["Y" := "T", "X" := "U"],
                             map["X" := 300, "Y" := 300])

  /** X challenges T and T accepts; Y then challenges T and X challenges U.
      Every challenge is recorded and the run ends in `ScenarioBook`. */
  lemma ScenarioRun()
    ensures
      var b1 := Initiate(EmptyBook, ScenarioLedger, Challenges("X", "T"));
      var a := Accept(b1.book, ScenarioLedger, "T", true);
      var b2 := Initiate(a.book, a.ledger, Challenges("Y", "T"));
      var b3 := Initiate(b2.book, a.ledger, Challenges("X", "U"));
      && b1.reply == b2.reply == b3.reply == Sent
      && a.reply.Resolved?
      && b3.book == ScenarioBook
  {
    var b0 := Book(map["T" := "X"], map["X" := "T"], map["X" := 300]);
    ScenarioFirstChallenge();
    ScenarioAccept();
    var a := Accept(b0, ScenarioLedger, "T", true);
    ScenarioTwoChallenges(a.ledger);
  }

  /** The handler's expiry can drop a challenge it was not scheduled for:
      in the book `ScenarioRun` reaches, the expiry scheduled for X -> T
      finds T challenged (by Y) and X with a request (to U), so it removes
      X -> U.  The corrected expiry leaves the book alone. */
  lemma ExpireAsWrittenDropsAnotherPair()
    ensures Consistent(ScenarioBook)
    ensures ScenarioBook.requests["X"] == "U" && ScenarioBook.targets["T"] == "Y"
    ensures ExpireAsWritten(ScenarioBook, "X", "T")
         == Book(map["T" := "Y"], map["Y" := "T"], ScenarioBook.prices)
    ensures Expire(ScenarioBook, "X", "T") == ScenarioBook
  {
    var b := ScenarioBook;
    assert "T" != "U" && "X" != "Y";
    assert b.targets - {"U"} == map["T" := "Y"];
    assert b.requests - {"X"} == map["Y" := "T"];
  }

  /** Expiry that fires after the challenge was accepted, cancelled or
      declined is a no-op, in the handler's form and the corrected one. */
  lemma ExpireAfterResolutionIsNoOp(b: Book, l: Ledger, initiator: Username, target: Username,
                                    sourceWins: bool)
    requires Consistent(b)
    requires initiator in b.requests && b.requests[initiator] == target
    ensures
      var accepted := Accept(b, l, target, sourceWins).book;
      var cancelled := Cancel(b, initiator).book;
      var declined := Decline(b, target).book;
      && accepted == cancelled == declined
      && Consistent(accepted)
      && Expire(accepted, initiator, target) == accepted
      && ExpireAsWritten(accepted, initiator, target) == accepted
  {
    assert b.targets[target] == initiator;
    RemovePairKeepsConsistent(b, initiator, target);
  }

  // ------------------------------------------------------------ whole runs

  /** The commands that change the duel state. */
  datatype Command =
    | InitiateCmd(c: Challenge)
    | ExpireCmd(initiator: Username, target: Username)
    | CancelCmd(source: Username)
    | AcceptCmd(source: Username, sourceWins: bool)
    | DeclineCmd(source: Username)

  datatype State = State(book: Book, ledger: Ledger)

  function Step(s: State, cmd: Command): (s': State)
    requires Consistent(s.book)
    ensures Consistent(s'.book)
    ensures s'.book.prices.Keys >= s.book.prices.Keys
    ensures !cmd.AcceptCmd? ==> s'.ledger == s.ledger
  {
    match cmd
    case InitiateCmd(c) =>
      InitiateKeepsConsistent(s.book, s.ledger, c);
      State(Initiate(s.book, s.ledger, c).book, s.ledger)
    case ExpireCmd(i, t) =>
      ExpireKeepsConsistent(s.book, i, t);
      State(ExpireAsWritten(s.book, i, t), s.ledger)
    case CancelCmd(u) =>
      CancelEffect(s.book, u);
      State(Cancel(s.book, u).book, s.ledger)
    case AcceptCmd(u, w) =>
      var r := Accept(s.book, s.ledger, u, w);
      if u in s.book.targets then
        RemovePairKeepsConsistent(s.book, s.book.targets[u], u);
        State(r.book, r.ledger)
      else State(r.book, r.ledger)
    case DeclineCmd(u) =>
      DeclineEffect(s.book, u);
      State(Decline(s.book, u).book, s.ledger)
  }

  /** The state after the commands run one after another. */
  function Run(s: State, cmds: seq<Command>): (s': State)
    requires Consistent(s.book)
    ensures Consistent(s'.book)
    ensures s'.book.prices.Keys >= s.book.prices.Keys
    decreases |cmds|
  {
    if cmds == [] then s else Run(Step(s, cmds[0]), cmds[1..])
  }

  /** Over any run of commands from a state with no negative balance, no
      balance becomes negative. */
  lemma {:induction false} RunKeepsBalancesNonNegative(s: State, cmds: seq<Command>)
    requires Consistent(s.book) && NonNegative(s.ledger)
    ensures NonNegative(Run(s, cmds).ledger)
    decreases |cmds|
  {
    if cmds != [] {
      var cmd := cmds[0];
      if cmd.AcceptCmd? {
        AcceptKeepsBalancesNonNegative(s.book, s.ledger, cmd.source, cmd.sourceWins);
      }
      RunKeepsBalancesNonNegative(Step(s, cmd), cmds[1..]);
    }
  }
}
