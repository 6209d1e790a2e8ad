/** DuelModule of pajbot/modules/duel.py: the three dictionaries it mutates
    in place and the points of the users it debits and credits.  Each chat
    command is a method proved to leave the object in the state the
    matching `DuelSpec` function describes. */
module Duel {
  import opened Wrappers
  import opened DuelSpec
  import DuelProps

  class DuelModule {
    var duelTargets: map<Username, Username>
    var duelRequests: map<Username, Username>
    var duelRequestPrice: map<Username, int>
    /** The points of every user, owned by the user objects in the bot. */
    var points: Ledger

    function CurrentBook(): Book
      reads this
    {
      Book(duelTargets, duelRequests, duelRequestPrice)
    }

    ghost predicate Valid()
      reads this
    {
      Consistent(CurrentBook())
    }

    /** A fresh module has no challenges; the users keep their points. */
    constructor (balances: Ledger)
      ensures Valid()
      ensures CurrentBook() == EmptyBook && points == balances
    {
      duelTargets, duelRequests, duelRequestPrice := map[], map[], map[];
      points := balances;
    }

    method InitiateDuel(c: Challenge) returns (reply: InitiateReply)
      requires Valid()
      modifies this
      ensures Valid()
      ensures InitiateStep(reply, CurrentBook()) == Initiate(old(CurrentBook()), old(points), c)
      ensures points == old(points)
    {
      if c.words.None? {
        return Refused(NoMessage);
      }
      var msgSplit := c.words.value;
      if |msgSplit| == 0 {
        return Crashed;
      }
      if c.found.None? {
        return Refused(UnknownUser);
      }
      var user := c.found.value;
      var duelPrice := MinStake;
      if |msgSplit| > 1 {
        if c.parsedStake.None? {
          return Refused(InvalidAmount);
        }
        duelPrice := c.parsedStake.value;
        if duelPrice < MinStake {
          return Refused(StakeTooLow);
        }
      }
      if c.source in duelRequests {
        return Refused(AlreadyChallenging);
      }
      if user == c.source {
        return Refused(SelfDuel);
      }
      if user in BlockedTargets {
        return Ignored;
      }
      if c.lastActive.None? || c.now - c.lastActive.value > ActiveWindow {
        return Refused(TargetInactive);
      }
      if Balance(points, user) < duelPrice || Balance(points, c.source) < duelPrice {
        return Refused(InsufficientFunds);
      }
      if user in duelTargets {
        return Refused(TargetBusy);
      }
      DuelProps.InitiateKeepsConsistent(CurrentBook(), points, c);
      duelTargets := duelTargets[user := c.source];
      duelRequests := duelRequests[c.source := user];
      duelRequestPrice := duelRequestPrice[c.source := duelPrice];
      reply := Sent;
    }

    /** The expiry callback, run 60 seconds after a challenge was sent.  Like
        the handler, it only asks that the target is challenged by someone
        and that the initiator has some request, and then drops the
        initiator's current pair, whatever its target. */
    method TimeExpired(initiator: Username, target: Username) returns (expired: bool)
      requires Valid()
      modifies this
      ensures Valid()
      ensures CurrentBook() == ExpireAsWritten(old(CurrentBook()), initiator, target)
      ensures expired <==> old(target in duelTargets && initiator in duelRequests)
      ensures expired <==> CurrentBook() != old(CurrentBook())
      ensures points == old(points)
    {
      expired := false;
      if target in duelTargets && initiator in duelRequests {
        var current := duelRequests[initiator];
        DuelProps.RemovePairKeepsConsistent(CurrentBook(), initiator, current);
        duelTargets := duelTargets - {current};
        duelRequests := duelRequests - {initiator};
        expired := true;
      }
    }

    method CancelDuel(source: Username) returns (reply: CancelReply)
      requires Valid()
      modifies this
      ensures Valid()
      ensures CancelStep(reply, CurrentBook()) == Cancel(old(CurrentBook()), source)
      ensures points == old(points)
    {
      if source !in duelRequests {
        return NoActiveRequest;
      }
      DuelProps.RemovePairKeepsConsistent(CurrentBook(), source, duelRequests[source]);
      reply := Cancelled(duelRequests[source]);
      duelTargets := duelTargets - {duelRequests[source]};
      duelRequests := duelRequests - {source};
    }

    /** Accepting debits both players, then credits twice the stake to the
        player `sourceWins` designates; the net effect is `Payout`. */
    method AcceptDuel(source: Username, sourceWins: bool) returns (reply: AcceptReply)
      requires Valid()
      modifies this
      ensures Valid()
      ensures AcceptStep(reply, CurrentBook(), points)
              == Accept(old(CurrentBook()), old(points), source, sourceWins)
    {
      if source !in duelTargets {
        return NoChallenge;
      }
      var requestor := duelTargets[source];
      var duelPrice := duelRequestPrice[requestor];
      DuelProps.RemovePairKeepsConsistent(CurrentBook(), requestor, source);
      if Balance(points, source) < duelPrice || Balance(points, requestor) < duelPrice {
        duelRequests, duelTargets := duelRequests - {requestor}, duelTargets - {source};
        return CannotAfford(requestor);
      }
      var winner, loser := requestor, source;
      if sourceWins {
        winner, loser := source, requestor;
      }
      DuelProps.DebitBothThenCreditWinner(points, source, requestor, sourceWins, duelPrice);
      var balances := points;
      balances := balances[source := Balance(balances, source) - duelPrice];
      balances := balances[requestor := Balance(balances, requestor) - duelPrice];
      balances := balances[winner := Balance(balances, winner) + duelPrice * 2];
      points := balances;
      reply := Resolved(winner, loser, duelPrice);
      duelRequests, duelTargets := duelRequests - {requestor}, duelTargets - {source};
    }

    method DeclineDuel(source: Username) returns (reply: DeclineReply)
      requires Valid()
      modifies this
      ensures Valid()
      ensures DeclineStep(reply, CurrentBook()) == Decline(old(CurrentBook()), source)
      ensures points == old(points)
    {
      if source !in duelTargets {
        return NotChallenged;
      }
      var requestorUsername := duelTargets[source];
      DuelProps.RemovePairKeepsConsistent(CurrentBook(), requestorUsername, source);
      duelTargets := duelTargets - {source};
      duelRequests := duelRequests - {requestorUsername};
      reply := Declined(requestorUsername);
    }

    /** The read-only status query: the user's own request, if any, and the
        request made to them, if any, each with the other party and stake. */
    method StatusDuel(user: Username) returns (report: StatusReport)
      requires Valid()
      ensures report.outgoing.Some? <==> user in duelRequests
      ensures report.incoming.Some? <==> user in duelTargets
      ensures report.outgoing.Some? ==>
        report.outgoing.value.other == duelRequests[user]
        && duelTargets[report.outgoing.value.other] == user
        && report.outgoing.value.stake == duelRequestPrice[user] >= MinStake
      ensures report.incoming.Some? ==>
        report.incoming.value.other == duelTargets[user]
        && duelRequests[report.incoming.value.other] == user
        && report.incoming.value.stake == duelRequestPrice[duelTargets[user]] >= MinStake
      ensures report == Status(CurrentBook(), user)
    {
      var outgoing: Option<Pending> := None;
      var incoming: Option<Pending> := None;
      if user in duelRequests {
        outgoing := Some(Pending(duelRequests[user], duelRequestPrice[user]));
      }
      if user in duelTargets {
        incoming := Some(Pending(duelTargets[user], duelRequestPrice[duelTargets[user]]));
      }
      report := StatusReport(outgoing, incoming);
    }
  }
}
