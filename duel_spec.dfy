/** The duel mini-game of pajbot/modules/duel.py, as values.

    `Book` is the module's three dictionaries; `Ledger` is the users' point
    balances.  Every chat command is a function from the old book and ledger
    to a reply and the new book and ledger; `Duel.DuelModule` runs the same
    commands in place and is proved equal to these functions.  The
    properties the commands promise are proved in `DuelProps`. */
module DuelSpec {
  import opened Wrappers

  type Username = string

  /** The smallest stake a duel may be fought for, and the default one. */
  const MinStake: int := 300

  /** A target must have been active in chat within this many seconds. */
  const ActiveWindow: int := 5 * 60

  /** Targets for which a challenge is reported as sent but never recorded. */
  const BlockedTargets: seq<Username> := ["admiralbulldog", "infinitegachi"]

  /** duel_targets: target -> requestor, duel_requests: requestor -> target,
      duel_request_price: requestor -> stake. */
  datatype Book = Book(
    targets: map<Username, Username>,
    requests: map<Username, Username>,
    prices: map<Username, int>)

  const EmptyBook := Book(map[], map[], map[])

  /** The invariant every command keeps: the target and request maps are
      inverses of one another, nobody challenges themself, and every pending
      request has a stake of at least `MinStake` recorded for it. */
  ghost predicate Consistent(b: Book) {
    && (forall t :: t in b.targets ==> b.targets[t] in b.requests && b.requests[b.targets[t]] == t)
    && (forall r :: r in b.requests ==> b.requests[r] in b.targets && b.targets[b.requests[r]] == r)
    && (forall r :: r in b.requests ==> b.requests[r] != r)
    && b.requests.Keys <= b.prices.Keys
    && (forall r :: r in b.prices ==> b.prices[r] >= MinStake)
  }

  /** Point balances; a user the ledger has never seen has 0 points. */
  type Ledger = map<Username, int>

  function Balance(l: Ledger, u: Username): int {
    if u in l then l[u] else 0
  }

  /** The ledger's affordability test: the balance covers the amount. */
  predicate CanAfford(l: Ledger, u: Username, amount: int) {
    Balance(l, u) >= amount
  }

  /** The book with the pair requestor -> target removed (the stake stays). */
  function RemovePair(b: Book, requestor: Username, target: Username): Book {
    Book(b.targets - {target}, b.requests - {requestor}, b.prices)
  }

  // ---------------------------------------------------------------- initiate

  /** What `!duel <username> [stake]` receives.  The user lookup, the point
      parser and the clock are outside the module, so their results are
      given: `found` is the user `words[0]` resolves to, `parsedStake` what
      parsing `words[1]` yields (None when the parser raises), `lastActive`
      the target's last chat activity and `now` the current time, both in
      seconds. */
  datatype Challenge = Challenge(
    source: Username,
    words: Option<seq<string>>,
    found: Option<Username>,
    parsedStake: Option<int>,
    lastActive: Option<int>,
    now: int)

  datatype Refusal =
    | NoMessage | UnknownUser | InvalidAmount | StakeTooLow | AlreadyChallenging
    | SelfDuel | TargetInactive | InsufficientFunds | TargetBusy

  /** Refused: the handler returns False.  Crashed: `words` is empty and
      taking its first word raises.  Ignored: the target is blocked, the
      handler returns True and records nothing.  Sent: the challenge is
      recorded (the handler returns None). */
  datatype InitiateReply = Refused(reason: Refusal) | Crashed | Ignored | Sent

  datatype InitiateStep = InitiateStep(reply: InitiateReply, book: Book)

  /** The stake the challenge asks for: the parsed second word, or
      `MinStake` when there is no second word. */
  function StakeOf(c: Challenge): int
    requires c.words.Some? && (|c.words.value| > 1 ==> c.parsedStake.Some?)
  {
    if |c.words.value| > 1 then c.parsedStake.value else MinStake
  }

  /** The target was seen in chat no more than `ActiveWindow` seconds ago. */
  predicate Active(lastActive: Option<int>, now: int) {
    lastActive.Some? && now - lastActive.value <= ActiveWindow
  }

  /** The checks of `initiate_duel`, in the order the handler makes them. */
  function Initiate(b: Book, l: Ledger, c: Challenge): InitiateStep {
    if c.words.None? then InitiateStep(Refused(NoMessage), b)
    else if |c.words.value| == 0 then InitiateStep(Crashed, b)
    else if c.found.None? then InitiateStep(Refused(UnknownUser), b)
    else if |c.words.value| > 1 && c.parsedStake.None? then InitiateStep(Refused(InvalidAmount), b)
    else
      var target, price := c.found.value, StakeOf(c);
      if price < MinStake then InitiateStep(Refused(StakeTooLow), b)
      else if c.source in b.requests then InitiateStep(Refused(AlreadyChallenging), b)
      else if target == c.source then InitiateStep(Refused(SelfDuel), b)
      else if target in BlockedTargets then InitiateStep(Ignored, b)
      else if !Active(c.lastActive, c.now) then InitiateStep(Refused(TargetInactive), b)
      else if !CanAfford(l, target, price) || !CanAfford(l, c.source, price) then
        InitiateStep(Refused(InsufficientFunds), b)
      else if target in b.targets then InitiateStep(Refused(TargetBusy), b)
      else
        InitiateStep(Sent, Book(b.targets[target := c.source],
                                b.requests[c.source := target],
                                b.prices[c.source := price]))
  }

  // ------------------------------------------------------------------ expire

  /** `time_expired` as written: it only asks that the target is being
      challenged by someone and that the initiator has some request, and then
      removes the initiator's CURRENT pair, whoever its target is. */
  function ExpireAsWritten(b: Book, initiator: Username, target: Username): (r: Book)
    requires Consistent(b)
    ensures r != b <==> target in b.targets && initiator in b.requests
    ensures r != b ==> initiator !in r.requests && b.requests[initiator] !in r.targets
    ensures r.requests.Keys <= b.requests.Keys && r.targets.Keys <= b.targets.Keys
    ensures r.prices == b.prices
  {
    if target in b.targets && initiator in b.requests then
      RemovePair(b, initiator, b.requests[initiator])
    else b
  }

  /** Expiry as the handler evidently intends it: it removes the pair
      initiator -> target only while that very pair is still pending. */
  function Expire(b: Book, initiator: Username, target: Username): Book {
    if target in b.targets && b.targets[target] == initiator && initiator in b.requests then
      RemovePair(b, initiator, target)
    else b
  }

  // ------------------------------------------------------------------ cancel

  datatype CancelReply = NoActiveRequest | Cancelled(target: Username)

  datatype CancelStep = CancelStep(reply: CancelReply, book: Book)

  function Cancel(b: Book, source: Username): CancelStep {
    if source !in b.requests then CancelStep(NoActiveRequest, b)
    else CancelStep(Cancelled(b.requests[source]), RemovePair(b, source, b.requests[source]))
  }

  // ----------------------------------------------------------------- decline

  datatype DeclineReply = NotChallenged | Declined(requestor: Username)

  datatype DeclineStep = DeclineStep(reply: DeclineReply, book: Book)

  function Decline(b: Book, source: Username): DeclineStep {
    if source !in b.targets then DeclineStep(NotChallenged, b)
    else DeclineStep(Declined(b.targets[source]), RemovePair(b, b.targets[source], source))
  }

  // ------------------------------------------------------------------ accept

  /** NoChallenge: nobody challenges the accepting user.  CannotAfford: one
      of the two no longer has the stake; the challenge is dropped.
      Resolved: the duel was fought; `pot` is the amount the handler passes
      as total_pot, which is the stake itself. */
  datatype AcceptReply =
    | NoChallenge
    | CannotAfford(requestor: Username)
    | Resolved(winner: Username, loser: Username, pot: int)

  datatype AcceptStep = AcceptStep(reply: AcceptReply, book: Book, ledger: Ledger)

  /** The balances after `winner` took `stake` points from `loser`. */
  function Payout(l: Ledger, winner: Username, loser: Username, stake: int): Ledger {
    l[winner := Balance(l, winner) + stake][loser := Balance(l, loser) - stake]
  }

  /** `accept_duel` by `source`; `sourceWins` is the outcome of the coin the
      handler throws between the acceptor and the requestor. */
  function Accept(b: Book, l: Ledger, source: Username, sourceWins: bool): AcceptStep
    requires Consistent(b)
  {
    if source !in b.targets then AcceptStep(NoChallenge, b, l)
    else
      var requestor := b.targets[source];
      var price := b.prices[requestor];
      if !CanAfford(l, source, price) || !CanAfford(l, requestor, price) then
        AcceptStep(CannotAfford(requestor), RemovePair(b, requestor, source), l)
      else
        var winner := if sourceWins then source else requestor;
        var loser := if sourceWins then requestor else source;
        AcceptStep(Resolved(winner, loser, price), RemovePair(b, requestor, source),
                   Payout(l, winner, loser, price))
  }

  // ------------------------------------------------------------------ status

  /** A pending challenge as `status_duel` reports it: the other party and
      the stake. */
  datatype Pending = Pending(other: Username, stake: int)

  datatype StatusReport = StatusReport(outgoing: Option<Pending>, incoming: Option<Pending>)

  function Status(b: Book, user: Username): StatusReport
    requires Consistent(b)
  {
    StatusReport(
      if user in b.requests then Some(Pending(b.requests[user], b.prices[user])) else None,
      if user in b.targets then Some(Pending(b.targets[user], b.prices[b.targets[user]])) else None)
  }
}
