# pajbot chat modules: duels, sub alerts, message length, emote quest

This project is a Dafny model of four modules of the pajbot chat bot:

- the **duel mini-game** (`pajbot/modules/duel.py`). Users challenge each other for a stake of points. The challenged user accepts, declines or lets the challenge expire. The challenger may cancel. On accept, a coin decides who takes the other's stake.
- the **subscription alert** (`pajbot/modules/subalert.py`). It gives points for sub, resub and gifted-sub notices according to the sub plan and the month count. It also adds a flat grant to every new sub.
- the **maximum message length filter** (`pajbot/modules/maxmsglength.py`). It decides whether a chat message is too long, which leads to a timeout and possibly a whisper.
- the **"type emote X times" quest** (`pajbot/modules/quests/typeemote.py`). It keeps a per-user counter that stops at the quest limit and finishes the quest once.

Layout:

- `duel_spec.dfy` (module `DuelSpec`): the duel state as values. `Book` holds the three dictionaries `duel_targets`, `duel_requests` and `duel_request_price`. `Ledger` holds the users' points. There is one function per command and the invariant `Consistent`.
- `duel.dfy` (module `Duel`): class `DuelModule`. It holds the three maps and the points map and updates them in place. Every method is proved to produce exactly the state its `DuelSpec` function gives, and to keep `Consistent`.
- `duel_props.dfy` (module `DuelProps`): the properties of the commands. It also defines `Run`, which executes any sequence of commands and is proved to keep the invariant.
- `subalert.dfy`, `subalert_props.dfy`: the award decision as a function of the notice tags, the `User`/`SubAlertModule` classes whose handlers add points in place, and the award properties.
- `maxmsglength.dfy`: the filter decision and its properties.
- `typeemote.dfy`: the quest's progress update, the class that keeps the progress store, and the properties over any run of messages.
- `wrappers.dfy`: `Option`.

Notes on the duel handler's behaviour, all kept in the model:

- The payout announcement passes the stake itself as `total_pot`, not twice the stake.
- Challenging a blocked account returns True but records nothing. A successful challenge returns None. An empty command argument raises when the handler takes the first word.
- The expiry callback does not check that the target is still challenged by the same initiator. The model keeps this behaviour as `ExpireAsWritten`, and both `Duel.DuelModule.TimeExpired` and the command runs of `DuelProps.Run` use it. The per-pair guard the handler evidently intends is `Expire`, defined beside it only to state the finding. See "## Findings".

## Model

| member | source | states |
|---|---|---|
| `Duel.DuelModule.constructor` | pajbot/modules/duel.py:103-108 | A new module starts with all three maps empty, which satisfies the invariant. |
| `Duel.DuelModule.InitiateDuel` | pajbot/modules/duel.py:110-202 | Runs the guards in the handler's order and leaves exactly the book and reply of `Initiate`. Points are untouched and the invariant is kept. |
| `Duel.DuelModule.TimeExpired` | pajbot/modules/duel.py:204-207 | As the handler does: if the target is challenged by anyone and the initiator has a request, it removes the initiator's current pair, whatever its target. Otherwise nothing changes. The new book is `ExpireAsWritten`. It reports whether anything changed, keeps the invariant and leaves points alone. |
| `DuelSpec.ExpireAsWritten` | pajbot/modules/duel.py:204-207 | The book changes iff the target is in duel_targets and the initiator in duel_requests. The initiator's request and the entry of its current target are then gone. No key is added and the stakes are untouched. |
| `Duel.DuelModule.CancelDuel` | pajbot/modules/duel.py:212-230 | Removes the caller's own request and its target's entry. With no request it changes nothing. Keeps the invariant. |
| `Duel.DuelModule.AcceptDuel` | pajbot/modules/duel.py:232-290 | Debits both players step by step and credits the winner twice the stake. The resulting ledger and book equal `Accept`, i.e. a net `Payout` of the stake from loser to winner. |
| `Duel.DuelModule.DeclineDuel` | pajbot/modules/duel.py:292-313 | Removes the pair that targets the caller. With no challenge it changes nothing. Keeps the invariant. |
| `Duel.DuelModule.StatusDuel` | pajbot/modules/duel.py:315-346 | Reports an outgoing request iff the user has one and an incoming one iff the user is targeted, each with the other party and a stake of at least 300. Changes nothing. |
| `DuelProps.InitiateKeepsConsistent` | pajbot/modules/duel.py:183-194 | A challenge keeps targets and requests mutual inverses, excludes self-duels, and never removes a stake entry. |
| `DuelProps.InitiateSentIff` | pajbot/modules/duel.py:124-194 | A challenge is recorded iff every guard passes. It then adds exactly targets[t]=s, requests[s]=t and prices[s]=stake. Otherwise the book is unchanged. |
| `DuelProps.DefaultStake` | pajbot/modules/duel.py:130-137 | Without a second word, the recorded stake is 300. |
| `DuelProps.StakeBelowMinimumRefused` | pajbot/modules/duel.py:135-145 | A parsed stake below 300 gives StakeTooLow and an unchanged book. |
| `DuelProps.SecondRequestRefused` | pajbot/modules/duel.py:151-158 | A user with a pending request gets AlreadyChallenging and the book is unchanged. |
| `DuelProps.SelfAndBlockedRecordNothing` | pajbot/modules/duel.py:160-165 | Self-duel is refused. A blocked target gives Ignored (the True return). Neither changes the book. |
| `DuelProps.ShortOfPointsRecordsNothing` | pajbot/modules/duel.py:174-181 | If either party cannot afford the stake, nothing is recorded. When the challenger has no pending request, the target is someone else, the target is not blocked and was active recently, the reply is exactly InsufficientFunds (the handler returns False) with the book unchanged. |
| `DuelProps.SecondChallengerFindsTargetBusy` | pajbot/modules/duel.py:183-190 | After one challenge to t succeeds, a second challenger of t that passes every other check gets TargetBusy. |
| `DuelProps.StatusAfterInitiate` | pajbot/modules/duel.py:192-194 | After a recorded challenge, the challenger's status shows (target, stake) outgoing and the target's status shows (challenger, stake) incoming. |
| `DuelProps.CancelEffect` | pajbot/modules/duel.py:223-230 | Cancel removes exactly the caller's pair: the request map loses the caller and the target map loses that request's target. Every other pair and the whole stake map stay as they were. With no request, nothing changes. |
| `DuelProps.DeclineEffect` | pajbot/modules/duel.py:303-313 | Decline removes exactly the pair targeting the caller: the target map loses the caller and the request map loses the challenger. Every other pair and the whole stake map stay as they were. With no challenge, nothing changes. |
| `DuelProps.AcceptConservesPoints` | pajbot/modules/duel.py:269-290 | If both can afford the stake: the winner (the acceptor iff the coin says so) gains the stake and the loser loses it. The pair's sum is unchanged, no other balance moves, and the pair is removed. |
| `DuelProps.DebitBothThenCreditWinner` | pajbot/modules/duel.py:269-275 | The handler's update order (debit the acceptor, debit the requestor, credit the winner twice the stake) has the same net effect as moving the stake from loser to winner. |
| `DuelProps.AcceptShortOfPoints` | pajbot/modules/duel.py:250-267 | If either player is short, the pair is removed, no balance moves, and the reply is CannotAfford. |
| `DuelProps.AcceptWithoutChallenge` | pajbot/modules/duel.py:243-245 | Accepting with no incoming challenge changes nothing. |
| `DuelProps.AcceptKeepsBalancesNonNegative` | pajbot/modules/duel.py:250-275 | Because affordability is re-checked right before the debit, a duel never makes a balance negative. |
| `DuelProps.ExpireKeepsConsistent` | pajbot/modules/duel.py:204-207 | Both the handler's expiry and the corrected one keep the invariant. |
| `DuelProps.ExpireRemovesOnlyItsPair` | pajbot/modules/duel.py:204-207 | Corrected expiry changes the book iff the pair initiator -> target is pending, and then removes exactly that pair. |
| `DuelProps.ExpireAsWrittenEffect` | pajbot/modules/duel.py:205-207 | The handler's expiry is a no-op unless the target is in duel_targets and the initiator is in duel_requests. Otherwise exactly the initiator's request and the entry of its current target are deleted, and every other entry and the stakes stay as they were. |
| `DuelProps.ScenarioRun` | pajbot/modules/duel.py:192-194 | From the empty book: X challenges T, T accepts, Y challenges T, X challenges U. Every challenge is recorded and the run ends with T challenged by Y and X challenging U. |
| `DuelProps.ExpireAsWrittenDropsAnotherPair` | pajbot/modules/duel.py:204-210 | In the book `ScenarioRun` reaches, the handler's expiry for X -> T removes the newer, unrelated pair X -> U. The corrected expiry leaves the book unchanged. |
| `DuelProps.ExpireAfterResolutionIsNoOp` | pajbot/modules/duel.py:205-207 | After accept, cancel or decline of a pair, its expiry (in either form) changes nothing. |
| `DuelProps.Step` | pajbot/modules/duel.py:110-313 | Each command handler (expiry in its as-written form) keeps the invariant, never removes a stake entry, and only accept moves points. |
| `DuelProps.Run` | pajbot/modules/duel.py:110-313 | Any sequence of commands, expiry as written included, from a consistent book keeps the book consistent and keeps every stake entry. |
| `DuelProps.RunKeepsBalancesNonNegative` | pajbot/modules/duel.py:269-275 | Over any sequence of commands (expiry as written included), balances that start non-negative stay non-negative. |
| `SubAlert.ParseInt` | pajbot/modules/subalert.py:216-219 | `int` succeeds iff the text is one or more decimal digits, optionally after a single `+` or `-`. It then yields the digits' value, negated after `-`. Any other text yields None (the raise). |
| `SubAlert.ParseIntReadsShownNumbers` | pajbot/modules/subalert.py:216-219 | Parsing the decimal form of any natural number gives that number back. With a `+` sign it gives the same number, with a `-` sign its negation. |
| `SubAlert.WithMonths` | pajbot/modules/subalert.py:247-248 | The month-adjusted award is never below the base, and equals the base for one month or fewer. |
| `SubAlert.SubAlertModule.constructor` | pajbot/modules/subalert.py:132-133 | The module keeps its grant_points_on_sub setting. |
| `SubAlert.SubAlertModule.OnSubShared` | pajbot/modules/subalert.py:135-139 | A grant of 0 or less leaves the user's points unchanged. Otherwise the points grow by exactly the grant. |
| `SubAlert.SubAlertModule.OnUsernotice` | pajbot/modules/subalert.py:208-336 | The sender's points grow by exactly the award the notice's tags decide and by nothing else. They never decrease. |
| `SubAlertProps.UnknownNoticeGivesNothing` | pajbot/modules/subalert.py:209-210 | A notice without msg-id, or with an unhandled msg-id, is unhandled and gives no points. |
| `SubAlertProps.MysteryGiftNeverPays` | pajbot/modules/subalert.py:281-306 | A submysterygift notice never gives points. |
| `SubAlertProps.MissingTagsGiveNothing` | pajbot/modules/subalert.py:261-266 | Without msg-param-sub-plan no notice pays. A subgift without display-name is skipped. |
| `SubAlertProps.AwardAtLeastPlanBase` | pajbot/modules/subalert.py:240-250 | Only sub, resub and subgift with a sub plan pay. They pay at least 2500, 5000 for plan "2...", and 12500 for plan "3...". |
| `SubAlertProps.AwardIsBaseUpToOneMonth` | pajbot/modules/subalert.py:320-329 | With one month or fewer (always, for a gifted sub) the award is exactly the plan's base. |
| `SubAlertProps.ResubMonthsChoice` | pajbot/modules/subalert.py:214-219 | Resub months default to -1. msg-param-months sets them. msg-param-cumulative-months overrides it. |
| `SubAlertProps.BonusOnlyAfterOneMonth` | pajbot/modules/subalert.py:247-248 | The month bonus raises the award above the base iff more than one month is reported. |
| `SubAlertProps.MoreMonthsNeverFewerPoints` | pajbot/modules/subalert.py:327-328 | The award does not decrease as the month count grows. |
| `MaxMsgLength.OnMessage` | pajbot/modules/maxmsglength.py:54-86 | The handler times out, and so returns False, iff the message is public, the sender has no bypass, and the length is strictly over the limit in force. A timed-out sender is whispered iff the timeout duration is positive and they have more than 60 minutes in chat. |
| `MaxMsgLength.ExemptMessagesPass` | pajbot/modules/maxmsglength.py:55-59 | Whispers and messages from moderators, subscribers or users at or above the bypass level are never acted on. |
| `MaxMsgLength.LimitIsInclusive` | pajbot/modules/maxmsglength.py:61-75 | A message exactly at the limit passes. One more character is timed out. |
| `MaxMsgLength.OnlyTheLimitInForceMatters` | pajbot/modules/maxmsglength.py:61-75 | Online only max_msg_length matters. Offline only max_msg_length_offline matters. |
| `TypeEmote.TypeEmoteQuestModule.constructor` | pajbot/modules/quests/typeemote.py:32-36 | A new quest module has an empty progress store. |
| `TypeEmote.TypeEmoteQuestModule.OnMessage` | pajbot/modules/quests/typeemote.py:41-57 | Collects the typed emotes into a set and updates the store and the finished flag exactly as `Advance` does. |
| `TypeEmote.AdvanceEffect` | pajbot/modules/quests/typeemote.py:43-56 | Progress moves only when the quest emote is typed, only for the sender, by one, and never past the limit. When the emote is typed and the new progress is within the limit, it is stored as the old progress plus one. The quest finishes iff the new progress equals the limit. |
| `TypeEmote.OnlyTheSetOfEmotesMatters` | pajbot/modules/quests/typeemote.py:42-43 | Repeating the emote within one message counts once, because only the set of typed emotes matters. |
| `TypeEmote.AdvanceStaysWithinLimit` | pajbot/modules/quests/typeemote.py:46-49 | A store whose entries are all within the limit stays within it. |
| `TypeEmote.ReplayCountsToLimit` | pajbot/modules/quests/typeemote.py:44-56 | Over any run of messages of one user, starting from a progress within the limit, that user's progress ends at min(start + hits, limit). The quest finishes once if the limit is reached during the run and otherwise never, so at most once for that user. |

## Left out

- Scheduling (`bot.execute_delayed`): the 60-second expiry is `TimeExpired` (and `ExpireCmd` in a run), an operation that may be invoked at any later point. The delayed sub-alert whispers are not modelled.
- Concurrency: the modules mutate plain dictionaries without locks. Only sequential executions are modelled.
- The random winner (`random.choice`) is the `sourceWins` parameter.
- Functions whose source is not part of this model are inputs: `bot.users.find` is `found`, `parse_points_amount` is `parsedStake` (None when it raises), the user's `last_active` and the clock are `lastActive`/`now` in whole seconds (the fractional part of `total_seconds()` that the activity check at duel.py:167 compares with 300 is not modelled), and `timeout_warn`'s reported duration is `warnedDuration`.
- `can_afford` is not part of this model. It is modelled as "the balance covers the amount", and a user unknown to the ledger has 0 points.
- Python object equality of the challenger and the target (`user == source`) is modelled as equality of usernames.
- Whisper, chat and websocket messages, `get_phrase` texts, the `active_subs` counter, settings declarations and command registration are not modelled. Only the reply kind of each handler is kept.
- Persistence and statistics (`user.save()`, `DuelManager.user_won`/`user_lost`, `get_duel_stats`) are not modelled.
- The Redis-backed quest lifecycle (`start_quest`, `load_data`, `stop_quest`, `get_objective`) is not modelled. The progress store is the `progress` map, and the quest limit is fixed for the module's lifetime.
- `on_new_sub` and `on_resub` are only modelled through the grant they apply via `on_sub_shared`.
- A gifted-sub notice without `msg-param-recipient-display-name` raises while announcing, after the points were given. The model records it as `Awarded`, which is its effect on points.
- WithMonths: computes `base * (0.025 * months + 1)` in exact arithmetic, rounded down. The handler uses floating point. For realistic month counts the float result is at most one point lower. For counts above about 10^12 it can differ in either direction. A count too large for a float makes the handler raise before awarding, which the model does not capture: `Resub` and `NewSub` return `Awarded` there.
- ParseInt: accepts an optional sign followed by ASCII digits. The whitespace, underscores and non-ASCII digits that Python's `int` also accepts are not modelled.
- TypeEmote: an emote is identified by its code (a string). The handler compares emote objects (`self.current_emote in typed_emotes`), whose equality may involve more than the code. That is not modelled.
- `pajbot/modules/labspoints.py` is not part of this model: it is socket I/O with a floating-point currency conversion.

## Findings

| source | as written | input that shows it | evidently intended | confidence | as-written member | corrected member |
|---|---|---|---|---|---|---|
| pajbot/modules/duel.py:204-207 | Expiry of X -> T only checks that T is challenged by someone and that X has some request, then deletes X's current pair | X challenges T and T accepts; Y challenges T; X challenges U; the expiry scheduled for X -> T fires and removes X -> U, seconds after it was sent (`DuelProps.ScenarioRun`) | Expire only while `duel_targets[T] == X` | medium, not executed | `DuelProps.ExpireAsWrittenDropsAnotherPair` | `DuelProps.ExpireRemovesOnlyItsPair` |
