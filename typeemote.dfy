/** TypeEmoteQuestModule of pajbot/modules/quests/typeemote.py: a quest
    completed by typing the quest's emote a set number of times.  The
    per-user progress store is a map kept by the module object; finishing
    the quest is reported to the caller. */
module TypeEmote {
  import opened Wrappers

  /** An emote, identified by its code. */
  type Emote = string

  type Progress = map<string, int>

  function ProgressOf(p: Progress, user: string): int {
    if user in p then p[user] else 0
  }

  /** The effect of one message: the new progress store and whether the
      quest was finished by it. */
  datatype Update = Update(progress: Progress, finished: bool)

  /** One chat message from `user` carrying `emotes`: when the quest emote is
      among them, the user's progress goes up by one, unless that would pass
      `limit`; reaching `limit` finishes the quest. */
  function Advance(p: Progress, limit: int, current: Option<Emote>, user: string,
                   emotes: seq<Emote>): Update
  {
    if current.Some? && current.value in emotes then
      var next := ProgressOf(p, user) + 1;
      if next > limit then Update(p, false)
      else Update(p[user := next], next == limit)
    else Update(p, false)
  }

  class TypeEmoteQuestModule {
    var currentEmote: Option<Emote>
    var progress: Progress
    /** The quest_limit setting. */
    const questLimit: int

    constructor (questLimit: int, currentEmote: Option<Emote>)
      ensures this.questLimit == questLimit && this.currentEmote == currentEmote
      ensures progress == map[]
    {
      this.questLimit := questLimit;
      this.currentEmote := currentEmote;
      progress := map[];
    }

    /** `on_message`: `emoteInstances` are the emotes of the message in
        order, one per occurrence; `finished` says whether the quest was
        finished for `user`. */
    method OnMessage(user: string, emoteInstances: seq<Emote>) returns (finished: bool)
      modifies this
      ensures currentEmote == old(currentEmote)
      ensures Update(progress, finished)
              == Advance(old(progress), questLimit, currentEmote, user, emoteInstances)
    {
      finished := false;
      var typedEmotes := set i | 0 <= i < |emoteInstances| :: emoteInstances[i];
      if currentEmote.Some? && currentEmote.value in typedEmotes {
        var userProgress := ProgressOf(progress, user) + 1;
        if userProgress > questLimit {
          return;
        }
        if userProgress == questLimit {
          finished := true;
        }
        progress := progress[user := userProgress];
      }
    }
  }

  // ------------------------------------------------------------ properties

  /** Progress only moves when the quest emote is typed, only for the
      sender, by exactly one, and never past the limit; when the emote is
      typed below the limit it does move, and the quest finishes exactly
      when the new progress equals the limit. */
  lemma AdvanceEffect(p: Progress, limit: int, current: Option<Emote>, user: string,
                      emotes: seq<Emote>)
    ensures
      var u := Advance(p, limit, current, user, emotes);
      && (forall other :: other != user ==> ProgressOf(u.progress, other) == ProgressOf(p, other))
      && (u.progress != p ==> current.Some? && current.value in emotes)
      && (u.progress != p ==> ProgressOf(u.progress, user) == ProgressOf(p, user) + 1 <= limit)
      && (u.finished <==> current.Some? && current.value in emotes
                          && ProgressOf(p, user) + 1 == limit)
      && (ProgressOf(p, user) + 1 > limit ==> u == Update(p, false))
      && (current.Some? && current.value in emotes && ProgressOf(p, user) + 1 <= limit ==>
            u.progress == p[user := ProgressOf(p, user) + 1])
  {
  }

  /** Typing the emote several times in one message counts once: only the
      set of emotes in the message matters. */
  lemma OnlyTheSetOfEmotesMatters(p: Progress, limit: int, current: Option<Emote>, user: string,
                                  e1: seq<Emote>, e2: seq<Emote>)
    requires forall e :: e in e1 <==> e in e2
    ensures Advance(p, limit, current, user, e1) == Advance(p, limit, current, user, e2)
  {
  }

  /** A stored progress within the limit stays within it. */
  lemma AdvanceStaysWithinLimit(p: Progress, limit: int, current: Option<Emote>, user: string,
                                emotes: seq<Emote>)
    requires forall u :: u in p ==> p[u] <= limit
    ensures forall u :: u in Advance(p, limit, current, user, emotes).progress ==>
      Advance(p, limit, current, user, emotes).progress[u] <= limit
  {
  }

  /** The messages of one user, one after another: the final store and how
      many of the messages finished the quest. */
  datatype Tally = Tally(progress: Progress, finishes: nat)

  function Replay(p: Progress, limit: int, current: Option<Emote>, user: string,
                  messages: seq<seq<Emote>>): Tally
    decreases |messages|
  {
    if messages == [] then Tally(p, 0)
    else
      var u := Advance(p, limit, current, user, messages[0]);
      var rest := Replay(u.progress, limit, current, user, messages[1..]);
      Tally(rest.progress, rest.finishes + if u.finished then 1 else 0)
  }

  /** How many of the messages carry the quest emote. */
  function Hits(current: Option<Emote>, messages: seq<seq<Emote>>): nat
    decreases |messages|
  {
    if messages == [] then 0
    else (if current.Some? && current.value in messages[0] then 1 else 0) + Hits(current, messages[1..])
  }

  function Min(a: int, b: int): int {
    if a <= b then a else b
  }

  /** Starting from a progress within the limit, any run of messages takes
      the user's progress to the smaller of the limit and the progress plus
      the number of messages with the emote, and finishes the quest once if
      it reaches the limit during the run, otherwise never: finish_quest is
      called at most once per user. */
  lemma {:induction false} ReplayCountsToLimit(p: Progress, limit: int, current: Option<Emote>,
                                               user: string, messages: seq<seq<Emote>>)
    requires ProgressOf(p, user) <= limit
    ensures
      var t := Replay(p, limit, current, user, messages);
      var start := ProgressOf(p, user);
      && ProgressOf(t.progress, user) == Min(start + Hits(current, messages), limit)
      && t.finishes == (if start < limit && start + Hits(current, messages) >= limit then 1 else 0)
      && t.finishes <= 1
    decreases |messages|
  {
    if messages != [] {
      var u := Advance(p, limit, current, user, messages[0]);
      AdvanceEffect(p, limit, current, user, messages[0]);
      ReplayCountsToLimit(u.progress, limit, current, user, messages[1..]);
    }
  }
}
