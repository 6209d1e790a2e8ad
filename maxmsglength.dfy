/** MaxMsgLengthModule of pajbot/modules/maxmsglength.py: whether a chat
    message is too long, and so whether its sender is timed out and told
    why.  The handler keeps no state; the timeout itself is issued by the
    bot, whose reported duration is an input here. */
module MaxMsgLength {

  /** The module's settings. */
  datatype Settings = Settings(
    maxMsgLength: int,
    maxMsgLengthOffline: int,
    timeoutLength: int,
    bypassLevel: int)

  /** What the handler reads of the sender. */
  datatype Sender = Sender(level: int, moderator: bool, subscriber: bool, minutesInChatOnline: int)

  /** Pass: the handler returns None and does nothing.  TimedOut: it asks
      the bot for a timeout, whispers the reason when `whispered`, and
      returns False. */
  datatype Verdict = Pass | TimedOut(whispered: bool)

  /** The length limit in force: the online one while the stream is live. */
  function Limit(s: Settings, isOnline: bool): int {
    if isOnline then s.maxMsgLength else s.maxMsgLengthOffline
  }

  predicate Bypasses(s: Settings, source: Sender) {
    source.level >= s.bypassLevel || source.moderator || source.subscriber
  }

  /** `on_message`; `warnedDuration` is the duration the bot reports for
      the timeout it issues.  The handler returns False exactly when it times
      the sender out, and that happens exactly for a public message from a
      sender without bypass whose length is strictly over the limit in
      force; the sender is then whispered exactly when the timeout took
      effect and they have watched the stream for more than an hour. */
  function OnMessage(s: Settings, source: Sender, message: string, whisper: bool,
                     isOnline: bool, warnedDuration: int): (v: Verdict)
    ensures v.TimedOut? <==> !whisper && !Bypasses(s, source) && |message| > Limit(s, isOnline)
    ensures v.TimedOut? ==> (v.whispered <==> warnedDuration > 0 && source.minutesInChatOnline > 60)
  {
    if whisper then Pass
    else if Bypasses(s, source) then Pass
    else if |message| > Limit(s, isOnline) then
      TimedOut(warnedDuration > 0 && source.minutesInChatOnline > 60)
    else Pass
  }

  /** Whispers, and messages from moderators, subscribers and users at or
      above the bypass level, are never acted on. */
  lemma ExemptMessagesPass(s: Settings, source: Sender, message: string, whisper: bool,
                           isOnline: bool, warnedDuration: int)
    requires whisper || source.level >= s.bypassLevel || source.moderator || source.subscriber
    ensures OnMessage(s, source, message, whisper, isOnline, warnedDuration) == Pass
  {
  }

  /** A message exactly as long as the limit in force passes; one more
      character is timed out. */
  lemma LimitIsInclusive(s: Settings, source: Sender, message: string, ch: char,
                         isOnline: bool, warnedDuration: int)
    requires !Bypasses(s, source)
    requires |message| == Limit(s, isOnline)
    ensures OnMessage(s, source, message, false, isOnline, warnedDuration) == Pass
    ensures OnMessage(s, source, message + [ch], false, isOnline, warnedDuration).TimedOut?
  {
  }

  /** The offline limit has no say while live, nor the online one while
      offline. */
  lemma OnlyTheLimitInForceMatters(s: Settings, s': Settings, source: Sender, message: string,
                                   whisper: bool, isOnline: bool, warnedDuration: int)
    requires s'.bypassLevel == s.bypassLevel
    requires isOnline ==> s'.maxMsgLength == s.maxMsgLength
    requires !isOnline ==> s'.maxMsgLengthOffline == s.maxMsgLengthOffline
    ensures OnMessage(s, source, message, whisper, isOnline, warnedDuration)
         == OnMessage(s', source, message, whisper, isOnline, warnedDuration)
  {
  }
}
