/** SubAlertModule of pajbot/modules/subalert.py: the points a
    subscription notice is worth, decided from the notice's tags, and the
    two handlers that add those points to a user. */
module SubAlert {
  import opened Wrappers

  /** The tags of a Twitch USERNOTICE: tag name -> tag text. */
  type Tags = map<string, string>

  // ------------------------------------------------------ integer parsing

  predicate IsDigit(ch: char) {
    '0' <= ch <= '9'
  }

  predicate AllDigits(s: string) {
    forall i :: 0 <= i < |s| ==> IsDigit(s[i])
  }

  /** The value of a string of decimal digits. */
  function DigitsValue(s: string): nat
    requires AllDigits(s)
  {
    if s == [] then 0
    else DigitsValue(s[..|s| - 1]) * 10 + (s[|s| - 1] as int - '0' as int)
  }

  /** `int(text)` on a tag: an optional sign and at least one decimal
      digit; anything else makes `int` raise. */
  function ParseInt(s: string): (r: Option<int>)
    ensures r.Some? <==>
      || (s != [] && AllDigits(s))
      || (|s| > 1 && (s[0] == '-' || s[0] == '+') && AllDigits(s[1..]))
    ensures r.Some? && IsDigit(s[0]) ==> r == Some(DigitsValue(s))
    ensures r.Some? && s[0] == '+' ==> r == Some(DigitsValue(s[1..]))
    ensures r.Some? && s[0] == '-' ==> r == Some(0 - DigitsValue(s[1..]))
  {
    if |s| > 0 && (s[0] == '-' || s[0] == '+') then
      var digits := s[1..];
      if digits != [] && AllDigits(digits) then
        var v: int := DigitsValue(digits);
        Some(if s[0] == '-' then -v else v)
      else None
    else if s != [] && AllDigits(s) then Some(DigitsValue(s))
    else None
  }

  /** The decimal digits of `n`, without sign or leading zeros. */
  function ShowNat(n: nat): (r: string)
    ensures r != [] && AllDigits(r)
    ensures n >= 10 ==> r[0] != '0'
    decreases n
  {
    var last := ['0' + (n % 10) as char];
    if n < 10 then last else ShowNat(n / 10) + last
  }

  lemma {:induction false} ShowNatValue(n: nat)
    ensures DigitsValue(ShowNat(n)) == n
    decreases n
  {
    var r := ShowNat(n);
    if n >= 10 {
      ShowNatValue(n / 10);
      assert r[..|r| - 1] == ShowNat(n / 10);
    }
  }

  /** `int` reads back any integer written in decimal, with a minus sign
      for a negative one and optionally a plus sign for a positive one. */
  lemma ParseIntReadsShownNumbers(n: nat)
    ensures ParseInt(ShowNat(n)) == Some(n)
    ensures ParseInt("+" + ShowNat(n)) == Some(n)
    ensures ParseInt("-" + ShowNat(n)) == Some(0 - n)
  {
    ShowNatValue(n);
    assert ("+" + ShowNat(n))[1..] == ShowNat(n);
    assert ("-" + ShowNat(n))[1..] == ShowNat(n);
  }

  // ------------------------------------------------------------ the award

  datatype Tier = Tier1 | Tier2 | Tier3

  predicate StartsWith(s: string, ch: char) {
    |s| > 0 && s[0] == ch
  }

  /** The sub plan "2000" is tier 2, "3000" tier 3; any other plan ("1000",
      "Prime") is tier 1. */
  function PlanTier(plan: string): Tier {
    if StartsWith(plan, '3') then Tier3
    else if StartsWith(plan, '2') then Tier2
    else Tier1
  }

  function BasePoints(t: Tier): nat {
    match t
    case Tier1 => 2500
    case Tier2 => 5000
    case Tier3 => 12500
  }

  /** The base award raised by 2.5% per month once more than one month is
      reported, rounded down: `base * (0.025 * months + 1)` in exact
      arithmetic. */
  function WithMonths(base: nat, months: int): (r: nat)
    ensures r >= base
    ensures months <= 1 ==> r == base
  {
    if months > 1 then base * (40 + months) / 40 else base
  }

  /** Unhandled: no msg-id, or one the handler does not know.  Skipped: it
      returns early because a tag it needs is missing.  Raised: `int` or a
      tag lookup raises before any points are given.  Thanked: a mystery
      gift is thanked in chat, without points.  Awarded: the sender gets
      the points. */
  datatype NoticeOutcome = Unhandled | Skipped | Raised | Thanked | Awarded(points: nat)

  function Award(o: NoticeOutcome): nat {
    if o.Awarded? then o.points else 0
  }

  /** The month count a tag gives, -1 when the tag is absent, None when
      `int` raises on it. */
  function MonthsTag(tags: Tags, key: string, absent: int): Option<int> {
    if key in tags then ParseInt(tags[key]) else Some(absent)
  }

  /** Resub months: -1 by default, then msg-param-months, then
      msg-param-cumulative-months, each parsed in that order. */
  function ResubMonths(tags: Tags): Option<int> {
    var months := MonthsTag(tags, "msg-param-months", -1);
    if months.None? then None
    else MonthsTag(tags, "msg-param-cumulative-months", months.value)
  }

  function PlanPoints(tags: Tags): nat
    requires "msg-param-sub-plan" in tags
  {
    BasePoints(PlanTier(tags["msg-param-sub-plan"]))
  }

  function Resub(tags: Tags): NoticeOutcome {
    var months := ResubMonths(tags);
    if months.None? then Raised
    else if "msg-param-sub-plan" !in tags then Skipped
    else Awarded(WithMonths(PlanPoints(tags), months.value))
  }

  /** A gifted sub earns the gifter the plan's points; no month bonus. */
  function SubGift(tags: Tags): NoticeOutcome {
    if "display-name" !in tags || "msg-param-sub-plan" !in tags then Skipped
    else Awarded(PlanPoints(tags))
  }

  function MysteryGift(tags: Tags): NoticeOutcome {
    if "display-name" !in tags || "msg-param-sub-plan" !in tags then Skipped
    else if "login" !in tags || "msg-param-mass-gift-count" !in tags then Raised
    else if ParseInt(tags["msg-param-mass-gift-count"]).None? then Raised
    else Thanked
  }

  function NewSub(tags: Tags): NoticeOutcome {
    var months := MonthsTag(tags, "msg-param-cumulative-months", -1);
    if months.None? then Raised
    else if "msg-param-sub-plan" !in tags then Skipped
    else Awarded(WithMonths(PlanPoints(tags), months.value))
  }

  /** The dispatch of `on_usernotice` on msg-id. */
  function Usernotice(tags: Tags): NoticeOutcome {
    if "msg-id" !in tags then Unhandled
    else if tags["msg-id"] == "resub" then Resub(tags)
    else if tags["msg-id"] == "subgift" then SubGift(tags)
    else if tags["msg-id"] == "submysterygift" then MysteryGift(tags)
    else if tags["msg-id"] == "sub" then NewSub(tags)
    else Unhandled
  }

  // ------------------------------------------------------------ the module

  /** A chat user; only the points matter here. */
  class User {
    var points: int

    constructor (points: int)
      ensures this.points == points
    {
      this.points := points;
    }
  }

  class SubAlertModule {
    /** The grant_points_on_sub setting. */
    const grantPointsOnSub: int

    constructor (grantPointsOnSub: int)
      ensures this.grantPointsOnSub == grantPointsOnSub
    {
      this.grantPointsOnSub := grantPointsOnSub;
    }

    /** The grant every new sub and resub receives: nothing while the
        setting is 0 or less, otherwise exactly the setting. */
    method OnSubShared(user: User)
      modifies user
      ensures grantPointsOnSub <= 0 ==> user.points == old(user.points)
      ensures grantPointsOnSub > 0 ==> user.points == old(user.points) + grantPointsOnSub
    {
      if grantPointsOnSub <= 0 {
        return;
      }
      user.points := user.points + grantPointsOnSub;
    }

    /** Handles one USERNOTICE from `source`: its points grow by what the
        notice is worth and by nothing else. */
    method OnUsernotice(source: User, tags: Tags) returns (outcome: NoticeOutcome)
      modifies source
      ensures outcome == Usernotice(tags)
      ensures source.points == old(source.points) + Award(outcome)
      ensures source.points >= old(source.points)
    {
      outcome := Usernotice(tags);
      if outcome.Awarded? {
        source.points := source.points + outcome.points;
      }
    }
  }
}
