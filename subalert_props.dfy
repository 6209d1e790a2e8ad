/** What the subscription handler promises about points, proved about
    `SubAlert.Usernotice`. */
module SubAlertProps {
  import opened Wrappers
  import opened SubAlert

  predicate IsPointsNotice(tags: Tags) {
    "msg-id" in tags && tags["msg-id"] in {"sub", "resub", "subgift"}
  }

  /** A notice without msg-id, or with one the handler does not know, gives
      no points. */
  lemma UnknownNoticeGivesNothing(tags: Tags)
    requires "msg-id" !in tags
             || tags["msg-id"] !in {"sub", "resub", "subgift", "submysterygift"}
    ensures Usernotice(tags) == Unhandled && Award(Usernotice(tags)) == 0
  {
  }

  /** Mystery gifts are thanked but never pay. */
  lemma MysteryGiftNeverPays(tags: Tags)
    requires "msg-id" in tags && tags["msg-id"] == "submysterygift"
    ensures !Usernotice(tags).Awarded? && Award(Usernotice(tags)) == 0
  {
  }

  /** Without msg-param-sub-plan no notice pays; a gifted sub also needs
      display-name. */
  lemma MissingTagsGiveNothing(tags: Tags)
    ensures "msg-param-sub-plan" !in tags ==> Award(Usernotice(tags)) == 0
    ensures "msg-id" in tags && tags["msg-id"] == "subgift" && "display-name" !in tags ==>
      Usernotice(tags) == Skipped
    ensures IsPointsNotice(tags) && "msg-param-sub-plan" !in tags ==>
      Usernotice(tags) in {Skipped, Raised}
  {
  }

  /** Only sub, resub and subgift notices pay, and they pay at least the
      plan's base: 2500, 5000 for a plan starting with "2", 12500 for one
      starting with "3". */
  lemma AwardAtLeastPlanBase(tags: Tags)
    requires Usernotice(tags).Awarded?
    ensures IsPointsNotice(tags) && "msg-param-sub-plan" in tags
    ensures
      var plan := tags["msg-param-sub-plan"];
      var base := if StartsWith(plan, '3') then 12500 else if StartsWith(plan, '2') then 5000 else 2500;
      Usernotice(tags).points >= base >= 2500
  {
  }

  /** The award is exactly the plan's base when at most one month is
      reported (always, for a gifted sub). */
  lemma AwardIsBaseUpToOneMonth(tags: Tags, months: int)
    requires IsPointsNotice(tags) && "msg-param-sub-plan" in tags
    requires tags["msg-id"] == "subgift"
             || (tags["msg-id"] == "resub" && ResubMonths(tags) == Some(months) && months <= 1)
             || (tags["msg-id"] == "sub" && MonthsTag(tags, "msg-param-cumulative-months", -1) == Some(months)
                 && months <= 1)
    requires tags["msg-id"] == "subgift" ==> "display-name" in tags
    ensures
      var plan := tags["msg-param-sub-plan"];
      Usernotice(tags) == Awarded(if StartsWith(plan, '3') then 12500
                                  else if StartsWith(plan, '2') then 5000 else 2500)
  {
  }

  /** A resub's month count is -1 unless a tag gives one, and
      msg-param-cumulative-months wins over msg-param-months. */
  lemma ResubMonthsChoice(tags: Tags)
    ensures "msg-param-months" !in tags && "msg-param-cumulative-months" !in tags ==>
      ResubMonths(tags) == Some(-1)
    ensures "msg-param-cumulative-months" in tags && ResubMonths(tags).Some? ==>
      ResubMonths(tags) == ParseInt(tags["msg-param-cumulative-months"])
    ensures "msg-param-months" in tags && "msg-param-cumulative-months" !in tags ==>
      ResubMonths(tags) == ParseInt(tags["msg-param-months"])
  {
  }

  /** The month bonus applies exactly when more than one month is reported,
      and then it pays strictly more than the base. */
  lemma {:induction false} BonusOnlyAfterOneMonth(base: nat, months: int)
    requires base >= 40
    ensures WithMonths(base, months) > base <==> months > 1
  {
    if months > 1 {
      calc {
        base * (40 + months) / 40;
      ==  { assert base * (40 + months) == base * 40 + base * months; }
        (base * 40 + base * months) / 40;
      ==  { assert base * 40 + base * months == 40 * base + base * months; }
        base + base * months / 40;
      }
      assert base * months >= base * 2 >= 80;
    }
  }

  /** More months never earn fewer points. */
  lemma {:induction false} MoreMonthsNeverFewerPoints(base: nat, m1: int, m2: int)
    requires m1 <= m2
    ensures WithMonths(base, m1) <= WithMonths(base, m2)
  {
    if m1 > 1 {
      assert base * (40 + m1) <= base * (40 + m2) by {
        assert base * (40 + m2) - base * (40 + m1) == base * (m2 - m1);
      }
    }
  }
}
