/** The labels a list row shows under a medicine's name. */
module MedicineItem {
  import opened MedicineRecord

  /** The badges a row can show, in display order. */
  datatype Badge = MorningBadge | AfternoonBadge | EveningBadge | AfterEat | BeforeEat | DailyBadge

  /** The text of a badge. */
  function Label(b: Badge): string
  {
    match b
    case MorningBadge => "Morning"
    case AfternoonBadge => "Afternoon"
    case EveningBadge => "Evening"
    case AfterEat => "After Eat"
    case BeforeEat => "Before Eat"
    case DailyBadge => "Daily"
  }

  /** The position of a badge in the row; the two meal badges share one. */
  function Rank(b: Badge): nat
  {
    match b
    case MorningBadge => 0
    case AfternoonBadge => 1
    case EveningBadge => 2
    case AfterEat => 3
    case BeforeEat => 3
    case DailyBadge => 4
  }

  /** Different badges read differently. */
  lemma LabelInjective(a: Badge, b: Badge)
    ensures Label(a) == Label(b) ==> a == b
  {
    if a != b {
      var la, lb := Label(a), Label(b);
      assert |la| != |lb| || la[0] != lb[0] || la[|la| - 1] != lb[|lb| - 1];
    }
  }

  /** The texts of a row of badges, in order. */
  function Labels(row: seq<Badge>): (r: seq<string>)
    ensures |r| == |row|
    ensures forall k :: 0 <= k < |row| ==> r[k] == Label(row[k])
  {
    seq(|row|, k requires 0 <= k < |row| => Label(row[k]))
  }

  /** The ranks of `row` strictly increase. */
  predicate InRankOrder(row: seq<Badge>)
  {
    forall i, j :: 0 <= i < j < |row| ==> Rank(row[i]) < Rank(row[j])
  }

  /** `[x]` when `on`, otherwise nothing. */
  function Flag<T>(on: bool, x: T): seq<T>
  {
    if on then [x] else []
  }

  /** The time-of-day badges: none without a `timeOfDay` object. */
  function TimeBadges(t: Option<TimeOfDay>): seq<Badge>
  {
    if t.None? then []
    else Flag(t.value.morning, MorningBadge) + Flag(t.value.afternoon, AfternoonBadge) + Flag(t.value.evening, EveningBadge)
  }

  /** The meal badge: "After Eat" for after, "Before Eat" for any other choice. */
  function MealBadges(m: Option<Meal>): seq<Badge>
  {
    if m.None? then [] else if m.value == After then [AfterEat] else [BeforeEat]
  }

  /** The row of badges of `item`, in display order. */
  function BadgeRow(item: Medicine): seq<Badge>
  {
    TimeBadges(item.timeOfDay) + MealBadges(item.mealTiming) + Flag(item.repeat == Some(Daily), DailyBadge)
  }

  /** `badges`: the component's straight-line pushes, each badge standing
      for the text `Label` gives it. */
  method Badges(item: Medicine) returns (badges: seq<Badge>)
    ensures badges == BadgeRow(item)
  {
    badges := [];
    if item.timeOfDay.Some? {
      var tod := item.timeOfDay.value;
      if tod.morning {
        badges := badges + [MorningBadge];
      }
      assert badges == Flag(tod.morning, MorningBadge);
      if tod.afternoon {
        badges := badges + [AfternoonBadge];
      }
      assert badges == Flag(tod.morning, MorningBadge) + Flag(tod.afternoon, AfternoonBadge);
      if tod.evening {
        badges := badges + [EveningBadge];
      }
    }
    assert badges == TimeBadges(item.timeOfDay);
    if item.mealTiming.Some? {
      badges := badges + [if item.mealTiming.value == After then AfterEat else BeforeEat];
    }
    assert badges == TimeBadges(item.timeOfDay) + MealBadges(item.mealTiming);
    if item.repeat == Some(Daily) {
      badges := badges + [DailyBadge];
    }
  }

  /** A row without repeated badges shows no label twice. */
  lemma DistinctLabels(row: seq<Badge>)
    requires forall i, j :: 0 <= i < j < |row| ==> row[i] != row[j]
    ensures forall i, j :: 0 <= i < j < |row| ==> Labels(row)[i] != Labels(row)[j]
  {
    forall i, j | 0 <= i < j < |row|
      ensures Labels(row)[i] != Labels(row)[j]
    {
      LabelInjective(row[i], row[j]);
    }
  }

  /** The texts of a row: at most five, none twice. */
  lemma LabelRowFacts(item: Medicine)
    ensures |Labels(BadgeRow(item))| <= 5
    ensures forall i, j :: 0 <= i < j < |Labels(BadgeRow(item))| ==> Labels(BadgeRow(item))[i] != Labels(BadgeRow(item))[j]
  {
    BadgeRowOrdered(item);
    DistinctLabels(BadgeRow(item));
  }

  /** Every badge of `row` has a rank in `[lo, hi)`. */
  predicate RanksIn(row: seq<Badge>, lo: nat, hi: nat)
  {
    forall k :: 0 <= k < |row| ==> lo <= Rank(row[k]) < hi
  }

  /** Concatenating a row in rank order with ranks in `[lo, mid)` and one
      with ranks in `[mid, hi)` gives a row in rank order with ranks in `[lo, hi)`. */
  lemma RankOrderAppend(a: seq<Badge>, b: seq<Badge>, lo: nat, mid: nat, hi: nat)
    requires lo <= mid <= hi
    requires InRankOrder(a) && RanksIn(a, lo, mid)
    requires InRankOrder(b) && RanksIn(b, mid, hi)
    ensures InRankOrder(a + b) && RanksIn(a + b, lo, hi)
  {
    forall k | 0 <= k < |a + b|
      ensures lo <= Rank((a + b)[k]) < hi
    {
      if k < |a| {
        assert (a + b)[k] == a[k];
      } else {
        assert (a + b)[k] == b[k - |a|];
      }
    }
    forall i, j | 0 <= i < j < |a + b|
      ensures Rank((a + b)[i]) < Rank((a + b)[j])
    {
      if j < |a| {
      } else if i >= |a| {
        assert (a + b)[i] == b[i - |a|] && (a + b)[j] == b[j - |a|];
      } else {
        assert (a + b)[j] == b[j - |a|];
      }
    }
  }

  lemma FlagRanked(on: bool, x: Badge)
    ensures InRankOrder(Flag(on, x)) && RanksIn(Flag(on, x), Rank(x), Rank(x) + 1)
  {
  }

  lemma TimeBadgesRanked(t: Option<TimeOfDay>)
    ensures InRankOrder(TimeBadges(t)) && RanksIn(TimeBadges(t), 0, 3)
  {
    if t.Some? {
      var m := Flag(t.value.morning, MorningBadge);
      var a := Flag(t.value.afternoon, AfternoonBadge);
      var e := Flag(t.value.evening, EveningBadge);
      FlagRanked(t.value.morning, MorningBadge);
      FlagRanked(t.value.afternoon, AfternoonBadge);
      FlagRanked(t.value.evening, EveningBadge);
      RankOrderAppend(m, a, 0, 1, 2);
      RankOrderAppend(m + a, e, 0, 2, 3);
    }
  }

  /** In a row in rank order, the badge at index `k` has rank at least `k`. */
  lemma {:induction false} RankAtLeastIndex(row: seq<Badge>, k: nat)
    requires InRankOrder(row) && k < |row|
    ensures Rank(row[k]) >= k
  {
    if k > 0 {
      RankAtLeastIndex(row, k - 1);
    }
  }

  /** A row in rank order has at most five badges. */
  lemma RankedRowShort(row: seq<Badge>)
    requires InRankOrder(row)
    ensures |row| <= 5
  {
    if |row| > 0 {
      RankAtLeastIndex(row, |row| - 1);
    }
  }

  /** Time badges, then a meal badge, then the daily badge are in rank order. */
  lemma RowRanked(tod: Option<TimeOfDay>, meal: Option<Meal>, daily: bool)
    ensures InRankOrder(TimeBadges(tod) + MealBadges(meal) + Flag(daily, DailyBadge))
  {
    var t := TimeBadges(tod);
    var m := MealBadges(meal);
    TimeBadgesRanked(tod);
    assert InRankOrder(m) && RanksIn(m, 3, 4);
    FlagRanked(daily, DailyBadge);
    RankOrderAppend(t, m, 0, 3, 4);
    RankOrderAppend(t + m, Flag(daily, DailyBadge), 0, 4, 5);
  }

  /** Badges appear in the fixed order morning, afternoon, evening, meal,
      daily; hence no badge appears twice and there are at most five. */
  lemma BadgeRowOrdered(item: Medicine)
    ensures InRankOrder(BadgeRow(item))
    ensures forall i, j :: 0 <= i < j < |BadgeRow(item)| ==> BadgeRow(item)[i] != BadgeRow(item)[j]
    ensures |BadgeRow(item)| <= 5
  {
    RowRanked(item.timeOfDay, item.mealTiming, item.repeat == Some(Daily));
    RankedRowShort(BadgeRow(item));
  }

  lemma InThree<T>(a: seq<T>, b: seq<T>, c: seq<T>, x: T)
    ensures x in a + b + c <==> x in a || x in b || x in c
  {
  }

  lemma TimeBadgesContents(t: Option<TimeOfDay>)
    ensures MorningBadge in TimeBadges(t) <==> t.Some? && t.value.morning
    ensures AfternoonBadge in TimeBadges(t) <==> t.Some? && t.value.afternoon
    ensures EveningBadge in TimeBadges(t) <==> t.Some? && t.value.evening
    ensures forall b :: b in TimeBadges(t) ==> Rank(b) < 3
  {
    if t.Some? {
      var m := Flag(t.value.morning, MorningBadge);
      var a := Flag(t.value.afternoon, AfternoonBadge);
      var e := Flag(t.value.evening, EveningBadge);
      InThree(m, a, e, MorningBadge);
      InThree(m, a, e, AfternoonBadge);
      InThree(m, a, e, EveningBadge);
      forall b | b in m + a + e
        ensures Rank(b) < 3
      {
        InThree(m, a, e, b);
      }
    }
  }

  /** Each badge is shown exactly when the record asks for it. */
  lemma BadgeRowContents(item: Medicine)
    ensures MorningBadge in BadgeRow(item) <==> item.timeOfDay.Some? && item.timeOfDay.value.morning
    ensures AfternoonBadge in BadgeRow(item) <==> item.timeOfDay.Some? && item.timeOfDay.value.afternoon
    ensures EveningBadge in BadgeRow(item) <==> item.timeOfDay.Some? && item.timeOfDay.value.evening
    ensures AfterEat in BadgeRow(item) <==> item.mealTiming == Some(After)
    ensures BeforeEat in BadgeRow(item) <==> item.mealTiming == Some(Before)
    ensures DailyBadge in BadgeRow(item) <==> item.repeat == Some(Daily)
  {
    var t := TimeBadges(item.timeOfDay);
    var m := MealBadges(item.mealTiming);
    var d := Flag(item.repeat == Some(Daily), DailyBadge);
    TimeBadgesContents(item.timeOfDay);
    TimeBadgesInRow(t, m, d, MorningBadge);
    TimeBadgesInRow(t, m, d, AfternoonBadge);
    TimeBadgesInRow(t, m, d, EveningBadge);
    LaterBadgesInRow(t, m, d, AfterEat);
    LaterBadgesInRow(t, m, d, BeforeEat);
    LaterBadgesInRow(t, m, d, DailyBadge);
  }

  /** A time badge of a row comes from its time-of-day part. */
  lemma TimeBadgesInRow(t: seq<Badge>, m: seq<Badge>, d: seq<Badge>, x: Badge)
    requires Rank(x) < 3
    requires forall b :: b in m ==> b == AfterEat || b == BeforeEat
    requires forall b :: b in d ==> b == DailyBadge
    ensures x in t + m + d <==> x in t
  {
    InThree(t, m, d, x);
  }

  /** A meal or daily badge of a row comes from the parts after the time of day. */
  lemma LaterBadgesInRow(t: seq<Badge>, m: seq<Badge>, d: seq<Badge>, x: Badge)
    requires Rank(x) >= 3
    requires forall b :: b in t ==> Rank(b) < 3
    ensures x in t + m + d <==> x in m || x in d
  {
    InThree(t, m, d, x);
  }
}
