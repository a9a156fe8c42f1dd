/** The daily and monthly rollups: folds over the selected meals that sum the
    calories and macros and split the calories over the meal-type buckets. */
module Rollup {
  import opened Wrappers
  import opened Strings
  import opened Models
  import opened Keys
  import opened Seqs

  /** The five bucket names of the `breakdown` dict. */
  const Buckets: set<string> := {"breakfast", "lunch", "dinner", "snacks", "other"}

  /** The `breakdown` dict: calories per bucket. */
  datatype Breakdown = Breakdown(breakfast: real, lunch: real, dinner: real, snacks: real, other: real)
  {
    /** `breakdown[key]` */
    function Get(key: string): real
      requires key in Buckets
    {
      if key == "breakfast" then breakfast
      else if key == "lunch" then lunch
      else if key == "dinner" then dinner
      else if key == "snacks" then snacks
      else other
    }

    /** `breakdown[key] += amount` */
    function Add(key: string, amount: real): Breakdown
      requires key in Buckets
    {
      if key == "breakfast" then this.(breakfast := breakfast + amount)
      else if key == "lunch" then this.(lunch := lunch + amount)
      else if key == "dinner" then this.(dinner := dinner + amount)
      else if key == "snacks" then this.(snacks := snacks + amount)
      else this.(other := other + amount)
    }

    function Sum(): real
    {
      breakfast + lunch + dinner + snacks + other
    }

    function Plus(b: Breakdown): Breakdown
    {
      Breakdown(breakfast + b.breakfast, lunch + b.lunch, dinner + b.dinner, snacks + b.snacks, other + b.other)
    }
  }

  const ZeroBreakdown: Breakdown := Breakdown(0.0, 0.0, 0.0, 0.0, 0.0)

  /** One day's numbers: `total`, `breakdown` and the three macro sums. */
  datatype Summary = Summary(total: real, breakdown: Breakdown, protein: real, carbs: real, fats: real)

  const ZeroSummary: Summary := Summary(0.0, ZeroBreakdown, 0.0, 0.0, 0.0)

  function PlusSummary(a: Summary, b: Summary): Summary
  {
    Summary(a.total + b.total, a.breakdown.Plus(b.breakdown),
            a.protein + b.protein, a.carbs + b.carbs, a.fats + b.fats)
  }

  /** `value or 0`: a null column counts as zero. Named for the Python idiom
      it stands for, which every accumulation in the rollups uses. */
  function OrZero(x: Option<real>): real
  {
    x.GetOr(0.0)
  }

  /** The bucket a meal's calories go to: its lower-cased meal type when that is
      one of the five bucket names, otherwise "other" (also for a null or empty type). */
  function BucketOf(mealType: Option<string>): (b: string)
    ensures b in Buckets
    ensures mealType.Some? && Lower(mealType.value) in Buckets ==> b == Lower(mealType.value)
    ensures b != "other" ==> mealType.Some? && Lower(mealType.value) == b
  {
    var mtype := if mealType.Some? && mealType.value != "" then Lower(mealType.value) else "other";
    if mtype in Buckets then mtype else "other"
  }

  /** The body of both rollup loops: one meal added to a summary. */
  function Step(s: Summary, m: Meal): Summary
  {
    Summary(s.total + OrZero(m.calories),
            s.breakdown.Add(BucketOf(m.mealType), OrZero(m.calories)),
            s.protein + OrZero(m.protein),
            s.carbs + OrZero(m.carbs),
            s.fats + OrZero(m.fats))
  }

  /** A meal's calories go to the total and to exactly one bucket, its macros
      to the macro sums. */
  lemma StepChangesOneBucket(s: Summary, m: Meal)
    ensures Step(s, m).total == s.total + OrZero(m.calories)
    ensures forall b :: b in Buckets ==>
              Step(s, m).breakdown.Get(b)
              == s.breakdown.Get(b) + (if b == BucketOf(m.mealType) then OrZero(m.calories) else 0.0)
    ensures Step(s, m).protein == s.protein + OrZero(m.protein)
    ensures Step(s, m).carbs == s.carbs + OrZero(m.carbs)
    ensures Step(s, m).fats == s.fats + OrZero(m.fats)
  {
  }

  /** The rollup of a sequence of meals, folded in order. */
  function DaySummary(meals: seq<Meal>): Summary
    decreases |meals|
  {
    if meals == [] then ZeroSummary
    else Step(DaySummary(meals[..|meals| - 1]), meals[|meals| - 1])
  }

  lemma DaySummarySnoc(meals: seq<Meal>, m: Meal)
    ensures DaySummary(meals + [m]) == Step(DaySummary(meals), m)
  {
    assert (meals + [m])[..|meals|] == meals;
  }

  /** The buckets of a rollup always add up to its total. */
  lemma {:induction false} BucketsAddUpToTotal(meals: seq<Meal>)
    ensures DaySummary(meals).breakdown.Sum() == DaySummary(meals).total
    decreases |meals|
  {
    if meals != [] {
      BucketsAddUpToTotal(meals[..|meals| - 1]);
    }
  }

  /** The calories of the meals, summed front to back. */
  function SumCalories(meals: seq<Meal>): real
    decreases |meals|
  {
    if meals == [] then 0.0 else OrZero(meals[0].calories) + SumCalories(meals[1..])
  }

  lemma {:induction false} SumCaloriesSnoc(meals: seq<Meal>, m: Meal)
    ensures SumCalories(meals + [m]) == SumCalories(meals) + OrZero(m.calories)
    decreases |meals|
  {
    if meals != [] {
      assert (meals + [m])[1..] == meals[1..] + [m];
      SumCaloriesSnoc(meals[1..], m);
    }
  }

  /** The rollup total is the sum of the meals' calories, absent ones as 0. */
  lemma {:induction false} TotalIsCalorieSum(meals: seq<Meal>)
    ensures DaySummary(meals).total == SumCalories(meals)
    decreases |meals|
  {
    if meals != [] {
      var init := meals[..|meals| - 1];
      TotalIsCalorieSum(init);
      SumCaloriesSnoc(init, meals[|meals| - 1]);
      assert init + [meals[|meals| - 1]] == meals;
    }
  }

  /** The daily rollup loop of `get_daily_meals`. */
  method DailyRollup(meals: seq<Meal>) returns (s: Summary)
    ensures s == DaySummary(meals)
  {
    var totalCalories, totalProtein, totalCarbs, totalFats := 0.0, 0.0, 0.0, 0.0;
    var breakdown := ZeroBreakdown;
    for i := 0 to |meals|
      invariant Summary(totalCalories, breakdown, totalProtein, totalCarbs, totalFats) == DaySummary(meals[..i])
    {
      var meal := meals[i];
      totalCalories := totalCalories + OrZero(meal.calories);
      totalProtein := totalProtein + OrZero(meal.protein);
      totalCarbs := totalCarbs + OrZero(meal.carbs);
      totalFats := totalFats + OrZero(meal.fats);
      var bucket := BucketOf(meal.mealType);
      breakdown := breakdown.Add(bucket, OrZero(meal.calories));
      PrefixSnoc(meals, i);
      DaySummarySnoc(meals[..i], meal);
    }
    assert meals[..|meals|] == meals;
    s := Summary(totalCalories, breakdown, totalProtein, totalCarbs, totalFats);
  }

  // ---------------------------------------------------------------------------
  // Monthly rollup

  /** One element of the monthly `days` list. */
  datatype DayEntry = DayEntry(day: int, summary: Summary)

  function DayOf(m: Meal): int
  {
    m.createdAt.day
  }

  /** The meals created on day-of-month `d`, in their original order. */
  function OnDay(meals: seq<Meal>, d: int): seq<Meal>
    decreases |meals|
  {
    if meals == [] then []
    else
      var init := OnDay(meals[..|meals| - 1], d);
      if DayOf(meals[|meals| - 1]) == d then init + [meals[|meals| - 1]] else init
  }

  /** The day numbers that occur among the meals. */
  function DaysOf(meals: seq<Meal>): set<int>
    decreases |meals|
  {
    if meals == [] then {} else DaysOf(meals[..|meals| - 1]) + {DayOf(meals[|meals| - 1])}
  }

  /** A day is among the days of the meals exactly when some meal was made on it. */
  lemma {:induction false} DaysOfMeals(meals: seq<Meal>)
    ensures forall d :: d in DaysOf(meals) <==> exists i :: 0 <= i < |meals| && DayOf(meals[i]) == d
    decreases |meals|
  {
    if meals != [] {
      var init := meals[..|meals| - 1];
      DaysOfMeals(init);
      assert forall i :: 0 <= i < |init| ==> init[i] == meals[i];
    }
  }

  function DayNumbers(days: seq<DayEntry>): (ds: seq<int>)
    ensures |ds| == |days| && forall i :: 0 <= i < |days| ==> ds[i] == days[i].day
    decreases |days|
  {
    if days == [] then [] else [days[0].day] + DayNumbers(days[1..])
  }

  lemma OnDaySnoc(meals: seq<Meal>, m: Meal, d: int)
    ensures OnDay(meals + [m], d) == OnDay(meals, d) + (if DayOf(m) == d then [m] else [])
  {
    assert (meals + [m])[..|meals|] == meals;
  }

  lemma {:induction false} OnDayOfAbsentDay(meals: seq<Meal>, d: int)
    requires d !in DaysOf(meals)
    ensures OnDay(meals, d) == []
    decreases |meals|
  {
    if meals != [] {
      OnDayOfAbsentDay(meals[..|meals| - 1], d);
    }
  }

  /** The meals of the listed days, day after day. */
  function ConcatDays(meals: seq<Meal>, ds: seq<int>): seq<Meal>
    decreases |ds|
  {
    if ds == [] then [] else OnDay(meals, ds[0]) + ConcatDays(meals, ds[1..])
  }

  /** The summaries of the listed days, added up. */
  function SumDays(meals: seq<Meal>, ds: seq<int>): Summary
    decreases |ds|
  {
    if ds == [] then ZeroSummary else PlusSummary(DaySummary(OnDay(meals, ds[0])), SumDays(meals, ds[1..]))
  }

  /** The summaries of the entries, added up. */
  function SumEntries(days: seq<DayEntry>): Summary
    decreases |days|
  {
    if days == [] then ZeroSummary else PlusSummary(days[0].summary, SumEntries(days[1..]))
  }

  predicate Distinct(ds: seq<int>)
  {
    forall i, j :: 0 <= i < j < |ds| ==> ds[i] != ds[j]
  }

  /** The meals of one day after one more meal, as a multiset. */
  lemma OnDaySnocMultiset(meals: seq<Meal>, m: Meal, d: int)
    ensures multiset(OnDay(meals + [m], d))
            == multiset(OnDay(meals, d)) + (if DayOf(m) == d then multiset{m} else multiset{})
  {
    OnDaySnoc(meals, m, d);
  }

  lemma {:induction false} ConcatDaysSnoc(meals: seq<Meal>, m: Meal, ds: seq<int>)
    requires Distinct(ds)
    ensures multiset(ConcatDays(meals + [m], ds))
            == multiset(ConcatDays(meals, ds)) + (if DayOf(m) in ds then multiset{m} else multiset{})
    decreases |ds|
  {
    if ds != [] {
      var d, rest := ds[0], ds[1..];
      assert Distinct(rest);
      ConcatDaysSnoc(meals, m, rest);
      OnDaySnocMultiset(meals, m, d);
      assert DayOf(m) in ds <==> DayOf(m) == d || DayOf(m) in rest;
      assert DayOf(m) == d ==> DayOf(m) !in rest;
    }
  }

  lemma {:induction false} ConcatDaysOfNoMeals(ds: seq<int>)
    ensures ConcatDays([], ds) == []
    decreases |ds|
  {
    if ds != [] {
      ConcatDaysOfNoMeals(ds[1..]);
    }
  }

  /** The day groups partition the meals: concatenated, they are a permutation
      of the meals, so no meal is counted twice or left out. */
  lemma {:induction false} DaysPartitionMeals(meals: seq<Meal>, ds: seq<int>)
    requires Distinct(ds)
    requires forall d :: d in DaysOf(meals) ==> d in ds
    ensures multiset(ConcatDays(meals, ds)) == multiset(meals)
    decreases |meals|
  {
    if meals == [] {
      ConcatDaysOfNoMeals(ds);
    } else {
      var init := meals[..|meals| - 1];
      var m := meals[|meals| - 1];
      assert init + [m] == meals;
      assert DayOf(m) in DaysOf(meals);
      DaysPartitionMeals(init, ds);
      ConcatDaysSnoc(init, m, ds);
    }
  }

  lemma StepPlusLeft(a: Summary, b: Summary, m: Meal)
    ensures PlusSummary(Step(a, m), b) == Step(PlusSummary(a, b), m)
  {
  }

  lemma StepPlusRight(a: Summary, b: Summary, m: Meal)
    ensures PlusSummary(a, Step(b, m)) == Step(PlusSummary(a, b), m)
  {
  }

  lemma {:induction false} SumDaysSnoc(meals: seq<Meal>, m: Meal, ds: seq<int>)
    requires Distinct(ds)
    ensures SumDays(meals + [m], ds)
            == if DayOf(m) in ds then Step(SumDays(meals, ds), m) else SumDays(meals, ds)
    decreases |ds|
  {
    if ds != [] {
      OnDaySnoc(meals, m, ds[0]);
      assert Distinct(ds[1..]);
      SumDaysSnoc(meals, m, ds[1..]);
      assert DayOf(m) in ds <==> DayOf(m) == ds[0] || DayOf(m) in ds[1..];
      var here := DaySummary(OnDay(meals, ds[0]));
      var rest := SumDays(meals, ds[1..]);
      if DayOf(m) == ds[0] {
        assert DayOf(m) !in ds[1..];
        assert OnDay(meals + [m], ds[0]) == OnDay(meals, ds[0]) + [m];
        assert DaySummary(OnDay(meals + [m], ds[0])) == Step(here, m) by {
          assert (OnDay(meals, ds[0]) + [m])[..|OnDay(meals, ds[0])|] == OnDay(meals, ds[0]);
        }
        StepPlusLeft(here, rest, m);
      } else if DayOf(m) in ds[1..] {
        StepPlusRight(here, rest, m);
      }
    }
  }

  lemma {:induction false} SumDaysOfNoMeals(ds: seq<int>)
    ensures SumDays([], ds) == ZeroSummary
    decreases |ds|
  {
    if ds != [] {
      SumDaysOfNoMeals(ds[1..]);
    }
  }

  /** Adding up the day summaries gives the summary of all the meals. */
  lemma {:induction false} DaySummariesAddUp(meals: seq<Meal>, ds: seq<int>)
    requires Distinct(ds)
    requires forall d :: d in DaysOf(meals) ==> d in ds
    ensures SumDays(meals, ds) == DaySummary(meals)
    decreases |meals|
  {
    if meals == [] {
      SumDaysOfNoMeals(ds);
    } else {
      var init := meals[..|meals| - 1];
      var m := meals[|meals| - 1];
      assert init + [m] == meals;
      assert DayOf(m) in DaysOf(meals);
      DaySummariesAddUp(init, ds);
      SumDaysSnoc(init, m, ds);
    }
  }

  lemma {:induction false} EntriesAreDays(meals: seq<Meal>, days: seq<DayEntry>)
    requires forall i :: 0 <= i < |days| ==> days[i].summary == DaySummary(OnDay(meals, days[i].day))
    ensures SumEntries(days) == SumDays(meals, DayNumbers(days))
    decreases |days|
  {
    if days != [] {
      var rest := days[1..];
      assert forall i :: 0 <= i < |rest| ==> rest[i] == days[i + 1];
      EntriesAreDays(meals, rest);
      assert DayNumbers(days) == [days[0].day] + DayNumbers(rest);
      assert ([days[0].day] + DayNumbers(rest))[1..] == DayNumbers(rest);
    }
  }

  /** The per-day map before a meal is processed: one key per day seen so
      far, each holding the rollup of that day's meals. */
  predicate ByDay(byDay: map<int, Summary>, meals: seq<Meal>)
  {
    byDay.Keys == DaysOf(meals)
    && forall d :: d in byDay ==> byDay[d] == DaySummary(OnDay(meals, d))
  }

  /** The per-day map after one more meal: its day's entry, new or old, takes the meal. */
  function AddToDay(byDay: map<int, Summary>, m: Meal): map<int, Summary>
  {
    byDay[DayOf(m) := Step(if DayOf(m) in byDay then byDay[DayOf(m)] else ZeroSummary, m)]
  }

  lemma DaysOfSnoc(meals: seq<Meal>, m: Meal)
    ensures DaysOf(meals + [m]) == DaysOf(meals) + {DayOf(m)}
  {
    assert (meals + [m])[..|meals|] == meals;
  }

  /** The summary of one day after one more meal. */
  lemma DaySummaryOnDaySnoc(meals: seq<Meal>, m: Meal, d: int)
    ensures DaySummary(OnDay(meals + [m], d))
            == if DayOf(m) == d then Step(DaySummary(OnDay(meals, d)), m) else DaySummary(OnDay(meals, d))
  {
    OnDaySnoc(meals, m, d);
    if DayOf(m) == d {
      DaySummarySnoc(OnDay(meals, d), m);
    }
  }

  /** One iteration of the monthly loop keeps the per-day map up to date:
      a day seen for the first time starts from a zero summary. */
  lemma MonthlyStepKeepsByDay(byDay: map<int, Summary>, meals: seq<Meal>, m: Meal)
    requires ByDay(byDay, meals)
    ensures ByDay(AddToDay(byDay, m), meals + [m])
  {
    var day := DayOf(m);
    DaysOfSnoc(meals, m);
    if day !in byDay {
      OnDayOfAbsentDay(meals, day);
    }
    var byDay' := AddToDay(byDay, m);
    forall d | d in byDay'
      ensures byDay'[d] == DaySummary(OnDay(meals + [m], d))
    {
      DaySummaryOnDaySnoc(meals, m, d);
    }
  }

  /** The monthly rollup loop of `get_monthly_meals`: per-day summaries kept in
      a map that starts each new day at zero, then listed in ascending day order. */
  method MonthlyRollup(meals: seq<Meal>) returns (days: seq<DayEntry>)
    ensures StrictlyIncreasing(DayNumbers(days))
    ensures forall d :: d in DaysOf(meals) <==> d in DayNumbers(days)
    ensures forall i :: 0 <= i < |days| ==> days[i].summary == DaySummary(OnDay(meals, days[i].day))
    ensures multiset(ConcatDays(meals, DayNumbers(days))) == multiset(meals)
    ensures SumEntries(days) == DaySummary(meals)
  {
    var dailySummary: map<int, Summary> := map[];
    for i := 0 to |meals|
      invariant ByDay(dailySummary, meals[..i])
    {
      var meal := meals[i];
      var dayNumber := meal.createdAt.day;
      var summary := if dayNumber in dailySummary then dailySummary[dayNumber] else ZeroSummary;
      MonthlyStepKeepsByDay(dailySummary, meals[..i], meal);
      PrefixSnoc(meals, i);
      dailySummary := dailySummary[dayNumber := Step(summary, meal)];
    }
    assert meals[..|meals|] == meals;
    var order := Ascending(dailySummary.Keys);
    days := seq(|order|, j requires 0 <= j < |order| => DayEntry(order[j], dailySummary[order[j]]));
    assert DayNumbers(days) == order;
    assert StrictlyIncreasing(order) ==> Distinct(order);
    DaysPartitionMeals(meals, order);
    EntriesAreDays(meals, days);
    DaySummariesAddUp(meals, order);
  }
}
