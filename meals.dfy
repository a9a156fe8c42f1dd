/** Meal aggregation: turning the detected labels into calorie and macro totals
    and the stored `items` string. */
module MealTotals {
  import opened Wrappers
  import opened Strings
  import opened Catalog
  import opened Seqs

  /** Running totals of one meal. */
  datatype Nutrition = Nutrition(calories: real, protein: real, carbs: real, fats: real)

  const NoNutrition: Nutrition := Nutrition(0.0, 0.0, 0.0, 0.0)

  /** What an unmatched label adds: 100 calories and no macros. */
  const DefaultEstimate: Nutrition := Nutrition(100.0, 0.0, 0.0, 0.0)

  function Plus(a: Nutrition, b: Nutrition): Nutrition
  {
    Nutrition(a.calories + b.calories, a.protein + b.protein, a.carbs + b.carbs, a.fats + b.fats)
  }

  /** What one detected label adds to the totals: the four values of the first
      table entry whose lower-cased name equals the lower-cased label, or the
      default estimate when no entry matches. */
  function LabelNutrition(table: seq<NutritionRecord>, item: string): (n: Nutrition)
    ensures FirstMatch(table, item).Some? ==>
              var e := table[FirstMatch(table, item).value];
              Key(e) == Lower(item) && n == Nutrition(e.calories, e.proteins, e.carbs, e.fats)
    ensures FirstMatch(table, item).None? ==>
              (forall j :: 0 <= j < |table| ==> Key(table[j]) != Lower(item)) && n == DefaultEstimate
  {
    match FirstMatch(table, item)
    case Some(i) => Nutrition(table[i].calories, table[i].proteins, table[i].carbs, table[i].fats)
    case None => DefaultEstimate
  }

  /** The totals of a meal: the per-label contributions summed in detection order. */
  function MealNutrition(table: seq<NutritionRecord>, items: seq<string>): Nutrition
    decreases |items|
  {
    if items == [] then NoNutrition
    else Plus(MealNutrition(table, items[..|items| - 1]), LabelNutrition(table, items[|items| - 1]))
  }

  /** The accumulation loop of the meal view: start at zero and add each
      label's contribution. */
  method SumDetectedItems(table: seq<NutritionRecord>, items: seq<string>) returns (total: Nutrition)
    ensures total == MealNutrition(table, items)
  {
    total := NoNutrition;
    for i := 0 to |items|
      invariant total == MealNutrition(table, items[..i])
    {
      var entry := FirstMatch(table, items[i]);
      if entry.Some? {
        var e := table[entry.value];
        total := total.(calories := total.calories + e.calories);
        total := total.(fats := total.fats + e.fats);
        total := total.(carbs := total.carbs + e.carbs);
        total := total.(protein := total.protein + e.proteins);
      } else {
        total := total.(calories := total.calories + 100.0);
      }
      PrefixSnoc(items, i);
    }
    assert items[..|items|] == items;
  }

  /** Totals are additive over a split of the detection list. */
  lemma {:induction false} MealNutritionAppend(table: seq<NutritionRecord>, a: seq<string>, b: seq<string>)
    ensures MealNutrition(table, a + b) == Plus(MealNutrition(table, a), MealNutrition(table, b))
    decreases |b|
  {
    if b == [] {
      assert a + b == a;
    } else {
      var b' := b[..|b| - 1];
      assert (a + b)[..|a + b| - 1] == a + b';
      assert (a + b)[|a + b| - 1] == b[|b| - 1];
      MealNutritionAppend(table, a, b');
    }
  }

  /** Nothing matched: the meal is worth exactly 100 calories per label and no macros. */
  lemma {:induction false} AllUnmatched(table: seq<NutritionRecord>, items: seq<string>)
    requires forall i :: 0 <= i < |items| ==> FirstMatch(table, items[i]).None?
    ensures MealNutrition(table, items) == Nutrition(100.0 * |items| as real, 0.0, 0.0, 0.0)
    decreases |items|
  {
    if items != [] {
      AllUnmatched(table, items[..|items| - 1]);
    }
  }

  /** Every value in the table is non-negative. */
  predicate NonNegativeTable(table: seq<NutritionRecord>)
  {
    forall j :: 0 <= j < |table| ==>
      table[j].calories >= 0.0 && table[j].fats >= 0.0 && table[j].carbs >= 0.0 && table[j].proteins >= 0.0
  }

  /** A table of non-negative values gives non-negative totals. */
  lemma {:induction false} TotalsNonNegative(table: seq<NutritionRecord>, items: seq<string>)
    requires NonNegativeTable(table)
    ensures var n := MealNutrition(table, items);
            n.calories >= 0.0 && n.protein >= 0.0 && n.carbs >= 0.0 && n.fats >= 0.0
    decreases |items|
  {
    if items != [] {
      TotalsNonNegative(table, items[..|items| - 1]);
    }
  }

  /** The stored `items` column: the labels joined by ", " in detection order. */
  function ItemsColumn(items: seq<string>): string
  {
    Join(items, ", ")
  }

  /** The `items` column keeps every label, in order and with repetitions: splitting
      it on ", " gives the detection list back when no label contains ", ". */
  lemma ItemsColumnRoundTrip(items: seq<string>)
    requires items != []
    requires forall i :: 0 <= i < |items| ==> !Contains(items[i], ", ")
    ensures Split(ItemsColumn(items), ", ") == items
  {
    SeparatorsAreUnbordered();
    SplitJoin(items, ", ");
  }

  /** "veg briyani" from the table: 130 calories, 2.53 g fat, 23.33 g carbs, 3.16 g protein. */
  lemma VegBriyaniMeal()
    ensures MealNutrition(SampleTable, ["veg briyani"]) == Nutrition(130.0, 3.16, 23.33, 2.53)
  {
    assert Lower("veg briyani") == "veg briyani";
    assert Key(SampleTable[0]) != "veg briyani" by { assert Key(SampleTable[0])[0] == 'a'; }
    assert Key(SampleTable[1]) != "veg briyani" by { assert Key(SampleTable[1])[0] == 'd'; }
    assert Key(SampleTable[2]) == "veg briyani";
    assert FirstMatch(SampleTable, "veg briyani") == Some(2);
    assert ["veg briyani"][..0] == [];
  }

  /** An unknown dish costs 100 calories and nothing else. */
  lemma UnknownDishMeal()
    ensures MealNutrition(SampleTable, ["unknown_dish"]) == DefaultEstimate
  {
    assert forall j :: 0 <= j < |SampleTable| ==> Key(SampleTable[j])[0] != 'u';
    assert Lower("unknown_dish")[0] == 'u';
    assert FirstMatch(SampleTable, "unknown_dish").None?;
    assert ["unknown_dish"][..0] == [];
  }
}
