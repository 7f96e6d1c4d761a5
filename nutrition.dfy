/**
  The nutrition-search response and its reduction to a six-field summary.

  Both nutrition lookups of the application (the single lookup in app1.py and
  the batch lookup in get_nutrition_data.py) run the same reduction over a
  FoodData Central `foods/search` response: check the status, take the first
  candidate food, scan its `foodNutrients` list once and keep the last value
  seen for each of six nutrient numbers. This module holds the response and
  summary types, the specification of that reduction, the scanning loop both
  lookups run, and the properties the reduction has.
 */
module Nutrition {

  datatype Option<+T> = None | Some(value: T)

  /** One element of a candidate's `foodNutrients` list. */
  datatype NutrientEntry = NutrientEntry(nutrientNumber: string, value: real)

  /** One candidate of the `foods` list; `foodNutrients` may be missing. */
  datatype Food = Food(foodNutrients: Option<seq<NutrientEntry>>)

  /** What the HTTP call yields: a status code and, in the JSON body, an optional `foods` list. */
  datatype Response = Response(statusCode: int, foods: Option<seq<Food>>)

  /** The normalized record both lookups produce. */
  datatype Summary = Summary(
    name: string,
    protein: real,
    calcium: real,
    fat: real,
    carbohydrates: real,
    vitamins: real)

  /** The single lookup's result: the summary, or a dictionary holding only an error message. */
  datatype Outcome = Found(summary: Summary) | Error(message: string)

  const HTTP_OK: int := 200
  const FETCH_ERROR: string := "Error fetching data"
  const NOT_FOUND: string := "No data found"

  // The nutrient numbers the scan recognises.
  const PROTEIN: string := "203"
  const CALCIUM: string := "301"
  const FAT: string := "204"
  const CARBOHYDRATES: string := "205"
  const VITAMIN_A: string := "318"
  const VITAMIN_C: string := "401"

  const RECOGNISED: set<string> := {PROTEIN, CALCIUM, FAT, CARBOHYDRATES, VITAMIN_A, VITAMIN_C}

  /** Milligrams per gram: calcium and the vitamin sum are divided by it. */
  const MG_PER_G: real := 1000.0

  /** The value of the last entry carrying `code`, if any entry does. */
  function LastMatch(items: seq<NutrientEntry>, code: string): Option<real>
    decreases |items|
  {
    if |items| == 0 then None
    else if items[|items| - 1].nutrientNumber == code then Some(items[|items| - 1].value)
    else LastMatch(items[..|items| - 1], code)
  }

  /** The raw value the scan ends with for `code`: the last match, or 0 when there is none. */
  function Captured(items: seq<NutrientEntry>, code: string): real
  {
    match LastMatch(items, code)
    case Some(v) => v
    case None => 0.0
  }

  /** `first_food.get('foodNutrients', [])`: a missing list reads as empty. */
  function NutrientsOf(food: Food): seq<NutrientEntry>
  {
    match food.foodNutrients
    case Some(items) => items
    case None => []
  }

  /** The summary built from a nutrient list, with the two milligram-to-gram conversions. */
  function Summarize(name: string, items: seq<NutrientEntry>): Summary
  {
    Summary(
      name,
      Captured(items, PROTEIN),
      Captured(items, CALCIUM) / MG_PER_G,
      Captured(items, FAT),
      Captured(items, CARBOHYDRATES),
      (Captured(items, VITAMIN_A) + Captured(items, VITAMIN_C)) / MG_PER_G)
  }

  /**
    The reduction of one response: a bad status is a fetch error; a missing or
    empty `foods` list finds nothing; otherwise the first candidate is summarized.
   */
  function Resolve(name: string, response: Response): (r: Outcome)
    ensures r.Found? <==>
      response.statusCode == HTTP_OK && response.foods.Some? && |response.foods.value| > 0
    ensures r.Error? ==> r.message == (if response.statusCode != HTTP_OK then FETCH_ERROR else NOT_FOUND)
    ensures r.Found? ==> r.summary.name == name
  {
    if response.statusCode != HTTP_OK then Error(FETCH_ERROR)
    else
      match response.foods
      case None => Error(NOT_FOUND)
      case Some(foods) =>
        if |foods| == 0 then Error(NOT_FOUND) else Found(Summarize(name, NutrientsOf(foods[0])))
  }

  /**
    The scan over the first candidate's nutrient list: six accumulators start
    at 0 and each entry with a recognised number overwrites its accumulator
    (calcium already divided by 1000).
   */
  method ScanNutrients(items: seq<NutrientEntry>)
    returns (protein: real, calcium: real, fat: real, carbs: real, vitaminA: real, vitaminC: real)
    ensures protein == Captured(items, PROTEIN)
    ensures calcium == Captured(items, CALCIUM) / MG_PER_G
    ensures fat == Captured(items, FAT)
    ensures carbs == Captured(items, CARBOHYDRATES)
    ensures vitaminA == Captured(items, VITAMIN_A)
    ensures vitaminC == Captured(items, VITAMIN_C)
  {
    protein, calcium, fat, carbs, vitaminA, vitaminC := 0.0, 0.0, 0.0, 0.0, 0.0, 0.0;
    for i := 0 to |items|
      invariant protein == Captured(items[..i], PROTEIN)
      invariant calcium == Captured(items[..i], CALCIUM) / MG_PER_G
      invariant fat == Captured(items[..i], FAT)
      invariant carbs == Captured(items[..i], CARBOHYDRATES)
      invariant vitaminA == Captured(items[..i], VITAMIN_A)
      invariant vitaminC == Captured(items[..i], VITAMIN_C)
    {
      var item := items[i];
      assert items[..i + 1][..i] == items[..i];
      if item.nutrientNumber == PROTEIN {
        protein := item.value;
      } else if item.nutrientNumber == CALCIUM {
        calcium := item.value / MG_PER_G;
      } else if item.nutrientNumber == FAT {
        fat := item.value;
      } else if item.nutrientNumber == CARBOHYDRATES {
        carbs := item.value;
      } else if item.nutrientNumber == VITAMIN_A {
        vitaminA := item.value;
      } else if item.nutrientNumber == VITAMIN_C {
        vitaminC := item.value;
      }
    }
    assert items[..|items|] == items;
  }

  // ---------------------------------------------------------------------------
  // LastMatch against its declarative reading: "the value of the entry with
  // this code that no later entry with this code follows".

  /** No match exactly when no entry carries the code. */
  lemma {:induction false} LastMatchNone(items: seq<NutrientEntry>, code: string)
    ensures LastMatch(items, code).None? <==>
      forall k :: 0 <= k < |items| ==> items[k].nutrientNumber != code
    decreases |items|
  {
    if |items| > 0 {
      var prefix := items[..|items| - 1];
      LastMatchNone(prefix, code);
      assert forall k :: 0 <= k < |prefix| ==> prefix[k] == items[k];
    }
  }

  /** A match is the value of an entry with the code that no later entry with the code follows. */
  lemma {:induction false} LastMatchIsLast(items: seq<NutrientEntry>, code: string)
    requires LastMatch(items, code).Some?
    ensures exists k ::
              && 0 <= k < |items| && items[k].nutrientNumber == code
              && items[k].value == LastMatch(items, code).value
              && forall j :: k < j < |items| ==> items[j].nutrientNumber != code
    decreases |items|
  {
    var n := |items|;
    if items[n - 1].nutrientNumber == code {
      assert items[n - 1].value == LastMatch(items, code).value;
    } else {
      var prefix := items[..n - 1];
      LastMatchIsLast(prefix, code);
      var k :| 0 <= k < |prefix| && prefix[k].nutrientNumber == code &&
        prefix[k].value == LastMatch(prefix, code).value &&
        forall j :: k < j < |prefix| ==> prefix[j].nutrientNumber != code;
      assert items[k] == prefix[k];
      assert forall j :: k < j < n - 1 ==> items[j] == prefix[j];
    }
  }

  /** Conversely, the entry with the code that no later entry with the code follows is the match. */
  lemma {:induction false} LastMatchAt(items: seq<NutrientEntry>, code: string, k: int)
    requires 0 <= k < |items| && items[k].nutrientNumber == code
    requires forall j :: k < j < |items| ==> items[j].nutrientNumber != code
    ensures LastMatch(items, code) == Some(items[k].value)
    decreases |items|
  {
    var n := |items|;
    if k < n - 1 {
      var prefix := items[..n - 1];
      assert prefix[k] == items[k];
      assert forall j :: k < j < |prefix| ==> prefix[j] == items[j];
      LastMatchAt(prefix, code, k);
    }
  }

  /** An entry with another code can be dropped from anywhere in the list without changing the match. */
  lemma {:induction false} LastMatchSkips(before: seq<NutrientEntry>, entry: NutrientEntry, after: seq<NutrientEntry>, code: string)
    requires entry.nutrientNumber != code
    ensures LastMatch(before + [entry] + after, code) == LastMatch(before + after, code)
    decreases |after|
  {
    var withIt, without := before + [entry] + after, before + after;
    if |after| == 0 {
      assert withIt[..|withIt| - 1] == before;
      assert without == before;
    } else {
      var last := after[|after| - 1];
      var shorter := after[..|after| - 1];
      assert withIt[..|withIt| - 1] == before + [entry] + shorter;
      assert without[..|without| - 1] == before + shorter;
      LastMatchSkips(before, entry, shorter, code);
    }
  }

  // ---------------------------------------------------------------------------
  // The extraction rules for the six fields.

  /** A code that no entry carries reads as 0. */
  lemma {:induction false} AbsentCodeIsZero(items: seq<NutrientEntry>, code: string)
    requires forall k :: 0 <= k < |items| ==> items[k].nutrientNumber != code
    ensures Captured(items, code) == 0.0
  {
    LastMatchNone(items, code);
  }

  /** A code carried by exactly one entry reads as that entry's raw value. */
  lemma {:induction false} ExactlyOnce(items: seq<NutrientEntry>, code: string, k: int)
    requires 0 <= k < |items| && items[k].nutrientNumber == code
    requires forall j :: 0 <= j < |items| && j != k ==> items[j].nutrientNumber != code
    ensures Captured(items, code) == items[k].value
  {
    LastMatchAt(items, code, k);
  }

  /** Last write wins: an appended entry decides its own code and leaves every other code alone. */
  lemma {:induction false} LastEntryWins(items: seq<NutrientEntry>, entry: NutrientEntry, code: string)
    ensures Captured(items + [entry], code) ==
      if entry.nutrientNumber == code then entry.value else Captured(items, code)
  {
  }

  /** An entry whose number is not one of the six changes no field of the summary, wherever it stands. */
  lemma {:induction false} UnrecognisedEntryIgnored(name: string, before: seq<NutrientEntry>, entry: NutrientEntry, after: seq<NutrientEntry>)
    requires entry.nutrientNumber !in RECOGNISED
    ensures Summarize(name, before + [entry] + after) == Summarize(name, before + after)
  {
    forall code | code in RECOGNISED
      ensures LastMatch(before + [entry] + after, code) == LastMatch(before + after, code)
    {
      LastMatchSkips(before, entry, after, code);
    }
  }

  /**
    With every code appearing exactly once, each field is the raw value with
    only calcium and the vitamin sum converted from milligrams.
   */
  lemma {:induction false} SummaryOfDistinctCodes(name: string, items: seq<NutrientEntry>,
      p: int, ca: int, f: int, c: int, a: int, v: int)
    requires 0 <= p < |items| && 0 <= ca < |items| && 0 <= f < |items|
    requires 0 <= c < |items| && 0 <= a < |items| && 0 <= v < |items|
    requires forall j :: 0 <= j < |items| ==>
      (items[j].nutrientNumber == PROTEIN <==> j == p) &&
      (items[j].nutrientNumber == CALCIUM <==> j == ca) &&
      (items[j].nutrientNumber == FAT <==> j == f) &&
      (items[j].nutrientNumber == CARBOHYDRATES <==> j == c) &&
      (items[j].nutrientNumber == VITAMIN_A <==> j == a) &&
      (items[j].nutrientNumber == VITAMIN_C <==> j == v)
    ensures Summarize(name, items) == Summary(
      name, items[p].value, items[ca].value / 1000.0, items[f].value, items[c].value,
      (items[a].value + items[v].value) / 1000.0)
  {
    ExactlyOnce(items, PROTEIN, p);
    ExactlyOnce(items, CALCIUM, ca);
    ExactlyOnce(items, FAT, f);
    ExactlyOnce(items, CARBOHYDRATES, c);
    ExactlyOnce(items, VITAMIN_A, a);
    ExactlyOnce(items, VITAMIN_C, v);
  }

  // ---------------------------------------------------------------------------
  // The reduction of a whole response.

  /**
    Only the first candidate is read: the others never change the outcome.
    pandas differs when a later candidate has fields the first lacks (a
    missing `foodNutrients` then reads as NaN and the scan raises); the model
    reads every missing list as empty.
   */
  lemma {:induction false} OnlyFirstCandidate(name: string, status: int, first: Food, rest1: seq<Food>, rest2: seq<Food>)
    ensures Resolve(name, Response(status, Some([first] + rest1))) ==
            Resolve(name, Response(status, Some([first] + rest2)))
  {
  }

  /**
    A first candidate without a `foodNutrients` list gives a summary whose five
    numbers are all 0. In pandas this holds when no later candidate carries the
    list either; otherwise the first row's list is NaN and the scan raises.
   */
  lemma {:induction false} MissingNutrientsGiveZeros(name: string, first: Food, rest: seq<Food>)
    requires first.foodNutrients.None?
    ensures Resolve(name, Response(HTTP_OK, Some([first] + rest))) ==
            Found(Summary(name, 0.0, 0.0, 0.0, 0.0, 0.0))
  {
  }

  /** A raw calcium value of 1200 mg becomes 1.2 g. */
  lemma {:induction false} CalciumInGrams(name: string)
    ensures Summarize(name, [NutrientEntry(CALCIUM, 1200.0)]).calcium == 1.2
  {
  }

  /** Vitamin A 500 mg and vitamin C 300 mg make 0.8 g of vitamins. */
  lemma {:induction false} VitaminsInGrams(name: string)
    ensures Summarize(name, [NutrientEntry(VITAMIN_A, 500.0), NutrientEntry(VITAMIN_C, 300.0)]).vitamins == 0.8
  {
    var items := [NutrientEntry(VITAMIN_A, 500.0), NutrientEntry(VITAMIN_C, 300.0)];
    ExactlyOnce(items, VITAMIN_A, 0);
    ExactlyOnce(items, VITAMIN_C, 1);
  }
}
