/**
  The single-image request of app1.py: the predicted class index picks one of
  101 labels, the label is made readable by turning underscores into spaces,
  and the readable label is looked up with the nutrition reduction.
 */
module App {
  import opened Nutrition

  /**
    `get_nutrition(food_name)` of app1.py, with the HTTP call replaced by the
    response it returns. The body is indexed as `data["foods"]`, so a success
    response must carry a `foods` list.
   */
  method GetNutrition(foodName: string, response: Response) returns (info: Outcome)
    requires response.statusCode == HTTP_OK ==> response.foods.Some?
    ensures info == Resolve(foodName, response)
    ensures response.statusCode != HTTP_OK ==> info == Error(FETCH_ERROR)
    ensures response.statusCode == HTTP_OK && |response.foods.value| == 0 ==> info == Error(NOT_FOUND)
    ensures info.Found? ==> info.summary.name == foodName
  {
    if response.statusCode != HTTP_OK {
      return Error(FETCH_ERROR);
    }
    var foods := response.foods.value;
    if |foods| == 0 {
      return Error(NOT_FOUND);
    }
    var firstFood := foods[0];
    var nutrients := NutrientsOf(firstFood);
    var protein, calcium, fat, carbs, vitaminA, vitaminC := ScanNutrients(nutrients);
    var vitamins := vitaminA + vitaminC;
    info := Found(Summary(foodName, protein, calcium, fat, carbs, vitamins / MG_PER_G));
  }

  /** The classifier's 101 classes, in the order of its output scores. */
  const ClassLabels: seq<string> := [
    "apple_pie", "baby_back_ribs", "baklava", "beef_carpaccio", "beef_tartare", "beet_salad",
    "beignets", "bibimbap", "bread_pudding", "breakfast_burrito", "bruschetta", "caesar_salad",
    "cannoli", "caprese_salad", "carrot_cake", "ceviche", "cheese_plate", "cheesecake",
    "chicken_curry", "chicken_quesadilla", "chicken_wings", "chocolate_cake", "chocolate_mousse",
    "churros", "clam_chowder", "club_sandwich", "crab_cakes", "creme_brulee", "croque_madame",
    "cup_cakes", "deviled_eggs", "donuts", "dumplings", "edamame", "eggs_benedict", "escargots",
    "falafel", "filet_mignon", "fish_and_chips", "foie_gras", "french_fries", "french_onion_soup",
    "french_toast", "fried_calamari", "fried_rice", "frozen_yogurt", "garlic_bread", "gnocchi",
    "greek_salad", "grilled_cheese_sandwich", "grilled_salmon", "guacamole", "gyoza", "hamburger",
    "hot_and_sour_soup", "hot_dog", "huevos_rancheros", "hummus", "ice_cream", "lasagna",
    "lobster_bisque", "lobster_roll_sandwich", "macaroni_and_cheese", "macarons", "miso_soup",
    "mussels", "nachos", "omelette", "onion_rings", "oysters", "pad_thai", "paella", "pancakes",
    "panna_cotta", "peking_duck", "pho", "pizza", "pork_chop", "poutine", "prime_rib",
    "pulled_pork_sandwich", "ramen", "ravioli", "red_velvet_cake", "risotto", "samosa",
    "sashimi", "scallops", "seaweed_salad", "shrimp_and_grits", "spaghetti_bolognese",
    "spaghetti_carbonara", "spring_rolls", "steak", "strawberry_shortcake", "sushi", "tacos",
    "takoyaki", "tiramisu", "tuna_tartare", "waffles"
  ]

  /** `label.replace('_', ' ')`: every underscore becomes a space, every other character stays. */
  function FormatLabel(raw: string): (formatted: string)
    ensures |formatted| == |raw|
    ensures '_' !in formatted
    ensures forall i :: 0 <= i < |raw| && raw[i] != '_' ==> formatted[i] == raw[i]
    ensures forall i :: 0 <= i < |raw| && raw[i] == '_' ==> formatted[i] == ' '
  {
    if |raw| == 0 then ""
    else [if raw[0] == '_' then ' ' else raw[0]] + FormatLabel(raw[1..])
  }

  /** Formatting loses nothing on labels without spaces: two such labels format alike only if equal. */
  lemma {:induction false} FormatLabelInjective(a: string, b: string)
    requires ' ' !in a && ' ' !in b
    requires FormatLabel(a) == FormatLabel(b)
    ensures a == b
  {
  }

  /** Formatting a formatted label changes nothing. */
  lemma {:induction false} FormatLabelIdempotent(raw: string)
    ensures FormatLabel(FormatLabel(raw)) == FormatLabel(raw)
  {
  }

  /**
    Lines 107-111 of app1.py: the predicted index selects a label, the label is
    formatted and the formatted label is the query of the nutrition lookup.
   */
  method ClassifyAndLookUp(predictedIdx: int, response: Response) returns (query: string, info: Outcome)
    requires 0 <= predictedIdx < |ClassLabels|
    requires response.statusCode == HTTP_OK ==> response.foods.Some?
    ensures query == FormatLabel(ClassLabels[predictedIdx])
    ensures |query| == |ClassLabels[predictedIdx]| && '_' !in query
    ensures info == Resolve(query, response)
    ensures info.Found? ==> info.summary.name == query
  {
    var predictedLabel := ClassLabels[predictedIdx];
    query := FormatLabel(predictedLabel);
    info := GetNutrition(query, response);
  }

  /** Every index the classifier's 101 scores can yield selects a label. */
  lemma {:induction false} EveryClassHasLabel()
    ensures |ClassLabels| == 101
  {
  }

  /** Class 76 is "pizza", which formatting leaves as it is. */
  lemma {:induction false} PizzaLabel()
    ensures FormatLabel(ClassLabels[76]) == "pizza"
  {
  }

  /**
    The end-to-end case for "pizza": a candidate with one entry per recognised
    number gives protein 20, calcium 0.4, fat 10, carbohydrates 33 and vitamins 0.02.
   */
  lemma {:induction false} PizzaSummary()
    ensures Resolve("pizza", Response(HTTP_OK, Some([Food(Some([
              NutrientEntry("203", 20.0), NutrientEntry("301", 400.0), NutrientEntry("204", 10.0),
              NutrientEntry("205", 33.0), NutrientEntry("318", 2.0), NutrientEntry("401", 18.0)]))])))
            == Found(Summary("pizza", 20.0, 0.4, 10.0, 33.0, 0.02))
  {
    var items := [
      NutrientEntry("203", 20.0), NutrientEntry("301", 400.0), NutrientEntry("204", 10.0),
      NutrientEntry("205", 33.0), NutrientEntry("318", 2.0), NutrientEntry("401", 18.0)];
    SummaryOfDistinctCodes("pizza", items, 0, 1, 2, 3, 4, 5);
  }
}
