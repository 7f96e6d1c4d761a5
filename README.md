# Food classification with nutrition lookup: a Dafny model

The application classifies a food photo into one of 101 classes. It turns the
class label into a readable query by replacing underscores with spaces. It then
reduces a USDA FoodData Central `foods/search` response for that query to a
six-field nutrition summary: name, protein, calcium, fat, carbohydrates and
vitamins. A second script runs the same reduction over a list of food names
and collects one summary row per name that succeeds.

This project models that reduction and both of its callers:

- `nutrition.dfy`, module `Nutrition`: the response and summary types. It holds
  the specification of the reduction (`Resolve`, `Summarize`, `Captured`,
  `LastMatch`) and `ScanNutrients`, the scanning loop both lookups run. Beside
  them are the lemmas about the reduction: last match wins, absent codes read
  as 0, unrecognised codes change nothing, only the first candidate is read,
  and the unit conversions.
- `app.dfy`, module `App` (app1.py): the single lookup `GetNutrition`, proved
  equal to `Resolve`, with its two error messages. It also holds the 101-label
  table, `FormatLabel` (`replace('_', ' ')`) and the request pipeline from
  predicted index to nutrition outcome.
- `nutrition_data.dfy`, module `NutritionData` (get_nutrition_data.py): the
  batch loop `GetNutrition`, proved equal to the table specification `Table`.
  `Table` collects the summaries of the successful outcomes (`Outcomes`,
  `Rows`). Lemmas say which rows the table holds, in which order, and that
  failed names are skipped.

The HTTP request is an input. `Response` carries a status code and an optional
`foods` list. Each `Food` carries an optional `foodNutrients` list of
`(nutrientNumber, value)` entries. Nutrient values are `real`, so the divisions
by 1000 are exact. In the batch lookup, `responses[i]` is what the request for
`names[i]` returned.

The two scripts run the same scan, so the model states it once
(`Nutrition.ScanNutrients`) and both `GetNutrition` methods call it. Both
scripts reset all six accumulators for every lookup (app1.py:41,
get_nutrition_data.py:26), and the model does the same. A body without the
expected keys has no error path: `data["foods"]` (app1.py:32) and
`item['nutrientNumber']` (app1.py:44) raise; see below.

## Model

| member | source | states |
|---|---|---|
| Nutrition.Resolve | app1.py:24-65 | Success exactly when the status is 200 and `foods` is present and non-empty. A failure carries "Error fetching data" for a bad status, otherwise "No data found". A summary's name is the queried name. |
| Nutrition.ScanNutrients | app1.py:41-55 | After one pass over the list, each accumulator holds the last value with its code, or 0 if there is none. Calcium is divided by 1000. |
| Nutrition.LastMatchNone | app1.py:43-55 | No value is captured for a code exactly when no entry carries that code. |
| Nutrition.LastMatchIsLast | app1.py:43-55 | A captured value belongs to an entry with that code, and no later entry has the same code. |
| Nutrition.LastMatchAt | app1.py:43-55 | Conversely, the last entry with a code supplies that code's captured value. |
| Nutrition.LastMatchSkips | app1.py:43-55 | An entry with another code can be removed from any position without changing the captured value. |
| Nutrition.AbsentCodeIsZero | app1.py:41 | A code that no entry carries reads as 0. |
| Nutrition.ExactlyOnce | app1.py:43-55 | A code carried by exactly one entry reads as that entry's raw value. |
| Nutrition.LastEntryWins | app1.py:43-55 | An appended entry sets its own code's value and leaves every other code unchanged. |
| Nutrition.UnrecognisedEntryIgnored | app1.py:43-55 | An entry whose number is not one of the six changes no field of the summary, wherever it stands in the list. |
| Nutrition.SummaryOfDistinctCodes | app1.py:57-65 | If each of the six codes occurs exactly once: protein, fat and carbohydrates are their raw values, calcium is raw/1000, and vitamins are (A + C)/1000. |
| Nutrition.OnlyFirstCandidate | app1.py:37-38 | Candidates after the first never change the outcome. |
| Nutrition.MissingNutrientsGiveZeros | app1.py:38-41 | If the first candidate has no `foodNutrients`, the result is a summary with all five numbers 0. |
| Nutrition.CalciumInGrams | app1.py:46-47 | Raw calcium 1200 gives calcium 1.2. |
| Nutrition.VitaminsInGrams | app1.py:52-64 | Vitamin A 500 and vitamin C 300 give vitamins 0.8. |
| App.GetNutrition | app1.py:24-65 | The single lookup equals `Resolve`. A status other than 200 gives exactly "Error fetching data". An empty `foods` list gives exactly "No data found". A summary carries the queried name. |
| App.FormatLabel | app1.py:110 | The output has the label's length and contains no `_`. Each `_` becomes a space; every other character is unchanged. |
| App.FormatLabelInjective | app1.py:110 | Two labels without spaces that format alike are equal. |
| App.FormatLabelIdempotent | app1.py:110 | Formatting an already formatted label changes nothing. |
| App.ClassifyAndLookUp | app1.py:107-111 | An index in [0, 101) selects a label. The query is that label formatted, it has no `_`, and the outcome is the lookup of exactly that query. |
| App.EveryClassHasLabel | app1.py:86-105 | The label table has 101 entries, one per class the model scores. |
| App.PizzaLabel | app1.py:101-110 | Class 76 is "pizza", and formatting leaves it unchanged. |
| App.PizzaSummary | app1.py:43-65 | A "pizza" candidate with one entry per recognised number gives protein 20, calcium 0.4, fat 10, carbohydrates 33 and vitamins 0.02. |
| NutritionData.GetNutrition | get_nutrition_data.py:4-54 | The batch loop returns `Table(names, responses)`: the summaries of the names that succeed, in order. It has at most one row per name. An empty name list gives an empty table. |
| NutritionData.RowsLength | get_nutrition_data.py:7-52 | A run of lookups adds at most one row per name. |
| NutritionData.TableLength | get_nutrition_data.py:7-52 | The table never has more rows than there are names. |
| NutritionData.RowsConcat | get_nutrition_data.py:7-52 | The rows of two consecutive runs of lookups are the rows of the first run followed by those of the second. |
| NutritionData.TableConcat | get_nutrition_data.py:26 | The table for a concatenated batch is the table for the first part followed by the table for the second. Earlier names never affect later rows. |
| NutritionData.FailedNameAlone | get_nutrition_data.py:11-20 | A single name whose lookup fails gives an empty table. |
| NutritionData.FailedNameSkipped | get_nutrition_data.py:11-20 | A name whose status is not 200, or whose `foods` list is missing or empty, adds no row. The remaining names are processed as if it were absent. |
| NutritionData.RowsAreSuccesses | get_nutrition_data.py:45-52 | The rows are the summaries of the successful lookups: one per success, in input order, with none missing. |
| NutritionData.TableRows | get_nutrition_data.py:45-52 | There is one row per name that succeeds, in input order. Each row is the summary of that name's own response. Every name that succeeds has a row. |
| NutritionData.AllNamesFound | get_nutrition_data.py:45-52 | When every name succeeds, row i is name i's summary and carries name i. |

## Left out

- The HTTP request, its URL and the embedded API key (app1.py:25-26, get_nutrition_data.py:8-9): the response is an input.
- `pd.json_normalize` and `iloc`: candidates are a sequence, and the first one is `foods[0]`.
- The pandas NaN case: a first candidate without `foodNutrients` when a later candidate has that list. pandas then yields NaN and the scan loop raises. The model treats every missing list as empty, so `Nutrition.MissingNutrientsGiveZeros` and `Nutrition.OnlyFirstCandidate` also cover inputs on which the source raises.
- App.FormatLabelInjective: distinctness of the 101 formatted queries is not proved over the label table itself; the lemma reduces it to the table's labels being distinct and space-free, which holds of app1.py:86-105 but is not checked here.
- A candidate list whose records have no keys at all. pandas would report it as empty; the model assumes every candidate carries fields.
- `data["foods"]` on a body without `foods` (app1.py:32): it raises, so `App.GetNutrition` requires `foods` on a success response. The batch lookup uses `data.get("foods", [])` and treats a missing list as empty; the model does the same.
- An entry without `nutrientNumber` or `value` raises. The entry type always has both.
- IEEE floating-point rounding: values are `real`, and the `float()` casts at get_nutrition_data.py:42 are the identity.
- `DataFrame.append` as a library call: the table is a sequence of `Summary` records, extended by one row per append.
- The `print` diagnostics of the batch lookup (get_nutrition_data.py:12, get_nutrition_data.py:19).
- The Keras model, image loading and normalisation, `model.predict` and `np.argmax` (app1.py:10-21, app1.py:82-83): the predicted index is an input.
- The Streamlit page, the upload's temporary file and its removal, and the display of results (app1.py:68-80, app1.py:113-127).
