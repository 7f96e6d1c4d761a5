/**
  The batch lookup of get_nutrition_data.py: every food name is looked up in
  turn; a name whose request fails or finds nothing is skipped, and every other
  name appends one summary row to the table.
 */
module NutritionData {
  import opened Nutrition

  /** The outcome of each name's lookup; `responses[i]` is what the request for `names[i]` returned. */
  function Outcomes(names: seq<string>, responses: seq<Response>): seq<Outcome>
    requires |names| == |responses|
  {
    seq(|names|, i requires 0 <= i < |names| => Resolve(names[i], responses[i]))
  }

  /** The rows a run of outcomes leaves in the table: the summaries of the successes, in order. */
  function Rows(outcomes: seq<Outcome>): seq<Summary>
    decreases |outcomes|
  {
    if |outcomes| == 0 then []
    else
      var n := |outcomes| - 1;
      Rows(outcomes[..n]) + if outcomes[n].Found? then [outcomes[n].summary] else []
  }

  /** The table the batch lookup returns. */
  function Table(names: seq<string>, responses: seq<Response>): seq<Summary>
    requires |names| == |responses|
  {
    Rows(Outcomes(names, responses))
  }

  /** The positions of the successes, in order. */
  function Succeeded(outcomes: seq<Outcome>): seq<nat>
    decreases |outcomes|
  {
    if |outcomes| == 0 then []
    else
      var n := |outcomes| - 1;
      Succeeded(outcomes[..n]) + if outcomes[n].Found? then [n] else []
  }

  /**
    `get_nutrition(food_names)` of get_nutrition_data.py, with each HTTP call
    replaced by the response it returns. A missing `foods` list reads as empty.
   */
  method GetNutrition(names: seq<string>, responses: seq<Response>) returns (table: seq<Summary>)
    requires |names| == |responses|
    ensures table == Table(names, responses)
    ensures |table| <= |names|
    ensures names == [] ==> table == []
  {
    ghost var outcomes := Outcomes(names, responses);
    table := [];
    for i := 0 to |names|
      invariant table == Rows(outcomes[..i])
    {
      assert outcomes[..i + 1][..i] == outcomes[..i];
      var name, response := names[i], responses[i];
      if response.statusCode != HTTP_OK {
        continue;
      }
      var foods := match response.foods case Some(fs) => fs case None => [];
      if |foods| == 0 {
        continue;
      }
      var firstFood := foods[0];
      var nutrients := NutrientsOf(firstFood);
      var protein, calcium, fat, carbs, vitaminA, vitaminC := ScanNutrients(nutrients);
      var vitamins := vitaminA + vitaminC;
      table := table + [Summary(name, protein, calcium, fat, carbs, vitamins / MG_PER_G)];
    }
    assert outcomes[..|names|] == outcomes;
    RowsLength(outcomes);
  }

  /** At most one row per outcome. */
  lemma {:induction false} RowsLength(outcomes: seq<Outcome>)
    ensures |Rows(outcomes)| <= |outcomes|
    decreases |outcomes|
  {
    if |outcomes| > 0 {
      RowsLength(outcomes[..|outcomes| - 1]);
    }
  }

  /** The rows of a concatenation are the rows of its parts, one after the other. */
  lemma {:induction false} RowsConcat(first: seq<Outcome>, second: seq<Outcome>)
    ensures Rows(first + second) == Rows(first) + Rows(second)
    decreases |second|
  {
    if |second| == 0 {
      assert first + second == first;
    } else {
      var n := |second| - 1;
      assert (first + second)[..|first| + n] == first + second[..n];
      RowsConcat(first, second[..n]);
    }
  }

  /** The outcomes of a concatenated batch are the outcomes of its parts. */
  lemma {:induction false} OutcomesConcat(names1: seq<string>, responses1: seq<Response>,
      names2: seq<string>, responses2: seq<Response>)
    requires |names1| == |responses1| && |names2| == |responses2|
    ensures Outcomes(names1 + names2, responses1 + responses2) ==
            Outcomes(names1, responses1) + Outcomes(names2, responses2)
  {
  }

  /** The table never has more rows than there are names. */
  lemma {:induction false} TableLength(names: seq<string>, responses: seq<Response>)
    requires |names| == |responses|
    ensures |Table(names, responses)| <= |names|
  {
    RowsLength(Outcomes(names, responses));
  }

  /**
    Each batch of names is processed on its own: the rows of a later batch do
    not depend on what came before, so no accumulator state leaks across names.
   */
  lemma {:induction false} TableConcat(names1: seq<string>, responses1: seq<Response>,
      names2: seq<string>, responses2: seq<Response>)
    requires |names1| == |responses1| && |names2| == |responses2|
    ensures Table(names1 + names2, responses1 + responses2) ==
            Table(names1, responses1) + Table(names2, responses2)
  {
    OutcomesConcat(names1, responses1, names2, responses2);
    RowsConcat(Outcomes(names1, responses1), Outcomes(names2, responses2));
  }

  /** A single name whose lookup fails gives an empty table. */
  lemma {:induction false} FailedNameAlone(name: string, response: Response)
    requires Resolve(name, response).Error?
    ensures Table([name], [response]) == []
  {
    var single := Outcomes([name], [response]);
    assert single == [Resolve(name, response)];
    assert single[..0] == [];
    assert Rows(single) == Rows(single[..0]);
  }

  /** A name whose lookup fails contributes no row, and the names after it are still processed. */
  lemma {:induction false} FailedNameSkipped(before: seq<string>, name: string, after: seq<string>,
      responsesBefore: seq<Response>, response: Response, responsesAfter: seq<Response>)
    requires |before| == |responsesBefore| && |after| == |responsesAfter|
    requires Resolve(name, response).Error?
    ensures Table(before + [name] + after, responsesBefore + [response] + responsesAfter) ==
            Table(before + after, responsesBefore + responsesAfter)
  {
    var withName, withResponse := before + [name], responsesBefore + [response];
    TableConcat(withName, withResponse, after, responsesAfter);
    TableConcat(before, responsesBefore, [name], [response]);
    FailedNameAlone(name, response);
    TableConcat(before, responsesBefore, after, responsesAfter);
  }

  /** Every recorded position is a success of the run. */
  lemma {:induction false} SucceededAreSuccesses(outcomes: seq<Outcome>)
    ensures forall k :: 0 <= k < |Succeeded(outcomes)| ==>
      Succeeded(outcomes)[k] < |outcomes| && outcomes[Succeeded(outcomes)[k]].Found?
    decreases |outcomes|
  {
    if |outcomes| > 0 {
      var n := |outcomes| - 1;
      SucceededAreSuccesses(outcomes[..n]);
    }
  }

  /**
    The rows are exactly the summaries of the successes: one per success, in
    the order of the run, and no success is left without its row.
   */
  lemma {:induction false} RowsAreSuccesses(outcomes: seq<Outcome>)
    ensures |Succeeded(outcomes)| == |Rows(outcomes)|
    ensures forall k :: 0 <= k < |Rows(outcomes)| ==>
      Succeeded(outcomes)[k] < |outcomes| && outcomes[Succeeded(outcomes)[k]] == Found(Rows(outcomes)[k])
    ensures forall k, l :: 0 <= k < l < |Succeeded(outcomes)| ==> Succeeded(outcomes)[k] < Succeeded(outcomes)[l]
    ensures forall i :: 0 <= i < |outcomes| && outcomes[i].Found? ==> i in Succeeded(outcomes)
    decreases |outcomes|
  {
    if |outcomes| > 0 {
      var n := |outcomes| - 1;
      var prefix := outcomes[..n];
      RowsAreSuccesses(prefix);
      SucceededAreSuccesses(prefix);
      var idx, rows := Succeeded(outcomes), Rows(outcomes);
      assert forall k :: 0 <= k < |Succeeded(prefix)| ==> idx[k] == Succeeded(prefix)[k];
      assert forall k :: 0 <= k < |Rows(prefix)| ==> rows[k] == Rows(prefix)[k];
      assert forall i :: 0 <= i < n ==> outcomes[i] == prefix[i];
    }
  }

  /**
    The table holds exactly one row per name that succeeds, in input order;
    each row is the summary of that name's own response and carries that name.
   */
  lemma {:induction false} TableRows(names: seq<string>, responses: seq<Response>)
    requires |names| == |responses|
    ensures var idx, table := Succeeded(Outcomes(names, responses)), Table(names, responses);
      && |idx| == |table|
      && (forall k :: 0 <= k < |table| ==>
            idx[k] < |names| && Resolve(names[idx[k]], responses[idx[k]]) == Found(table[k]) &&
            table[k].name == names[idx[k]])
      && (forall k, l :: 0 <= k < l < |idx| ==> idx[k] < idx[l])
      && (forall i :: 0 <= i < |names| && Resolve(names[i], responses[i]).Found? ==> i in idx)
  {
    RowsAreSuccesses(Outcomes(names, responses));
  }

  /** When every name succeeds, row i is the summary of name i, under that name. */
  lemma {:induction false} AllNamesFound(names: seq<string>, responses: seq<Response>)
    requires |names| == |responses|
    requires forall i :: 0 <= i < |names| ==> Resolve(names[i], responses[i]).Found?
    ensures |Table(names, responses)| == |names|
    ensures forall i :: 0 <= i < |names| ==>
      Found(Table(names, responses)[i]) == Resolve(names[i], responses[i]) &&
      Table(names, responses)[i].name == names[i]
    decreases |names|
  {
    if |names| > 0 {
      var n := |names| - 1;
      var pn, pr := names[..n], responses[..n];
      assert forall i :: 0 <= i < n ==> pn[i] == names[i] && pr[i] == responses[i];
      AllNamesFound(pn, pr);
      assert Outcomes(names, responses)[..n] == Outcomes(pn, pr);
    }
  }
}
