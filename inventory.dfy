/**
 * The row-building part of `inventory_data_to_pandas` (rad.py:110-174):
 * the inventory reply's `results` are walked in order, malformed records
 * abort the whole call, hosts without facts are collected by name, and every
 * fact becomes one or more (ix, value, col) rows.
 *
 * The specification functions below recurse on the last element of a
 * sequence, so that each loop of the method reads as "the function applied
 * to what has been visited so far".
 */
module Inventory {
  import opened Wrappers
  import opened Json

  /** The `col` of a row: a fact key (or a nested dict's inner key), or a
      list-valued fact's key together with one of its items, which the source
      renders as the text "key|item". */
  datatype Column = Key(name: string) | KeyItem(key: string, item: Json)

  /** One `{"ix": ..., "value": ..., "col": ...}` row. */
  datatype Row = Row(ix: Json, value: Json, col: Column)

  /** The two lists the loop builds: `rows` and `lacks_data`. */
  datatype Flattened = Flattened(rows: seq<Row>, lacksData: seq<Json>)

  /** What one entry of `results` contributes: its name on `lacks_data`, or rows. */
  datatype Outcome = Lacking(name: Json) | Emitted(rows: seq<Row>)

  /** Python's `float(v)` for an int or a bool. */
  function AsFloat(v: Json): real
    requires v.JInt? || v.JBool?
  {
    if v.JInt? then v.i as real else if v.b then 1.0 else 0.0
  }

  /** How many rows a fact value yields. */
  function Width(v: Json): nat
  {
    match v
    case JList(items) => |items|
    case JObj(entries) => |entries|
    case _ => 1
  }

  /** Rows of a list-valued fact `k`: one per item, valued True, in item order. */
  function ListRows(name: Json, k: string, items: seq<Json>): (r: seq<Row>)
    ensures |r| == |items|
    ensures forall i :: 0 <= i < |items| ==> r[i] == Row(name, JBool(true), KeyItem(k, items[i]))
  {
    if items == [] then []
    else ListRows(name, k, items[..|items| - 1]) + [Row(name, JBool(true), KeyItem(k, items[|items| - 1]))]
  }

  /** Rows of a dict-valued fact: one per inner entry, under the inner key
      alone, holding the inner value unchanged. */
  function DictRows(name: Json, entries: seq<(string, Json)>): (r: seq<Row>)
    ensures |r| == |entries|
    ensures forall i :: 0 <= i < |entries| ==> r[i] == Row(name, entries[i].1, Key(entries[i].0))
  {
    if entries == [] then []
    else
      var (k, v) := entries[|entries| - 1];
      DictRows(name, entries[..|entries| - 1]) + [Row(name, v, Key(k))]
  }

  /** The rows one fact `k: v` of host `name` yields (rad.py:147-174). */
  function FactRows(name: Json, k: string, v: Json): (r: seq<Row>)
    ensures |r| == Width(v)
    ensures forall i :: 0 <= i < |r| ==> r[i].ix == name
    ensures (v.JInt? || v.JBool?) ==> r == [Row(name, JFloat(AsFloat(v)), Key(k))]
    ensures v.JStr? ==> r == [Row(name, v, Key(k))]
    ensures (v.JNull? || v.JFloat?) ==> r == [Row(name, JInt(-1), Key(k))]
    ensures v.JList? ==> forall i :: 0 <= i < |v.items| ==> r[i] == Row(name, JBool(true), KeyItem(k, v.items[i]))
    ensures v.JObj? ==> forall i :: 0 <= i < |v.entries| ==> r[i] == Row(name, v.entries[i].1, Key(v.entries[i].0))
  {
    match v
    case JInt(_) => [Row(name, JFloat(AsFloat(v)), Key(k))]
    case JBool(_) => [Row(name, JFloat(AsFloat(v)), Key(k))]
    case JList(items) => ListRows(name, k, items)
    case JStr(_) => [Row(name, v, Key(k))]
    case JObj(entries) => DictRows(name, entries)
    case _ => [Row(name, JInt(-1), Key(k))]
  }

  /** How many rows a sequence of facts yields. */
  function TotalWidth(facts: seq<(string, Json)>): nat
  {
    if facts == [] then 0 else TotalWidth(facts[..|facts| - 1]) + Width(facts[|facts| - 1].1)
  }

  /** The rows of all facts of one `facts` dict, fact after fact. */
  function EntriesRows(name: Json, facts: seq<(string, Json)>): (r: seq<Row>)
    ensures |r| == TotalWidth(facts)
    ensures forall i :: 0 <= i < |r| ==> r[i].ix == name
  {
    if facts == [] then []
    else
      var (k, v) := facts[|facts| - 1];
      EntriesRows(name, facts[..|facts| - 1]) + FactRows(name, k, v)
  }

  /** One element of a result's `facts` list (rad.py:138-145): it must be a
      dict holding a `facts` dict. */
  function ElementRows(name: Json, element: Json): (r: Result<seq<Row>, Error>)
    ensures r.Ok? <==> element.JObj? && Lookup(element.entries, "facts").Some?
                       && Lookup(element.entries, "facts").value.JObj?
    ensures !element.JObj? ==> r == Err(ElementNotDict)
    ensures element.JObj? && Lookup(element.entries, "facts").None? ==> r == Err(ElementWithoutFacts)
    ensures r.Ok? ==> r.value == EntriesRows(name, Lookup(element.entries, "facts").value.entries)
    ensures r.Ok? ==> forall i :: 0 <= i < |r.value| ==> r.value[i].ix == name
  {
    if !element.JObj? then Err(ElementNotDict)
    else
      match Lookup(element.entries, "facts")
      case None => Err(ElementWithoutFacts)
      case Some(facts) =>
        if facts.JObj? then Ok(EntriesRows(name, facts.entries)) else Err(TypeMismatch)
  }

  /** `rows` followed by the rows of one more element, or the error it raises. */
  function ElementStep(rows: seq<Row>, name: Json, element: Json): Result<seq<Row>, Error>
  {
    match ElementRows(name, element)
    case Err(e) => Err(e)
    case Ok(more) => Ok(rows + more)
  }

  /** The rows of all elements of a result's `facts` list; the first
      malformed element aborts. */
  function ElementsRows(name: Json, elements: seq<Json>): (r: Result<seq<Row>, Error>)
    ensures r.Ok? ==> forall i :: 0 <= i < |r.value| ==> r.value[i].ix == name
  {
    if elements == [] then Ok([])
    else
      match ElementsRows(name, elements[..|elements| - 1])
      case Err(e) => Err(e)
      case Ok(rows) => ElementStep(rows, name, elements[|elements| - 1])
  }

  /** What a result with `facts` value `data` and name `name` contributes
      (rad.py:129-174): an empty `facts` puts the name on `lacks_data`. */
  function DataOutcome(name: Json, data: Json): (r: Result<Outcome, Error>)
    ensures Iterate(data).None? ==> r == Err(TypeMismatch)
    ensures Iterate(data).Some? && |Iterate(data).value| == 0 ==> r == Ok(Lacking(name))
    ensures r.Ok? ==> Iterate(data).Some? && (r.value.Lacking? <==> |Iterate(data).value| == 0)
    ensures r.Ok? && r.value.Lacking? ==> r.value.name == name
    ensures r.Ok? && r.value.Emitted? ==> forall i :: 0 <= i < |r.value.rows| ==> r.value.rows[i].ix == name
  {
    match Iterate(data)
    case None => Err(TypeMismatch)
    case Some(elements) =>
      if |elements| == 0 then Ok(Lacking(name))
      else
        match ElementsRows(name, elements)
        case Err(e) => Err(e)
        case Ok(rows) => Ok(Emitted(rows))
  }

  /** What one entry of `results` contributes (rad.py:119-174): `facts` is
      checked before `account`, then `facts` and `display_name` are read. */
  function ResultOutcome(result: Json): (r: Result<Outcome, Error>)
    ensures !(result.JObj? || result.JList? || result.JStr?) ==> r == Err(TypeMismatch)
    ensures result.JObj? && Lookup(result.entries, "facts").None? ==> r == Err(NoFactsKey)
    ensures (result.JObj? && Lookup(result.entries, "facts").Some? && Lookup(result.entries, "account").None?)
            ==> r == Err(NoAccountKey)
    ensures (result.JObj? && Lookup(result.entries, "facts").Some? && Lookup(result.entries, "account").Some?
             && Lookup(result.entries, "display_name").None?) ==> r == Err(KeyNotFound("display_name"))
    ensures r.Ok? ==> result.JObj? && Lookup(result.entries, "display_name").Some?
                      && r == DataOutcome(Lookup(result.entries, "display_name").value, Lookup(result.entries, "facts").value)
  {
    match Contains(result, "facts")
    case None => Err(TypeMismatch)
    case Some(false) => Err(NoFactsKey)
    case Some(true) =>
      match Contains(result, "account")
      case None => Err(TypeMismatch)
      case Some(false) => Err(NoAccountKey)
      case Some(true) =>
        match Subscript(result, "facts")
        case Err(e) => Err(e)
        case Ok(data) =>
          match Subscript(result, "display_name")
          case Err(e) => Err(e)
          case Ok(name) => DataOutcome(name, data)
  }

  /** Adds one result's contribution to the two lists. */
  function Absorb(acc: Flattened, outcome: Outcome): Flattened
  {
    match outcome
    case Lacking(name) => Flattened(acc.rows, acc.lacksData + [name])
    case Emitted(rows) => Flattened(acc.rows + rows, acc.lacksData)
  }

  /** The two lists after one more contribution, or the error it carries. */
  function Step(acc: Flattened, outcome: Result<Outcome, Error>): Result<Flattened, Error>
  {
    match outcome
    case Err(e) => Err(e)
    case Ok(o) => Ok(Absorb(acc, o))
  }

  /** Each result's contribution, in the order of `results`. */
  function Outcomes(results: seq<Json>): (r: seq<Result<Outcome, Error>>)
    ensures |r| == |results|
    ensures forall i :: 0 <= i < |results| ==> r[i] == ResultOutcome(results[i])
  {
    seq(|results|, i requires 0 <= i < |results| => ResultOutcome(results[i]))
  }

  /** The two lists built from the contributions of a sequence of results;
      the first failed contribution aborts. */
  function FoldOutcomes(outcomes: seq<Result<Outcome, Error>>): (r: Result<Flattened, Error>)
    ensures r.Ok? ==> forall i :: 0 <= i < |outcomes| ==> outcomes[i].Ok?
  {
    if outcomes == [] then Ok(Flattened([], []))
    else
      match FoldOutcomes(outcomes[..|outcomes| - 1])
      case Err(e) => Err(e)
      case Ok(acc) => Step(acc, outcomes[|outcomes| - 1])
  }

  /** The two lists built from a sequence of results. */
  function FlattenResults(results: seq<Json>): (r: Result<Flattened, Error>)
    ensures results == [] ==> r == Ok(Flattened([], []))
    ensures r.Ok? ==> forall i :: 0 <= i < |results| ==> ResultOutcome(results[i]).Ok?
  {
    FoldOutcomes(Outcomes(results))
  }

  /** The two lists built from the whole reply (rad.py:110-174). */
  function Flatten(doc: Json): (r: Result<Flattened, Error>)
    ensures !doc.JObj? ==> r == Err(TypeMismatch)
    ensures doc.JObj? && Lookup(doc.entries, "results").None? ==> r == Err(KeyNotFound("results"))
    ensures r.Ok? ==> doc.JObj? && Lookup(doc.entries, "results").Some?
                      && Iterate(Lookup(doc.entries, "results").value).Some?
                      && r == FlattenResults(Iterate(Lookup(doc.entries, "results").value).value)
  {
    match Subscript(doc, "results")
    case Err(e) => Err(e)
    case Ok(results) =>
      match Iterate(results)
      case None => Err(TypeMismatch)
      case Some(rs) => FlattenResults(rs)
  }

  /** Once a prefix of the elements fails, so does the whole list. */
  lemma {:induction false} ElementsErrorSticks(name: Json, elements: seq<Json>, n: nat)
    requires n <= |elements|
    requires ElementsRows(name, elements[..n]).Err?
    ensures ElementsRows(name, elements) == ElementsRows(name, elements[..n])
    decreases |elements| - n
  {
    if n < |elements| {
      assert elements[..n + 1][..n] == elements[..n];
      ElementsErrorSticks(name, elements, n + 1);
    } else {
      assert elements[..n] == elements;
    }
  }

  lemma ConcatAssoc(a: seq<Row>, b: seq<Row>, c: seq<Row>)
    ensures (a + b) + c == a + (b + c)
  {
  }

  /** The rows of one more fact extend the rows of the facts before it. */
  lemma EntriesRowsExtend(name: Json, facts: seq<(string, Json)>, m: nat)
    requires m < |facts|
    ensures EntriesRows(name, facts[..m + 1]) == EntriesRows(name, facts[..m]) + FactRows(name, facts[m].0, facts[m].1)
  {
    assert facts[..m + 1][..m] == facts[..m];
  }

  /** The rows of one more element extend the rows of the elements before it. */
  lemma ElementsRowsExtend(name: Json, elements: seq<Json>, j: nat)
    requires j < |elements|
    requires ElementsRows(name, elements[..j]).Ok?
    ensures ElementsRows(name, elements[..j + 1])
         == ElementStep(ElementsRows(name, elements[..j]).value, name, elements[j])
  {
    assert elements[..j + 1][..j] == elements[..j];
  }

  /** Once a prefix of the contributions fails, so does the whole fold. */
  lemma {:induction false} OutcomesErrorSticks(outcomes: seq<Result<Outcome, Error>>, n: nat)
    requires n <= |outcomes|
    requires FoldOutcomes(outcomes[..n]).Err?
    ensures FoldOutcomes(outcomes) == FoldOutcomes(outcomes[..n])
    decreases |outcomes| - n
  {
    if n < |outcomes| {
      assert outcomes[..n + 1][..n] == outcomes[..n];
      OutcomesErrorSticks(outcomes, n + 1);
    } else {
      assert outcomes[..n] == outcomes;
    }
  }

  /** The contributions of a prefix of the results are a prefix of the contributions. */
  lemma OutcomesPrefix(results: seq<Json>, n: nat)
    requires n <= |results|
    ensures Outcomes(results[..n]) == Outcomes(results)[..n]
  {
  }

  /** Once a prefix of the results fails, so does the whole call. */
  lemma ResultsErrorSticks(results: seq<Json>, n: nat)
    requires n <= |results|
    requires FlattenResults(results[..n]).Err?
    ensures FlattenResults(results) == FlattenResults(results[..n])
  {
    OutcomesPrefix(results, n);
    OutcomesErrorSticks(Outcomes(results), n);
  }

  /** One more result extends the lists built from the results before it. */
  lemma FlattenResultsExtend(results: seq<Json>, i: nat)
    requires i < |results|
    requires FlattenResults(results[..i]).Ok?
    ensures FlattenResults(results[..i + 1])
         == Step(FlattenResults(results[..i]).value, ResultOutcome(results[i]))
  {
    var os := Outcomes(results[..i + 1]);
    assert os[..i] == Outcomes(results[..i]);
    assert os[i] == ResultOutcome(results[i]);
  }

  /** Appends the rows of one fact to `rows` (rad.py:147-174). */
  method AppendFact(rows: seq<Row>, name: Json, k: string, v: Json) returns (rows': seq<Row>)
    ensures rows' == rows + FactRows(name, k, v)
  {
    rows' := rows;
    if v.JInt? || v.JBool? {
      rows' := rows' + [Row(name, JFloat(AsFloat(v)), Key(k))];
    } else if v.JList? {
      for n := 0 to |v.items|
        invariant rows' == rows + ListRows(name, k, v.items[..n])
      {
        assert v.items[..n + 1][..n] == v.items[..n];
        rows' := rows' + [Row(name, JBool(true), KeyItem(k, v.items[n]))];
      }
      assert v.items[..|v.items|] == v.items;
    } else if v.JStr? {
      rows' := rows' + [Row(name, v, Key(k))];
    } else if v.JObj? {
      for n := 0 to |v.entries|
        invariant rows' == rows + DictRows(name, v.entries[..n])
      {
        assert v.entries[..n + 1][..n] == v.entries[..n];
        rows' := rows' + [Row(name, v.entries[n].1, Key(v.entries[n].0))];
      }
      assert v.entries[..|v.entries|] == v.entries;
    } else {
      rows' := rows' + [Row(name, JInt(-1), Key(k))];
    }
  }

  /** Appends the rows of every fact of one `facts` dict, fact after fact
      (rad.py:145-174). */
  method AppendFacts(rows: seq<Row>, name: Json, facts: seq<(string, Json)>) returns (rows': seq<Row>)
    ensures rows' == rows + EntriesRows(name, facts)
  {
    rows' := rows;
    for m := 0 to |facts|
      invariant rows' == rows + EntriesRows(name, facts[..m])
    {
      EntriesRowsExtend(name, facts, m);
      ConcatAssoc(rows, EntriesRows(name, facts[..m]), FactRows(name, facts[m].0, facts[m].1));
      rows' := AppendFact(rows', name, facts[m].0, facts[m].1);
    }
    assert facts[..|facts|] == facts;
  }

  /** Appends the rows of one element of a `facts` list (rad.py:138-174). */
  method AppendElement(rows: seq<Row>, name: Json, element: Json) returns (r: Result<seq<Row>, Error>)
    ensures r == ElementStep(rows, name, element)
  {
    if !element.JObj? {
      return Err(ElementNotDict);
    }
    var facts := Lookup(element.entries, "facts");
    if facts.None? {
      return Err(ElementWithoutFacts);
    }
    if !facts.value.JObj? {
      return Err(TypeMismatch);
    }
    var rows' := AppendFacts(rows, name, facts.value.entries);
    return Ok(rows');
  }

  /** Appends the rows of every element of a non-empty `facts` list
      (rad.py:137-174); the first malformed element aborts. */
  method AppendElements(rows: seq<Row>, name: Json, elements: seq<Json>) returns (r: Result<seq<Row>, Error>)
    ensures ElementsRows(name, elements).Ok? ==> r == Ok(rows + ElementsRows(name, elements).value)
    ensures ElementsRows(name, elements).Err? ==> r == Err(ElementsRows(name, elements).error)
  {
    var rows' := rows;
    for j := 0 to |elements|
      invariant ElementsRows(name, elements[..j]).Ok?
      invariant rows' == rows + ElementsRows(name, elements[..j]).value
    {
      ElementsRowsExtend(name, elements, j);
      var next := AppendElement(rows', name, elements[j]);
      if next.Err? {
        ElementsErrorSticks(name, elements, j + 1);
        return Err(next.error);
      }
      ConcatAssoc(rows, ElementsRows(name, elements[..j]).value, ElementRows(name, elements[j]).value);
      rows' := next.value;
    }
    assert elements[..|elements|] == elements;
    return Ok(rows');
  }

  /** Adds one entry of `results` to the two lists (rad.py:119-174). */
  method AppendResult(acc: Flattened, result: Json) returns (r: Result<Flattened, Error>)
    ensures r == Step(acc, ResultOutcome(result))
  {
    var hasFacts := Contains(result, "facts");
    if hasFacts.None? {
      return Err(TypeMismatch);
    }
    if !hasFacts.value {
      return Err(NoFactsKey);
    }
    var hasAccount := Contains(result, "account");
    if hasAccount.None? {
      return Err(TypeMismatch);
    }
    if !hasAccount.value {
      return Err(NoAccountKey);
    }
    var data :- Subscript(result, "facts");
    var name :- Subscript(result, "display_name");
    var iterated := Iterate(data);
    if iterated.None? {
      return Err(TypeMismatch);
    }
    var elements := iterated.value;
    if |elements| == 0 {
      return Ok(Flattened(acc.rows, acc.lacksData + [name]));
    }
    var rows :- AppendElements(acc.rows, name, elements);
    return Ok(Flattened(rows, acc.lacksData));
  }

  /** `inventory_data_to_pandas` up to the DataFrame construction
      (rad.py:110-174): the rows and the hosts lacking data, or the error that
      aborted the call. */
  method InventoryDataToRows(doc: Json) returns (r: Result<Flattened, Error>)
    ensures r == Flatten(doc)
  {
    var resultsValue :- Subscript(doc, "results");
    var iterated := Iterate(resultsValue);
    if iterated.None? {
      return Err(TypeMismatch);
    }
    var results := iterated.value;
    var acc := Flattened([], []);
    for i := 0 to |results|
      invariant FlattenResults(results[..i]) == Ok(acc)
    {
      FlattenResultsExtend(results, i);
      var next := AppendResult(acc, results[i]);
      if next.Err? {
        ResultsErrorSticks(results, i + 1);
        return next;
      }
      acc := next.value;
    }
    assert results[..|results|] == results;
    return Ok(acc);
  }
}
