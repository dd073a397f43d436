/**
 * What the row builder of rad.py promises about a whole reply: when it
 * succeeds, when it fails and with which error, and what the two lists it
 * builds hold, stated against a second, front-to-back definition of the
 * same lists.
 */
module InventoryProperties {
  import opened Wrappers
  import opened Json
  import opened Inventory

  /** The rows one contribution adds; none for a failed result. */
  function OutcomeRows(o: Result<Outcome, Error>): seq<Row>
  {
    if o.Ok? && o.value.Emitted? then o.value.rows else []
  }

  /** The names one contribution puts on `lacks_data`; none for a failed result. */
  function OutcomeNames(o: Result<Outcome, Error>): seq<Json>
  {
    if o.Ok? && o.value.Lacking? then [o.value.name] else []
  }

  /** Reference definition: the rows of every contribution, first one first. */
  function RowsOf(outcomes: seq<Result<Outcome, Error>>): seq<Row>
  {
    if outcomes == [] then [] else OutcomeRows(outcomes[0]) + RowsOf(outcomes[1..])
  }

  /** Reference definition: the names of the results with empty `facts`, in order. */
  function LackingNames(outcomes: seq<Result<Outcome, Error>>): seq<Json>
  {
    if outcomes == [] then [] else OutcomeNames(outcomes[0]) + LackingNames(outcomes[1..])
  }

  lemma {:induction false} RowsOfAppend(outcomes: seq<Result<Outcome, Error>>, last: Result<Outcome, Error>)
    ensures RowsOf(outcomes + [last]) == RowsOf(outcomes) + OutcomeRows(last)
  {
    if outcomes == [] {
      assert [last][1..] == [];
    } else {
      var first := OutcomeRows(outcomes[0]);
      assert (outcomes + [last])[1..] == outcomes[1..] + [last];
      RowsOfAppend(outcomes[1..], last);
      assert first + (RowsOf(outcomes[1..]) + OutcomeRows(last)) == (first + RowsOf(outcomes[1..])) + OutcomeRows(last);
    }
  }

  lemma {:induction false} LackingNamesAppend(outcomes: seq<Result<Outcome, Error>>, last: Result<Outcome, Error>)
    ensures LackingNames(outcomes + [last]) == LackingNames(outcomes) + OutcomeNames(last)
  {
    if outcomes == [] {
      assert [last][1..] == [];
    } else {
      var first := OutcomeNames(outcomes[0]);
      assert (outcomes + [last])[1..] == outcomes[1..] + [last];
      LackingNamesAppend(outcomes[1..], last);
      assert first + (LackingNames(outcomes[1..]) + OutcomeNames(last)) == (first + LackingNames(outcomes[1..])) + OutcomeNames(last);
    }
  }

  lemma {:induction false} FoldOkIff(outcomes: seq<Result<Outcome, Error>>)
    ensures FoldOutcomes(outcomes).Ok? <==> forall i :: 0 <= i < |outcomes| ==> outcomes[i].Ok?
  {
    if outcomes != [] {
      var prefix := outcomes[..|outcomes| - 1];
      FoldOkIff(prefix);
      assert forall i :: 0 <= i < |prefix| ==> prefix[i] == outcomes[i];
    }
  }

  /** The call succeeds exactly when every result is well formed. */
  lemma FlattenOkIff(results: seq<Json>)
    ensures FlattenResults(results).Ok? <==> forall i :: 0 <= i < |results| ==> ResultOutcome(results[i]).Ok?
  {
    var os := Outcomes(results);
    FoldOkIff(os);
    assert forall i :: 0 <= i < |results| ==> os[i] == ResultOutcome(results[i]);
  }

  /** The first malformed result decides the error, and no rows come back. */
  lemma FirstFailureAborts(results: seq<Json>, i: nat)
    requires i < |results|
    requires forall j :: 0 <= j < i ==> ResultOutcome(results[j]).Ok?
    requires ResultOutcome(results[i]).Err?
    ensures FlattenResults(results) == Err(ResultOutcome(results[i]).error)
  {
    var prefix := results[..i];
    assert forall j :: 0 <= j < |prefix| ==> prefix[j] == results[j];
    FlattenOkIff(prefix);
    FlattenResultsExtend(results, i);
    StepErr(FlattenResults(prefix).value, ResultOutcome(results[i]));
    ResultsErrorSticks(results, i + 1);
  }

  lemma StepErr(acc: Flattened, outcome: Result<Outcome, Error>)
    requires outcome.Err?
    ensures Step(acc, outcome) == Err(outcome.error)
  {
  }

  lemma {:induction false} FoldIsConcatenation(outcomes: seq<Result<Outcome, Error>>)
    requires FoldOutcomes(outcomes).Ok?
    ensures FoldOutcomes(outcomes).value == Flattened(RowsOf(outcomes), LackingNames(outcomes))
  {
    if outcomes != [] {
      var prefix := outcomes[..|outcomes| - 1];
      var last := outcomes[|outcomes| - 1];
      assert outcomes == prefix + [last];
      FoldIsConcatenation(prefix);
      RowsOfAppend(prefix, last);
      LackingNamesAppend(prefix, last);
    }
  }

  /** On success, `rows` is every result's rows in the order of `results`,
      and `lacks_data` names the results with empty `facts`, in that order. */
  lemma FlattenIsConcatenation(results: seq<Json>)
    requires FlattenResults(results).Ok?
    ensures FlattenResults(results).value
         == Flattened(RowsOf(Outcomes(results)), LackingNames(Outcomes(results)))
  {
    FoldIsConcatenation(Outcomes(results));
  }

  /** The rows a result contributes carry its `display_name`; the name it
      puts on `lacks_data` is its `display_name`. */
  lemma ResultNamesItsRows(result: Json)
    requires ResultOutcome(result).Ok?
    ensures Subscript(result, "display_name").Ok?
    ensures ResultOutcome(result).value.Lacking? ==>
      ResultOutcome(result).value.name == Subscript(result, "display_name").value
    ensures ResultOutcome(result).value.Emitted? ==>
      forall k :: 0 <= k < |ResultOutcome(result).value.rows| ==>
        ResultOutcome(result).value.rows[k].ix == Subscript(result, "display_name").value
  {
  }

  /** Every row of the concatenation comes from one contribution. */
  lemma {:induction false} RowOrigin(outcomes: seq<Result<Outcome, Error>>, k: nat)
    requires k < |RowsOf(outcomes)|
    ensures exists i, j :: 0 <= i < |outcomes| && 0 <= j < |OutcomeRows(outcomes[i])|
                        && RowsOf(outcomes)[k] == OutcomeRows(outcomes[i])[j]
  {
    var first := OutcomeRows(outcomes[0]);
    if k < |first| {
      assert RowsOf(outcomes)[k] == OutcomeRows(outcomes[0])[k];
    } else {
      RowOrigin(outcomes[1..], k - |first|);
      var i, j :| 0 <= i < |outcomes[1..]| && 0 <= j < |OutcomeRows(outcomes[1..][i])|
               && RowsOf(outcomes[1..])[k - |first|] == OutcomeRows(outcomes[1..][i])[j];
      assert RowsOf(outcomes)[k] == OutcomeRows(outcomes[i + 1])[j];
    }
  }

  /** Every row of a successful call carries the `display_name` of a result
      that has facts. */
  lemma RowsCarryDisplayName(results: seq<Json>, k: nat)
    requires FlattenResults(results).Ok?
    requires k < |FlattenResults(results).value.rows|
    ensures exists i :: 0 <= i < |results| && ResultOutcome(results[i]).Ok?
                     && ResultOutcome(results[i]).value.Emitted?
                     && FlattenResults(results).value.rows[k].ix == Subscript(results[i], "display_name").value
  {
    var os := Outcomes(results);
    FoldIsConcatenation(os);
    RowOrigin(os, k);
    var i, j :| 0 <= i < |os| && 0 <= j < |OutcomeRows(os[i])| && RowsOf(os)[k] == OutcomeRows(os[i])[j];
    assert os[i] == ResultOutcome(results[i]);
    ResultNamesItsRows(results[i]);
  }

  /** A result whose `facts` list is empty adds no rows and its name to `lacks_data`. */
  lemma EmptyFactsLackData(acc: Flattened, result: Json)
    requires result.JObj?
    requires Lookup(result.entries, "facts") == Some(JList([]))
    requires Lookup(result.entries, "account").Some?
    requires Lookup(result.entries, "display_name").Some?
    ensures Step(acc, ResultOutcome(result))
         == Ok(Flattened(acc.rows, acc.lacksData + [Lookup(result.entries, "display_name").value]))
  {
  }

  /** Predicate of the elements accepted at rad.py:138-145: a dict holding a `facts` dict. */
  predicate IsFactDict(element: Json)
  {
    element.JObj? && Lookup(element.entries, "facts").Some? && Lookup(element.entries, "facts").value.JObj?
  }

  lemma ElementsRowsOkSnoc(name: Json, elements: seq<Json>)
    requires elements != []
    ensures ElementsRows(name, elements).Ok?
        <==> ElementsRows(name, elements[..|elements| - 1]).Ok? && ElementRows(name, elements[|elements| - 1]).Ok?
  {
  }

  lemma AllFactDictsSnoc(elements: seq<Json>, prefix: seq<Json>)
    requires elements != [] && prefix == elements[..|elements| - 1]
    ensures (forall i :: 0 <= i < |elements| ==> IsFactDict(elements[i]))
        <==> (forall i :: 0 <= i < |prefix| ==> IsFactDict(prefix[i])) && IsFactDict(elements[|elements| - 1])
  {
    assert forall i :: 0 <= i < |prefix| ==> prefix[i] == elements[i];
  }

  lemma ElementOkIff(name: Json, element: Json)
    ensures ElementRows(name, element).Ok? <==> IsFactDict(element)
  {
  }

  /** The elements of a `facts` list are accepted exactly when each is a dict
      holding a `facts` dict. */
  lemma {:induction false} ElementsOkIff(name: Json, elements: seq<Json>)
    ensures ElementsRows(name, elements).Ok? <==> forall i :: 0 <= i < |elements| ==> IsFactDict(elements[i])
  {
    if elements != [] {
      var prefix := elements[..|elements| - 1];
      var last := elements[|elements| - 1];
      ElementsOkIff(name, prefix);
      ElementsRowsOkSnoc(name, elements);
      ElementOkIff(name, last);
      AllFactDictsSnoc(elements, prefix);
    }
  }

  /** Elements that are dicts holding an empty `facts` dict (whatever else
      they hold, such as `namespace`) yield no rows and raise nothing. */
  lemma {:induction false} EmptyFactDictsLeaveNoRows(name: Json, elements: seq<Json>)
    requires forall i :: 0 <= i < |elements| ==>
               IsFactDict(elements[i]) && Lookup(elements[i].entries, "facts").value.entries == []
    ensures ElementsRows(name, elements) == Ok([])
  {
    if elements != [] {
      var prefix := elements[..|elements| - 1];
      assert forall i :: 0 <= i < |prefix| ==> prefix[i] == elements[i];
      EmptyFactDictsLeaveNoRows(name, prefix);
      var none: seq<Row> := [];
      assert ElementRows(name, elements[|elements| - 1]) == Ok(none);
      assert ElementStep(none, name, elements[|elements| - 1]) == Ok(none + none);
      assert ElementsRows(name, prefix) == Ok(none);
      assert none + none == none;
    }
  }

  /** A host whose `facts` list is not empty but whose elements all hold
      empty `facts` dicts contributes no rows, and since its list was not
      empty it is not put on `lacks_data` either: it leaves no trace. */
  lemma EmptyFactDictsLeaveNoTrace(acc: Flattened, result: Json, elements: seq<Json>)
    requires result.JObj?
    requires Lookup(result.entries, "facts") == Some(JList(elements)) && elements != []
    requires Lookup(result.entries, "account").Some?
    requires Lookup(result.entries, "display_name").Some?
    requires forall i :: 0 <= i < |elements| ==>
               IsFactDict(elements[i]) && Lookup(elements[i].entries, "facts").value.entries == []
    ensures ResultOutcome(result) == Ok(Emitted([]))
    ensures Step(acc, ResultOutcome(result)) == Ok(acc)
  {
    var name := Lookup(result.entries, "display_name").value;
    EmptyFactDictsLeaveNoRows(name, elements);
    assert Subscript(result, "facts") == Ok(JList(elements));
    assert Subscript(result, "display_name") == Ok(name);
    assert DataOutcome(name, JList(elements)) == Ok(Emitted([]));
    assert acc.rows + [] == acc.rows;
  }
}
