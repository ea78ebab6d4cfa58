/** Folding the bill summaries of a document's chunks, field by field. */
module Summary {
  import opened Prelude

  datatype Field =
    | CardAccountRef | PeriodStart | PeriodEnd | StatementDate | DueDate | SettlementCurrency | AmountDue | MinimumPayment
    | PreviousBalance

  datatype Value = Text(text: string) | Minor(amount: int)

  /** The fields a chunk supplied. */
  type BillSummary = map<Field, Value>

  function At(s: BillSummary, f: Field): Option<Value> { if f in s then Some(s[f]) else None }

  // ---- one field ------------------------------------------------------------------------------

  datatype Fold = Fold(current: Option<Value>, conflict: bool)

  function Merged(was: Fold, next: Option<Value>): Fold {
    if was.conflict then Fold(None, true)
    else if was.current == None then Fold(next, false)
    else if next.Some? && next != was.current then Fold(None, true)
    else was
  }

  /** Chunks without a summary do not count. */
  function FieldFold(chunks: seq<Option<BillSummary>>, f: Field): Fold {
    if chunks == [] then Fold(None, false)
    else
      var was, last := FieldFold(chunks[..|chunks| - 1], f), chunks[|chunks| - 1];
      if last == None then was else Merged(was, At(last.value, f))
  }

  predicate Supplies(chunk: Option<BillSummary>, f: Field) { chunk.Some? && f in chunk.value }

  /** Some chunk supplied `v`. */
  predicate Said(chunks: seq<Option<BillSummary>>, f: Field, v: Value) {
    exists i :: 0 <= i < |chunks| && Supplies(chunks[i], f) && chunks[i].value[f] == v
  }

  /** Every chunk that supplied the field said `v`. */
  predicate Unanimous(chunks: seq<Option<BillSummary>>, f: Field, v: Value) {
    forall i :: 0 <= i < |chunks| && Supplies(chunks[i], f) ==> chunks[i].value[f] == v
  }

  predicate Silent(chunks: seq<Option<BillSummary>>, f: Field) { forall i :: 0 <= i < |chunks| ==> !Supplies(chunks[i], f) }

  lemma SaidOneMore(chunks: seq<Option<BillSummary>>, f: Field, v: Value)
    requires chunks != []
    ensures var n := |chunks| - 1;
            && (Said(chunks, f, v) <==> Said(chunks[..n], f, v) || (Supplies(chunks[n], f) && chunks[n].value[f] == v))
            && (Unanimous(chunks, f, v) <==> Unanimous(chunks[..n], f, v) && (Supplies(chunks[n], f) ==> chunks[n].value[f] == v))
            && (Silent(chunks, f) <==> Silent(chunks[..n], f) && !Supplies(chunks[n], f))
  {
    var n := |chunks| - 1;
    assert forall i :: 0 <= i < n ==> chunks[..n][i] == chunks[i];
    if Said(chunks[..n], f, v) {
      var i :| 0 <= i < n && Supplies(chunks[..n][i], f) && chunks[..n][i].value[f] == v;
      assert Supplies(chunks[i], f) && chunks[i].value[f] == v;
    }
  }

  /** The fold keeps `v` exactly when some chunk said it and none said anything else; it is unmarked and empty when none spoke. */
  lemma {:induction false} FoldMeans(chunks: seq<Option<BillSummary>>, f: Field, v: Value)
    ensures FieldFold(chunks, f).current == Some(v) <==> Said(chunks, f, v) && Unanimous(chunks, f, v)
    ensures FieldFold(chunks, f) == Fold(None, false) <==> Silent(chunks, f)
    ensures FieldFold(chunks, f).conflict ==> FieldFold(chunks, f).current == None && !Unanimous(chunks, f, v)
  {
    if chunks != [] {
      var n := |chunks| - 1;
      var was := FieldFold(chunks[..n], f);
      FoldMeans(chunks[..n], f, v);
      SaidOneMore(chunks, f, v);
      if was.current.Some? {
        FoldMeans(chunks[..n], f, was.current.value);
        SaidOneMore(chunks, f, was.current.value);
      }
      if Supplies(chunks[n], f) {
        FoldMeans(chunks[..n], f, chunks[n].value[f]);
      }
    }
  }

  lemma SameChunks(chunks: seq<Option<BillSummary>>, chunks': seq<Option<BillSummary>>, f: Field, v: Value)
    requires multiset(chunks) == multiset(chunks') && Said(chunks, f, v) && Unanimous(chunks, f, v)
    ensures Said(chunks', f, v) && Unanimous(chunks', f, v)
  {
    var i :| 0 <= i < |chunks| && Supplies(chunks[i], f) && chunks[i].value[f] == v;
    assert chunks[i] in multiset(chunks');
    var j :| 0 <= j < |chunks'| && chunks'[j] == chunks[i];
    assert Supplies(chunks'[j], f) && chunks'[j].value[f] == v;
    forall k | 0 <= k < |chunks'| && Supplies(chunks'[k], f)
      ensures chunks'[k].value[f] == v
    {
      assert chunks'[k] in multiset(chunks);
    }
  }

  /** The merged field does not depend on the order of the chunks. */
  lemma OrderDoesNotMatter(chunks: seq<Option<BillSummary>>, chunks': seq<Option<BillSummary>>, f: Field)
    requires multiset(chunks) == multiset(chunks')
    ensures FieldFold(chunks, f).current == FieldFold(chunks', f).current
  {
    var a, b := FieldFold(chunks, f).current, FieldFold(chunks', f).current;
    if a.Some? {
      FoldMeans(chunks, f, a.value);
      SameChunks(chunks, chunks', f, a.value);
      FoldMeans(chunks', f, a.value);
    } else if b.Some? {
      FoldMeans(chunks', f, b.value);
      SameChunks(chunks', chunks, f, b.value);
      FoldMeans(chunks, f, b.value);
    }
  }

  // ---- the fold as the worker runs it ---------------------------------------------------------

  const FIELDS: seq<Field> := [
    CardAccountRef, PeriodStart, PeriodEnd, StatementDate, DueDate, SettlementCurrency, AmountDue, MinimumPayment,
    PreviousBalance]

  lemma EveryFieldOnce(f: Field, i: nat)
    requires i < |FIELDS|
    ensures f in FIELDS && FIELDS[i] !in FIELDS[..i]
  {
    match f
    case CardAccountRef => assert FIELDS[0] == f;
    case PeriodStart => assert FIELDS[1] == f;
    case PeriodEnd => assert FIELDS[2] == f;
    case StatementDate => assert FIELDS[3] == f;
    case DueDate => assert FIELDS[4] == f;
    case SettlementCurrency => assert FIELDS[5] == f;
    case AmountDue => assert FIELDS[6] == f;
    case MinimumPayment => assert FIELDS[7] == f;
    case PreviousBalance => assert FIELDS[8] == f;
  }

  class Aggregate {
    var summary: Option<BillSummary>
    var conflicts: set<Field>

    constructor ()
      ensures summary == None && conflicts == {}
    {
      summary, conflicts := None, {};
    }

    function FoldOf(f: Field): Fold
      reads this
    {
      Fold(if summary.Some? then At(summary.value, f) else None, f in conflicts)
    }

    method MergeSummaryValue(f: Field, next: Option<Value>)
      requires summary.Some?
      modifies this
      ensures summary.Some? && FoldOf(f) == Merged(old(FoldOf(f)), next)
      ensures forall g :: g != f ==> FoldOf(g) == old(FoldOf(g))
    {
      if f in conflicts {
        summary := Some(summary.value - {f});
        return;
      }
      if f !in summary.value {
        if next.Some? {
          summary := Some(summary.value[f := next.value]);
        }
        return;
      }
      if next.Some? && summary.value[f] != next.value {
        conflicts := conflicts + {f};
        summary := Some(summary.value - {f});
      }
    }

    /** Fold one chunk in; a conflict, once found, stays. */
    method MergeBillSummary(next: Option<BillSummary>)
      requires summary == None ==> conflicts == {}
      modifies this
      ensures summary == None <==> old(summary) == None && next == None
      ensures summary == None ==> conflicts == {}
      ensures forall f :: FoldOf(f) == if next == None then old(FoldOf(f)) else Merged(old(FoldOf(f)), At(next.value, f))
    {
      if next == None { return; }
      if summary == None {
        summary := next;
        return;
      }
      hide Merged, FoldOf, At;
      for i := 0 to |FIELDS|
        invariant summary.Some?
        invariant forall f :: f in FIELDS[..i] ==> FoldOf(f) == Merged(old(FoldOf(f)), At(next.value, f))
        invariant forall f :: f !in FIELDS[..i] ==> FoldOf(f) == old(FoldOf(f))
      {
        EveryFieldOnce(CardAccountRef, i);
        assert FIELDS[..i + 1] == FIELDS[..i] + [FIELDS[i]];
        MergeSummaryValue(FIELDS[i], At(next.value, FIELDS[i]));
      }
      assert FIELDS[..|FIELDS|] == FIELDS;
      forall f
        ensures f in FIELDS
      {
        EveryFieldOnce(f, 0);
      }
    }
  }

  /** The document's summary: a field is `v` exactly when some chunk said `v` and no chunk said anything else. */
  method AggregateSummaries(chunks: seq<Option<BillSummary>>) returns (r: Option<BillSummary>)
    ensures r == None <==> forall i :: 0 <= i < |chunks| ==> chunks[i] == None
    ensures r.Some? ==> forall f, v :: At(r.value, f) == Some(v) <==> Said(chunks, f, v) && Unanimous(chunks, f, v)
  {
    hide Merged, Said, Unanimous;
    var aggregate := new Aggregate();
    for i := 0 to |chunks|
      invariant fresh(aggregate) && (aggregate.summary == None ==> aggregate.conflicts == {})
      invariant aggregate.summary == None <==> forall k :: 0 <= k < i ==> chunks[k] == None
      invariant forall f :: aggregate.FoldOf(f) == FieldFold(chunks[..i], f)
    {
      assert chunks[..i + 1][..i] == chunks[..i];
      aggregate.MergeBillSummary(chunks[i]);
    }
    assert chunks[..|chunks|] == chunks;
    r := aggregate.summary;
    if r.Some? {
      forall f, v
        ensures At(r.value, f) == Some(v) <==> Said(chunks, f, v) && Unanimous(chunks, f, v)
      {
        FoldMeans(chunks, f, v);
        assert aggregate.FoldOf(f) == FieldFold(chunks, f);
      }
    }
  }
}
