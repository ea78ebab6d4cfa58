/** First-occurrence dedupe of a document's candidates, and the line numbers of its bill. */
module Dedupe {
  import opened Prelude
  import opened Text
  import opened Decimal
  import opened Fingerprints
  import BillModel
  import BillSpec

  datatype Deduped = Deduped(index: nat, fingerprint: string, duplicateOf: Option<nat>)

  datatype Error = AccountsMismatch | NoAccount | BadDate

  // ---- fingerprints ---------------------------------------------------------------------------

  predicate IsLeap(year: nat) { year % 4 == 0 && (year % 100 != 0 || year % 400 == 0) }

  function DaysIn(year: nat, month: nat): nat {
    if month == 2 then (if IsLeap(year) then 29 else 28)
    else if month == 4 || month == 6 || month == 9 || month == 11 then 30 else 31
  }

  /** A calendar date in the form of four, two and two digits. */
  predicate IsDate(s: string) {
    && |s| == 10 && s[4] == '-' && s[7] == '-' && AllDigits(s[..4]) && AllDigits(s[5..7]) && AllDigits(s[8..])
    && 1 <= Value(s[5..7]) <= 12 && 1 <= Value(s[8..]) <= DaysIn(Value(s[..4]), Value(s[5..7]))
  }

  /** Exactly the days of the Gregorian calendar are dates. */
  lemma DatesAreDays(s: string)
    requires |s| == 10 && s[4] == '-' && s[7] == '-' && AllDigits(s[..4]) && AllDigits(s[5..7]) && AllDigits(s[8..])
    ensures var year, month, day := Value(s[..4]), Value(s[5..7]), Value(s[8..]);
            IsDate(s) <==>
            && 1 <= month <= 12 && 1 <= day <= 31
            && (day == 31 ==> month in {1, 3, 5, 7, 8, 10, 12})
            && (day == 30 ==> month != 2)
            && (day == 29 && month == 2 ==> year % 400 == 0 || (year % 4 == 0 && year % 100 != 0))
  {
    hide Value;
  }

  /** A blank account is the nil account. */
  function FingerprintV1(account: string, c: Candidate): Result<string, Error> {
    if account == "" then Failure(NoAccount)
    else if !IsDate(c.on) then Failure(BadDate)
    else Success(Canonical(account, c))
  }

  // ---- dedupe -----------------------------------------------------------------------------------

  /** Each duplicate points at the first candidate with its fingerprint. */
  predicate PointsAtFirst(ds: seq<Deduped>, i: nat)
    requires i < |ds|
  {
    match ds[i].duplicateOf
    case None => forall k :: 0 <= k < i ==> ds[k].fingerprint != ds[i].fingerprint
    case Some(j) =>
      && j < i && ds[j].fingerprint == ds[i].fingerprint
      && forall k :: 0 <= k < j ==> ds[k].fingerprint != ds[i].fingerprint
  }

  predicate FirstOccurrences(ds: seq<Deduped>) {
    forall i :: 0 <= i < |ds| ==> ds[i].index == i && PointsAtFirst(ds, i)
  }

  method DedupeV1(accounts: seq<string>, cs: seq<Candidate>) returns (r: Result<seq<Deduped>, Error>)
    ensures r.Success? <==>
              |accounts| == |cs| && forall i :: 0 <= i < |cs| ==> accounts[i] != "" && IsDate(cs[i].on)
    ensures r.Success? ==>
              && |r.value| == |cs| && FirstOccurrences(r.value)
              && forall i :: 0 <= i < |cs| ==> r.value[i].fingerprint == Canonical(accounts[i], cs[i])
  {
    hide Canonical, IsDate, FirstOccurrences, Tracks;
    if |accounts| != |cs| { return Failure(AccountsMismatch); }
    var first: map<string, nat> := map[];
    var result: seq<Deduped> := [];
    NothingYet();
    for i := 0 to |cs|
      invariant |result| == i && FirstOccurrences(result) && Tracks(first, result)
      invariant forall k :: 0 <= k < i ==>
                  FingerprintV1(accounts[k], cs[k]).Success? && result[k].fingerprint == Canonical(accounts[k], cs[k])
    {
      var fingerprint :- FingerprintV1(accounts[i], cs[i]);
      OneMoreCandidate(first, result, fingerprint);
      if fingerprint in first {
        result := result + [Deduped(i, fingerprint, Some(first[fingerprint]))];
      } else {
        first := first[fingerprint := i];
        result := result + [Deduped(i, fingerprint, None)];
      }
    }
    r := Success(result);
  }

  /** `first` knows where each fingerprint so far was first seen. */
  predicate Tracks(first: map<string, nat>, ds: seq<Deduped>) {
    && (forall k :: 0 <= k < |ds| ==> ds[k].fingerprint in first)
    && forall f :: f in first ==>
         first[f] < |ds| && ds[first[f]].fingerprint == f && forall k :: 0 <= k < first[f] ==> ds[k].fingerprint != f
  }

  lemma NothingYet()
    ensures FirstOccurrences([]) && Tracks(map[], [])
  {
  }

  lemma OneMoreCandidate(first: map<string, nat>, ds: seq<Deduped>, f: string)
    requires FirstOccurrences(ds) && Tracks(first, ds)
    ensures f in first ==>
              var longer := ds + [Deduped(|ds|, f, Some(first[f]))]; FirstOccurrences(longer) && Tracks(first, longer)
    ensures f !in first ==>
              var longer := ds + [Deduped(|ds|, f, None)]; FirstOccurrences(longer) && Tracks(first[f := |ds|], longer)
  {
    StillFirst(ds, ds + [Deduped(|ds|, f, if f in first then Some(first[f]) else None)]);
  }

  lemma StillFirst(before: seq<Deduped>, after: seq<Deduped>)
    requires |after| == |before| + 1 && after[..|before|] == before && FirstOccurrences(before)
    requires after[|before|].index == |before| && PointsAtFirst(after, |before|)
    ensures FirstOccurrences(after)
  {
    assert forall k :: 0 <= k < |before| ==> after[k] == before[k];
    forall i | 0 <= i < |after|
      ensures after[i].index == i && PointsAtFirst(after, i)
    {
      if i < |before| {
        assert PointsAtFirst(before, i);
      }
    }
  }

  /** The candidate a fingerprint first appears on. */
  function Original(ds: seq<Deduped>, i: nat): nat
    requires i < |ds|
  {
    if ds[i].duplicateOf.Some? then ds[i].duplicateOf.value else i
  }

  /** A duplicate's target is itself an original, the smallest index with that fingerprint. */
  lemma TargetsAreOriginals(ds: seq<Deduped>, i: nat)
    requires FirstOccurrences(ds) && i < |ds|
    ensures var o := Original(ds, i);
            && o <= i && ds[o].duplicateOf == None && ds[o].fingerprint == ds[i].fingerprint
            && forall k :: 0 <= k < |ds| && ds[k].fingerprint == ds[i].fingerprint ==> o <= k
  {
    assert PointsAtFirst(ds, i);
    var o := Original(ds, i);
    assert PointsAtFirst(ds, o);
  }

  lemma SameOriginal(ds: seq<Deduped>, i: nat, j: nat)
    requires FirstOccurrences(ds) && i < |ds| && j < |ds|
    ensures Original(ds, i) == Original(ds, j) <==> ds[i].fingerprint == ds[j].fingerprint
  {
    TargetsAreOriginals(ds, i);
    TargetsAreOriginals(ds, j);
  }

  // ---- line numbers --------------------------------------------------------------------------------

  predicate Repeats(ds: seq<Deduped>, i: nat)
    requires i < |ds|
  {
    ds[i].duplicateOf.Some? && ds[i].duplicateOf.value < i
  }

  function Originals(ds: seq<Deduped>): nat {
    if ds == [] then 0 else Originals(ds[..|ds| - 1]) + if Repeats(ds, |ds| - 1) then 0 else 1
  }

  function LineIndexes(ds: seq<Deduped>): (r: seq<nat>)
    ensures |r| == |ds|
  {
    if ds == [] then []
    else
      var n := |ds| - 1;
      var rest := LineIndexes(ds[..n]);
      rest + [if Repeats(ds, n) then rest[ds[n].duplicateOf.value] else Originals(ds[..n]) + 1]
  }

  method DocumentGlobalLineIndexes(ds: seq<Deduped>) returns (result: seq<nat>)
    ensures result == LineIndexes(ds)
  {
    result := [];
    var next := 0;
    for i := 0 to |ds|
      invariant result == LineIndexes(ds[..i]) && next == Originals(ds[..i])
    {
      assert ds[..i + 1][..i] == ds[..i];
      assert Repeats(ds[..i + 1], i) == Repeats(ds, i);
      if ds[i].duplicateOf.Some? && ds[i].duplicateOf.value < i {
        result := result + [result[ds[i].duplicateOf.value]];
        continue;
      }
      next := next + 1;
      result := result + [next];
    }
    assert ds[..|ds|] == ds;
  }

  function Duplicates(ds: seq<Deduped>): nat {
    if ds == [] then 0 else Duplicates(ds[..|ds| - 1]) + if ds[|ds| - 1].duplicateOf.Some? then 1 else 0
  }

  method CountDuplicates(ds: seq<Deduped>) returns (count: nat)
    ensures count == Duplicates(ds)
  {
    count := 0;
    for i := 0 to |ds|
      invariant count == Duplicates(ds[..i])
    {
      assert ds[..i + 1][..i] == ds[..i];
      if ds[i].duplicateOf.Some? {
        count := count + 1;
      }
    }
    assert ds[..|ds|] == ds;
  }

  /** Every candidate is an original or a counted duplicate. */
  lemma {:induction false} OriginalsAndDuplicates(ds: seq<Deduped>)
    requires FirstOccurrences(ds)
    ensures Originals(ds) == |ds| - Duplicates(ds)
  {
    if ds != [] {
      var n := |ds| - 1;
      assert PointsAtFirst(ds, n);
      forall i | 0 <= i < n
        ensures PointsAtFirst(ds[..n], i)
      {
        assert PointsAtFirst(ds, i);
      }
      OriginalsAndDuplicates(ds[..n]);
    }
  }

  lemma {:induction false} IndexAt(ds: seq<Deduped>, i: nat)
    requires i < |ds|
    ensures Originals(ds[..i]) <= Originals(ds)
    ensures !Repeats(ds, i) ==> LineIndexes(ds)[i] == Originals(ds[..i]) + 1 <= Originals(ds)
    ensures Repeats(ds, i) ==> LineIndexes(ds)[i] == LineIndexes(ds)[ds[i].duplicateOf.value]
  {
    var n := |ds| - 1;
    if i < n {
      IndexAt(ds[..n], i);
      assert ds[..n][..i] == ds[..i];
    }
  }

  lemma {:induction false} OriginalsGrow(ds: seq<Deduped>, i: nat, j: nat)
    requires i < j <= |ds| && !Repeats(ds, i)
    ensures Originals(ds[..i]) < Originals(ds[..j])
    decreases j
  {
    assert ds[..j][..j - 1] == ds[..j - 1];
    assert Repeats(ds[..j], j - 1) == Repeats(ds, j - 1);
    if j > i + 1 {
      OriginalsGrow(ds, i, j - 1);
    }
  }

  lemma IndexOfOriginal(ds: seq<Deduped>, i: nat)
    requires FirstOccurrences(ds) && i < |ds|
    ensures var o := Original(ds, i);
            o <= i && !Repeats(ds, o) && LineIndexes(ds)[i] == Originals(ds[..o]) + 1 <= Originals(ds)
  {
    TargetsAreOriginals(ds, i);
    assert PointsAtFirst(ds, i);
    IndexAt(ds, i);
    IndexAt(ds, Original(ds, i));
  }

  /** Two candidates share a line number exactly when they share a fingerprint. */
  lemma SameIndexExactlyWhen(ds: seq<Deduped>, i: nat, j: nat)
    requires FirstOccurrences(ds) && i < |ds| && j < |ds|
    ensures LineIndexes(ds)[i] == LineIndexes(ds)[j] <==> ds[i].fingerprint == ds[j].fingerprint
  {
    IndexOfOriginal(ds, i);
    IndexOfOriginal(ds, j);
    SameOriginal(ds, i, j);
    var a, b := Original(ds, i), Original(ds, j);
    if a < b {
      OriginalsGrow(ds, a, b);
    } else if b < a {
      OriginalsGrow(ds, b, a);
    }
  }

  /** Numbers follow first appearance: what is new later gets a higher number. */
  lemma NumbersFollowFirstAppearance(ds: seq<Deduped>, i: nat, j: nat)
    requires FirstOccurrences(ds) && i < j < |ds| && ds[i].duplicateOf == None && ds[j].duplicateOf == None
    ensures LineIndexes(ds)[i] < LineIndexes(ds)[j]
  {
    IndexAt(ds, i);
    IndexAt(ds, j);
    OriginalsGrow(ds, i, j);
  }

  lemma {:induction false} EveryIndexIsUsed(ds: seq<Deduped>, v: nat)
    requires 1 <= v <= Originals(ds)
    ensures exists i :: 0 <= i < |ds| && LineIndexes(ds)[i] == v && !Repeats(ds, i)
  {
    var n := |ds| - 1;
    if v <= Originals(ds[..n]) {
      EveryIndexIsUsed(ds[..n], v);
      var i :| 0 <= i < n && LineIndexes(ds[..n])[i] == v && !Repeats(ds[..n], i);
      assert LineIndexes(ds)[i] == v && !Repeats(ds, i);
    } else {
      assert LineIndexes(ds)[n] == v && !Repeats(ds, n);
    }
  }

  /** The numbers used are exactly 1 up to the number of candidates that are no duplicates. */
  lemma NumbersAreDense(ds: seq<Deduped>, v: nat)
    requires FirstOccurrences(ds)
    ensures v in LineIndexes(ds) <==> 1 <= v <= |ds| - Duplicates(ds)
  {
    OriginalsAndDuplicates(ds);
    if v in LineIndexes(ds) {
      var i :| 0 <= i < |ds| && LineIndexes(ds)[i] == v;
      IndexOfOriginal(ds, i);
    }
    if 1 <= v <= Originals(ds) {
      EveryIndexIsUsed(ds, v);
    }
  }

  // ---- into the bill ----------------------------------------------------------------------------------

  /** The stored candidates of a document: each with its line number, the duplicates marked as such. */
  predicate Stored(ds: seq<Deduped>, output: seq<BillModel.BulkCandidate>) {
    && |output| == |ds|
    && forall i :: 0 <= i < |ds| ==>
         output[i].index == LineIndexes(ds)[i] && (ds[i].duplicateOf.Some? ==> output[i].status == BillModel.Duplicate)
  }

  /** The candidates a bill is projected from, with the positions they came from. */
  lemma {:induction false} IncludedFrom(output: seq<BillModel.BulkCandidate>) returns (at: seq<nat>)
    ensures |at| == |BillSpec.Included(output)|
    ensures forall k :: 0 <= k < |at| ==> at[k] < |output| && output[at[k]] == BillSpec.Included(output)[k]
    ensures forall k :: 0 <= k < |at| ==> BillSpec.IncludedStatus(output[at[k]].status)
    ensures forall k, l :: 0 <= k < l < |at| ==> at[k] < at[l]
  {
    at := [];
    if output != [] {
      var n := |output| - 1;
      at := IncludedFrom(output[..n]);
      if BillSpec.IncludedStatus(output[n].status) {
        at := at + [n];
      }
    }
  }

  /** Every projected line has a positive number that no other projected line has. */
  lemma ProjectedNumbersAreUnique(ds: seq<Deduped>, output: seq<BillModel.BulkCandidate>, first: Id)
    requires FirstOccurrences(ds) && Stored(ds, output)
    ensures var lines := BillSpec.NewLines(BillSpec.Included(output), first);
            && (forall k :: 0 <= k < |lines| ==> lines[k].index >= 1)
            && forall k, l :: 0 <= k < l < |lines| ==> lines[k].index != lines[l].index
  {
    var at := IncludedFrom(output);
    var lines := BillSpec.NewLines(BillSpec.Included(output), first);
    forall k | 0 <= k < |lines|
      ensures lines[k].index == LineIndexes(ds)[at[k]] >= 1 && ds[at[k]].duplicateOf == None
    {
      IndexOfOriginal(ds, at[k]);
    }
    forall k, l | 0 <= k < l < |lines|
      ensures lines[k].index != lines[l].index
    {
      SameIndexExactlyWhen(ds, at[k], at[l]);
      SameOriginal(ds, at[k], at[l]);
    }
  }
}
