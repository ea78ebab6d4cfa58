/** The canonical text a candidate fingerprint digests; SHA-256 is taken as injective, so the text stands for the digest. */
module Fingerprints {
  import opened Prelude
  import opened Text
  import opened Decimal

  datatype Candidate = Candidate(
    kind: string, amount: int, currency: string, on: string, references: seq<string>, merchant: string, title: string)

  // ---- string order and sorting ------------------------------------------------------------

  predicate Leq(a: string, b: string) {
    a == "" || (b != "" && (a[0] < b[0] || (a[0] == b[0] && Leq(a[1..], b[1..]))))
  }

  lemma {:induction false} LeqTotal(a: string, b: string)
    ensures Leq(a, b) || Leq(b, a)
    ensures Leq(a, b) && Leq(b, a) ==> a == b
  {
    if a != "" && b != "" {
      LeqTotal(a[1..], b[1..]);
      assert a == [a[0]] + a[1..] && b == [b[0]] + b[1..];
    }
  }

  lemma {:induction false} LeqTransitive(a: string, b: string, c: string)
    requires Leq(a, b) && Leq(b, c)
    ensures Leq(a, c)
  {
    if a != "" && a[0] == b[0] && b[0] == c[0] {
      LeqTransitive(a[1..], b[1..], c[1..]);
    }
  }

  predicate Ascending(s: seq<string>) { forall i, j :: 0 <= i < j < |s| ==> Leq(s[i], s[j]) }

  function Inserted(s: seq<string>, x: string): seq<string> {
    if s == [] then [x]
    else if Leq(x, s[0]) then [x] + s
    else [s[0]] + Inserted(s[1..], x)
  }

  /** `sort.Strings` */
  function Sorted(s: seq<string>): seq<string> {
    if s == [] then [] else Inserted(Sorted(s[..|s| - 1]), s[|s| - 1])
  }

  lemma PrependLeast(x: string, s: seq<string>)
    requires Ascending(s) && forall j :: 0 <= j < |s| ==> Leq(x, s[j])
    ensures Ascending([x] + s) && multiset([x] + s) == multiset(s) + multiset{x}
  {
  }

  lemma {:induction false} InsertedIsSorted(s: seq<string>, x: string)
    requires Ascending(s)
    ensures Ascending(Inserted(s, x)) && multiset(Inserted(s, x)) == multiset(s) + multiset{x}
  {
    if s != [] {
      if Leq(x, s[0]) {
        forall j | 0 <= j < |s|
          ensures Leq(x, s[j])
        {
          if j > 0 { LeqTransitive(x, s[0], s[j]); }
        }
        PrependLeast(x, s);
      } else {
        LeqTotal(x, s[0]);
        InsertedIsSorted(s[1..], x);
        var rest := Inserted(s[1..], x);
        hide Leq;
        assert s == [s[0]] + s[1..];
        forall j | 0 <= j < |rest|
          ensures Leq(s[0], rest[j])
        {
          assert rest[j] in multiset(s[1..]) + multiset{x};
        }
        PrependLeast(s[0], rest);
      }
    }
  }

  lemma {:induction false} SortedIsSorted(s: seq<string>)
    ensures Ascending(Sorted(s)) && multiset(Sorted(s)) == multiset(s)
  {
    if s != [] {
      SortedIsSorted(s[..|s| - 1]);
      InsertedIsSorted(Sorted(s[..|s| - 1]), s[|s| - 1]);
      assert s == s[..|s| - 1] + [s[|s| - 1]];
    }
  }

  lemma FirstIsLeast(s: seq<string>, x: string)
    requires Ascending(s) && x in s
    ensures Leq(s[0], x)
  {
    LeqTotal(x, x);
  }

  lemma SameFirst(a: seq<string>, b: seq<string>)
    requires Ascending(a) && Ascending(b) && multiset(a) == multiset(b) && a != []
    ensures b != [] && a[0] == b[0] && multiset(a[1..]) == multiset(b[1..])
  {
    assert a[0] in multiset(b) && b[0] in multiset(a);
    FirstIsLeast(a, b[0]);
    FirstIsLeast(b, a[0]);
    LeqTotal(a[0], b[0]);
    hide Leq;
    assert a == [a[0]] + a[1..] && b == [b[0]] + b[1..];
    assert multiset(a[1..]) == multiset(a) - multiset{a[0]};
    assert multiset(b[1..]) == multiset(b) - multiset{b[0]};
  }

  lemma {:induction false} OneAscendingOrder(a: seq<string>, b: seq<string>)
    requires Ascending(a) && Ascending(b) && multiset(a) == multiset(b)
    ensures a == b
  {
    if a == [] {
      assert |multiset(b)| == |b| == 0;
    } else {
      SameFirst(a, b);
      OneAscendingOrder(a[1..], b[1..]);
      assert a == [a[0]] + a[1..] && b == [b[0]] + b[1..];
    }
  }

  // ---- joining -------------------------------------------------------------------------------

  predicate Free(s: string, c: char) { c !in s }

  predicate AllFree(parts: seq<string>, c: char) { forall i :: 0 <= i < |parts| ==> Free(parts[i], c) }

  function Join(parts: seq<string>, sep: char): string {
    if parts == [] then "" else if |parts| == 1 then parts[0] else parts[0] + [sep] + Join(parts[1..], sep)
  }

  lemma FirstSeparator(x: string, u: string, y: string, v: string, sep: char)
    requires Free(x, sep) && Free(y, sep) && x + u == y + v
    requires (u == "" || u[0] == sep) && (v == "" || v[0] == sep)
    ensures x == y && u == v
  {
    var s := x + u;
    assert |x| < |s| ==> s[|x|] == sep;
    assert |y| < |s| ==> s[|y|] == sep;
    assert forall i :: 0 <= i < |x| ==> s[i] == x[i];
    assert forall i :: 0 <= i < |y| ==> s[i] == y[i];
    assert |x| == |y|;
    assert x == s[..|x|] && y == s[..|y|] && u == s[|x|..] && v == s[|y|..];
  }

  /** What follows the first part. */
  function Tail(parts: seq<string>, sep: char): string
    requires parts != []
  {
    if |parts| == 1 then "" else [sep] + Join(parts[1..], sep)
  }

  lemma JoinSplits(parts: seq<string>, sep: char)
    requires parts != []
    ensures Join(parts, sep) == parts[0] + Tail(parts, sep)
    ensures if |parts| == 1 then Tail(parts, sep) == "" else Tail(parts, sep) != "" && Tail(parts, sep)[0] == sep
    ensures |parts| > 1 ==> Tail(parts, sep)[1..] == Join(parts[1..], sep)
  {
  }

  lemma {:induction false} JoinIsInjective(a: seq<string>, b: seq<string>, sep: char)
    requires a != [] && b != [] && AllFree(a, sep) && AllFree(b, sep) && Join(a, sep) == Join(b, sep)
    ensures a == b
  {
    JoinSplits(a, sep);
    JoinSplits(b, sep);
    hide Join, Tail;
    FirstSeparator(a[0], Tail(a, sep), b[0], Tail(b, sep), sep);
    if |a| > 1 && |b| > 1 {
      JoinIsInjective(a[1..], b[1..], sep);
    }
    assert a == [a[0]] + a[1..] && b == [b[0]] + b[1..];
  }

  /** Joining tells lists of separator-free parts apart, except no part from one blank part. */
  lemma JoinsAlikeExactlyWhen(a: seq<string>, b: seq<string>, sep: char)
    requires AllFree(a, sep) && AllFree(b, sep)
    ensures Join(a, sep) == Join(b, sep) <==> a == b || (a == [] && b == [""]) || (a == [""] && b == [])
  {
    if a != [] && b != [] {
      if Join(a, sep) == Join(b, sep) { JoinIsInjective(a, b, sep); }
    } else if a == [] && b != [] {
      JoinOfNothing(b, sep);
    } else if b == [] && a != [] {
      JoinOfNothing(a, sep);
    }
  }

  lemma JoinOfNothing(parts: seq<string>, sep: char)
    requires parts != []
    ensures Join(parts, sep) == "" <==> parts == [""]
  {
    if |parts| > 1 {
      assert Join(parts, sep)[|parts[0]|] == sep;
    } else {
      assert parts == [parts[0]];
    }
  }

  // ---- the fingerprint --------------------------------------------------------------------------

  const FIELD := '\U{0000}'
  const REFERENCE := '\U{001E}'
  const VERSION := "bulk-candidate-fingerprint-v1"

  function NormalReferences(refs: seq<string>): (r: seq<string>)
    ensures |r| == |refs|
  {
    seq(|refs|, i requires 0 <= i < |refs| => NormalText(refs[i]))
  }

  function Fields(account: string, c: Candidate): seq<string> {
    [VERSION, account, c.kind, Signed(c.amount), c.currency, c.on,
     Join(Sorted(NormalReferences(c.references)), REFERENCE), NormalText(c.merchant), NormalText(c.title)]
  }

  function Canonical(account: string, c: Candidate): string { Join(Fields(account, c), FIELD) }

  /** No field holds the byte that separates fields, and no reference the one that separates references. */
  predicate SeparatorFree(account: string, c: Candidate) {
    && Free(account, FIELD) && Free(c.kind, FIELD) && Free(c.currency, FIELD) && Free(c.on, FIELD)
    && Free(c.merchant, FIELD) && Free(c.title, FIELD)
    && AllFree(c.references, FIELD) && AllFree(c.references, REFERENCE)
  }

  /** The facts a fingerprint is meant to keep apart; references count as a multiset. */
  predicate SameFacts(account: string, c: Candidate, account': string, c': Candidate) {
    && account == account' && c.kind == c'.kind && c.amount == c'.amount && c.currency == c'.currency && c.on == c'.on
    && NormalText(c.merchant) == NormalText(c'.merchant) && NormalText(c.title) == NormalText(c'.title)
  }

  predicate SameReferences(a: seq<string>, b: seq<string>) {
    multiset(NormalReferences(a)) == multiset(NormalReferences(b))
  }

  /** One list is empty and the other holds a single reference that normalises to nothing. */
  predicate BlankAgainstNone(a: seq<string>, b: seq<string>) {
    (a == [] && NormalReferences(b) == [""]) || (b == [] && NormalReferences(a) == [""])
  }

  lemma {:induction false} CollapseKeepsFree(s: string, c: char)
    requires Free(s, c) && c != ' '
    ensures Free(Collapse(s), c)
  {
    if s != "" {
      CollapseKeepsFree(s[..|s| - 1], c);
    }
  }

  lemma {:induction false} TrimLeftKeepsFree(s: string, c: char)
    requires Free(s, c)
    ensures Free(TrimLeft(s), c)
  {
    if s != "" && IsSpace(s[0]) {
      TrimLeftKeepsFree(s[1..], c);
    }
  }

  lemma {:induction false} TrimRightKeepsFree(s: string, c: char)
    requires Free(s, c)
    ensures Free(TrimRight(s), c)
  {
    if s != "" && IsSpace(s[|s| - 1]) {
      TrimRightKeepsFree(s[..|s| - 1], c);
    }
  }

  lemma NormalTextKeepsFree(s: string, c: char)
    requires Free(s, c) && c < ' '
    ensures Free(NormalText(s), c)
  {
    CollapseKeepsFree(s, c);
    TrimLeftKeepsFree(Collapse(s), c);
    TrimRightKeepsFree(TrimLeft(Collapse(s)), c);
    hide TrimSpace, Collapse;
    var t := TrimSpace(Collapse(s));
    assert Free(t, c) by { assert t == TrimRight(TrimLeft(Collapse(s))) by { TrimmedForm(Collapse(s)); } }
    assert forall i :: 0 <= i < |t| ==> LowerChar(t[i]) != c;
  }

  lemma TrimmedForm(s: string)
    ensures TrimSpace(s) == TrimRight(TrimLeft(s))
  {
  }

  lemma SortedReferencesAreFree(refs: seq<string>, c: char)
    requires AllFree(refs, c) && c < ' '
    ensures AllFree(Sorted(NormalReferences(refs)), c)
  {
    var normal := NormalReferences(refs);
    forall i | 0 <= i < |normal|
      ensures Free(normal[i], c)
    {
      NormalTextKeepsFree(refs[i], c);
    }
    SortedIsSorted(normal);
    var sorted := Sorted(normal);
    forall i | 0 <= i < |sorted|
      ensures Free(sorted[i], c)
    {
      assert sorted[i] in multiset(normal);
    }
  }

  lemma {:induction false} JoinKeepsFree(parts: seq<string>, sep: char, c: char)
    requires AllFree(parts, c) && sep != c
    ensures Free(Join(parts, sep), c)
  {
    if |parts| > 1 {
      JoinKeepsFree(parts[1..], sep, c);
    }
  }

  lemma FieldsAreFree(account: string, c: Candidate)
    requires SeparatorFree(account, c)
    ensures AllFree(Fields(account, c), FIELD)
  {
    SortedReferencesAreFree(c.references, FIELD);
    JoinKeepsFree(Sorted(NormalReferences(c.references)), REFERENCE, FIELD);
    NormalTextKeepsFree(c.merchant, FIELD);
    NormalTextKeepsFree(c.title, FIELD);
    SignedIsFree(c.amount);
  }

  lemma SignedIsFree(n: int)
    ensures Free(Signed(n), FIELD)
  {
    ReadsDigits(if n < 0 then -n else n);
  }

  lemma ReferencesAgree(a: seq<string>, b: seq<string>)
    requires AllFree(a, REFERENCE) && AllFree(b, REFERENCE)
    ensures Join(Sorted(NormalReferences(a)), REFERENCE) == Join(Sorted(NormalReferences(b)), REFERENCE) <==>
            SameReferences(a, b) || BlankAgainstNone(a, b)
  {
    var na, nb := NormalReferences(a), NormalReferences(b);
    SortedReferencesAreFree(a, REFERENCE);
    SortedReferencesAreFree(b, REFERENCE);
    SortedIsSorted(na);
    SortedIsSorted(nb);
    JoinsAlikeExactlyWhen(Sorted(na), Sorted(nb), REFERENCE);
    if multiset(na) == multiset(nb) {
      OneAscendingOrder(Sorted(na), Sorted(nb));
    }
    BlankSorted(a);
    BlankSorted(b);
  }

  lemma BlankSorted(refs: seq<string>)
    ensures Sorted(NormalReferences(refs)) == [] <==> refs == []
    ensures Sorted(NormalReferences(refs)) == [""] <==> NormalReferences(refs) == [""]
  {
    var n := NormalReferences(refs);
    SortedIsSorted(n);
    assert |Sorted(n)| == |multiset(Sorted(n))| == |n|;
    if |n| == 1 {
      assert n == [n[0]] && n[..0] == [];
      assert Sorted(n) == Inserted(Sorted(n[..0]), n[0]);
    }
  }

  /** Two separator-free candidates share a fingerprint exactly when their facts agree, blank references aside. */
  lemma SameFingerprintExactlyWhen(account: string, c: Candidate, account': string, c': Candidate)
    requires SeparatorFree(account, c) && SeparatorFree(account', c')
    ensures Canonical(account, c) == Canonical(account', c') <==>
            && SameFacts(account, c, account', c')
            && (SameReferences(c.references, c'.references) || BlankAgainstNone(c.references, c'.references))
  {
    var a, b := Fields(account, c), Fields(account', c');
    FieldsAreFree(account, c);
    FieldsAreFree(account', c');
    ReferencesAgree(c.references, c'.references);
    hide Join, Sorted, NormalReferences, NormalText, Signed, SameReferences, BlankAgainstNone;
    if Canonical(account, c) == Canonical(account', c') {
      JoinIsInjective(a, b, FIELD);
      assert a[1] == b[1] && a[2] == b[2] && a[3] == b[3] && a[4] == b[4] && a[5] == b[5] && a[6] == b[6] && a[7] == b[7]
          && a[8] == b[8];
      SignedIsInjective(c.amount, c'.amount);
    }
  }

  /** The decoder lets no blank reference through, so for decoded candidates the exception cannot arise. */
  predicate Decoded(c: Candidate) { forall i :: 0 <= i < |c.references| ==> NormalText(c.references[i]) != "" }

  lemma DecodedFingerprints(account: string, c: Candidate, account': string, c': Candidate)
    requires SeparatorFree(account, c) && SeparatorFree(account', c') && Decoded(c) && Decoded(c')
    ensures Canonical(account, c) == Canonical(account', c') <==>
            SameFacts(account, c, account', c') && SameReferences(c.references, c'.references)
  {
    SameFingerprintExactlyWhen(account, c, account', c');
    NoBlank(c, c'.references);
    NoBlank(c', c.references);
  }

  lemma NoBlank(c: Candidate, others: seq<string>)
    requires Decoded(c)
    ensures NormalReferences(c.references) != [""]
  {
    if |c.references| == 1 {
      assert NormalReferences(c.references)[0] == NormalText(c.references[0]);
    }
  }

  /** No reference and one blank reference are confused. */
  lemma BlankReferenceCollides(account: string, c: Candidate)
    ensures Canonical(account, c.(references := [])) == Canonical(account, c.(references := [""]))
    ensures !SameReferences([], [""])
  {
    assert NormalText("") == "";
    assert NormalReferences([""]) == [""] && NormalReferences([]) == [];
    assert Sorted([""]) == [""] by { assert [""][..0] == []; }
    assert "" !in multiset(NormalReferences([])) && "" in multiset(NormalReferences([""]));
  }
}
