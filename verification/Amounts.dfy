/** The ways an amount in minor units may be written in a message. */
module Amounts {
  import opened Prelude
  import opened Decimal

  // ---- writing ------------------------------------------------------------------------------

  /** Division and remainder as Go takes them, towards zero. */
  function Quotient(a: int, b: nat): int
    requires b > 0
  {
    if a >= 0 then a / b else -(-a / b)
  }

  function Remainder(a: int, b: nat): int
    requires b > 0
  {
    a - Quotient(a, b) * b
  }

  function Zeros(k: int): string
    decreases if k < 0 then 0 else k
  {
    if k <= 0 then "" else Zeros(k - 1) + "0"
  }

  /** `%0*d`: at least `width` characters, the sign first. */
  function ZeroPadded(n: int, width: nat): string {
    if n < 0 then "-" + Zeros(width - 1 - |Digits(-n)|) + Digits(-n) else Zeros(width - |Digits(n)|) + Digits(n)
  }

  /** `scale` is None for a code that is no ISO 4217 currency. */
  function Formatted(minor: int, scale: Option<nat>): string {
    if scale == None then ""
    else if scale.value == 0 then Signed(minor)
    else
      var divisor := Pow10(scale.value);
      Signed(Quotient(minor, divisor)) + "." + ZeroPadded(Remainder(minor, divisor), scale.value)
  }

  method FormatMinorAmount(minor: int, scale: Option<nat>) returns (s: string)
    ensures s == Formatted(minor, scale)
  {
    if scale == None { return ""; }
    var divisor := 1;
    for i := 0 to scale.value
      invariant divisor == Pow10(i)
    {
      divisor := divisor * 10;
    }
    if scale.value == 0 { return Signed(minor); }
    var whole := Quotient(minor, divisor);
    s := Signed(whole) + "." + ZeroPadded(Remainder(minor, divisor), scale.value);
  }

  // ---- reading ------------------------------------------------------------------------------

  /** Whole and fractional digits as minor units. */
  function Amount(w: string, f: string, scale: nat): nat
    requires AllDigits(w) && AllDigits(f) && |f| <= scale
  {
    Value(w) * Pow10(scale) + Value(f) * Pow10(scale - |f|)
  }

  function Body(w: string, f: string): string { if f == "" then w else w + "." + f }

  predicate Plain(w: string, f: string, scale: nat) { |w| > 0 && AllDigits(w) && AllDigits(f) && |f| <= scale }

  predicate Means(s: string, scale: nat, minor: int, negative: bool, w: string, f: string) {
    && Plain(w, f, scale) && s == (if negative then "-" else "") + Body(w, f)
    && minor == if negative then 0 - Amount(w, f, scale) else Amount(w, f, scale)
  }

  /** The text is a decimal number worth exactly `minor` minor units. */
  ghost predicate Denotes(s: string, scale: nat, minor: int) {
    exists negative, w, f :: Means(s, scale, minor, negative, w, f)
  }

  lemma SameBody(w: string, f: string, w': string, f': string)
    requires AllDigits(w) && AllDigits(f) && AllDigits(w') && AllDigits(f') && Body(w, f) == Body(w', f')
    ensures w == w' && f == f'
  {
    var s := Body(w, f);
    assert |w| < |s| ==> s[|w|] == '.';
    assert |w'| < |s| ==> s[|w'|] == '.';
    assert |w| == |w'|;
    assert w == s[..|w|] && w' == s[..|w'|];
    if f != "" {
      assert s[|w| + 1..] == f;
    }
    if f' != "" {
      assert s[|w'| + 1..] == f';
    }
  }

  /** A text denotes at most one amount. */
  lemma OneMeaning(s: string, scale: nat, a: int, b: int)
    requires Denotes(s, scale, a) && Denotes(s, scale, b)
    ensures a == b
  {
    var n, w, f :| Means(s, scale, a, n, w, f);
    var n', w', f' :| Means(s, scale, b, n', w', f');
    assert n ==> s[0] == '-';
    assert n' ==> s[0] == '-';
    assert !n ==> s[0] == w[0];
    assert !n' ==> s[0] == w'[0];
    if n {
      assert s[1..] == Body(w, f) && s[1..] == Body(w', f');
    } else {
      assert s == Body(w, f) && s == Body(w', f');
    }
    SameBody(w, f, w', f');
  }

  // ---- what is written reads back --------------------------------------------------------------

  lemma {:induction false} PaddedWithZeros(n: nat, k: nat)
    requires n < Pow10(k) && k > 0
    ensures Zeros(k - |Digits(n)|) + Digits(n) == Padded(n, k)
  {
    if n < 10 {
      SmallPadded(n, k);
    } else {
      assert Pow10(1) == 10;
      assert k > 1;
      PaddedWithZeros(n / 10, k - 1);
      assert Zeros(k - |Digits(n)|) + Digits(n) == Zeros(k - 1 - |Digits(n / 10)|) + Digits(n / 10) + [DigitChar(n % 10)];
    }
  }

  lemma {:induction false} SmallPadded(n: nat, k: nat)
    requires n < 10 && k > 0
    ensures Padded(n, k) == Zeros(k - 1) + [DigitChar(n)]
  {
    if k > 1 {
      SmallPadded(0, k - 1);
      assert Padded(n / 10, k - 1) == Zeros(k - 1);
    } else {
      assert Padded(n / 10, 0) == "";
    }
  }

  lemma {:induction false} PaddedZero(k: nat)
    ensures Padded(0, k) == Zeros(k)
  {
    if k > 0 {
      PaddedZero(k - 1);
    }
  }

  function Divided(a: nat, b: nat): nat
    requires b > 0
  {
    a / b
  }

  function Leftover(a: nat, b: nat): nat
    requires b > 0
  {
    a % b
  }

  function Whole(minor: nat, scale: nat): nat { Divided(minor, Pow10(scale)) }

  function Rest(minor: nat, scale: nat): nat { Leftover(minor, Pow10(scale)) }

  lemma WholeAndRest(minor: nat, scale: nat)
    ensures Pow10(scale) > 0 && Rest(minor, scale) < Pow10(scale)
    ensures minor == Whole(minor, scale) * Pow10(scale) + Rest(minor, scale)
    ensures Quotient(minor, Pow10(scale)) == Whole(minor, scale) && Remainder(minor, Pow10(scale)) == Rest(minor, scale)
  {
    DivModOfNonnegative(minor, Pow10(scale));
    hide Pow10, Quotient, Remainder, Divided, Leftover;
  }

  lemma DivModOfNonnegative(a: nat, b: nat)
    requires b > 0
    ensures Quotient(a, b) == Divided(a, b) && Remainder(a, b) == Leftover(a, b)
    ensures Leftover(a, b) < b && a == Divided(a, b) * b + Leftover(a, b)
  {
  }

  /** A nonnegative amount is its whole part, a point and its padded rest. */
  lemma FormattedParts(minor: nat, scale: nat)
    requires scale > 0
    ensures Formatted(minor, Some(scale)) == Digits(Whole(minor, scale)) + "." + Padded(Rest(minor, scale), scale)
  {
    hide Digits, Padded, Pow10, Whole, Rest, Quotient, Remainder;
    WholeAndRest(minor, scale);
    PaddedWithZeros(Rest(minor, scale), scale);
  }

  lemma PartsMeanTheAmount(minor: nat, scale: nat)
    ensures var w, f := Digits(Whole(minor, scale)), Padded(Rest(minor, scale), scale);
            Plain(w, f, scale) && |f| == scale && Amount(w, f, scale) == minor
  {
    assert Pow10(0) == 1;
    hide Digits, Padded, Value, AllDigits, Whole, Rest, Pow10;
    WholeAndRest(minor, scale);
    ReadsDigits(Whole(minor, scale));
    ReadsPadded(Rest(minor, scale), scale);
  }

  lemma WholeNumberMeans(n: nat, negative: bool)
    ensures Means((if negative then "-" else "") + Digits(n), 0, if negative then 0 - n else n, negative, Digits(n), "")
  {
    ReadsDigits(n);
    assert Pow10(0) == 1 && Value("") == 0;
  }

  lemma NegativeParts(minor: int, scale: nat)
    requires minor < 0 && scale > 0
    ensures Quotient(minor, Pow10(scale)) == 0 - Whole(-minor, scale) && Remainder(minor, Pow10(scale)) == 0 - Rest(-minor, scale)
    ensures minor == 0 - (Whole(-minor, scale) * Pow10(scale) + Rest(-minor, scale))
  {
    WholeAndRest(-minor, scale);
    NegativeQuotient(minor, Pow10(scale));
    hide Pow10, Whole, Rest, Quotient, Remainder;
  }

  lemma NegativeQuotient(a: int, b: nat)
    requires a < 0 && b > 0
    ensures Quotient(a, b) == 0 - Quotient(-a, b) && Remainder(a, b) == 0 - Remainder(-a, b)
  {
  }

  /** A negative amount with a remainder carries a second sign, after the point. */
  lemma SecondSign(minor: int, scale: nat)
    requires minor < 0 && scale > 0 && Rest(-minor, scale) > 0
    ensures exists i :: 0 < i < |Formatted(minor, Some(scale))| && Formatted(minor, Some(scale))[i] == '-'
  {
    hide Digits, Zeros, Whole, Rest, Quotient, Remainder, Pow10, Signed;
    NegativeParts(minor, scale);
    var head := Signed(Quotient(minor, Pow10(scale))) + ".";
    var s := Formatted(minor, Some(scale));
    assert s == head + ZeroPadded(Remainder(minor, Pow10(scale)), scale);
    assert s[|head|] == '-';
  }

  lemma OneSignAtMost(s: string, scale: nat, minor: int)
    requires Denotes(s, scale, minor)
    ensures forall i :: 0 < i < |s| ==> s[i] != '-'
  {
    var n, w, f :| Means(s, scale, minor, n, w, f);
    assert forall i :: 0 <= i < |Body(w, f)| ==> Body(w, f)[i] == '.' || IsDigit(Body(w, f)[i]);
  }

  lemma {:induction false} ZerosAreNothing(k: nat)
    ensures AllDigits(Zeros(k)) && |Zeros(k)| == k && Value(Zeros(k)) == 0
  {
    if k > 0 {
      ZerosAreNothing(k - 1);
      assert Zeros(k)[..k - 1] == Zeros(k - 1);
    }
  }

  lemma ZerosAddNothing(whole: nat, scale: nat)
    ensures Plain(Digits(whole), Zeros(scale), scale) && Amount(Digits(whole), Zeros(scale), scale) == whole * Pow10(scale)
  {
    ReadsDigits(whole);
    ZerosAreNothing(scale);
    hide Digits, Zeros, Value, AllDigits, Pow10;
  }

  lemma ZeroPaddedZero(scale: nat)
    requires scale > 0
    ensures ZeroPadded(0, scale) == Zeros(scale)
  {
    assert Digits(0) == "0";
  }

  lemma NegativeWritten(minor: int, scale: nat, whole: nat)
    requires minor < 0 && scale > 0 && Quotient(minor, Pow10(scale)) == 0 - whole && Remainder(minor, Pow10(scale)) == 0
    requires whole > 0
    ensures Formatted(minor, Some(scale)) == "-" + Body(Digits(whole), Zeros(scale))
  {
    ZeroPaddedZero(scale);
    assert Zeros(scale) == Zeros(scale - 1) + "0";
    hide Quotient, Remainder, Digits, Zeros, Pow10, ZeroPadded;
    assert "-" + Digits(whole) + "." + Zeros(scale) == "-" + (Digits(whole) + "." + Zeros(scale));
  }

  lemma NegativeWithoutRest(minor: int, scale: nat)
    requires minor < 0 && scale > 0 && Rest(-minor, scale) == 0
    ensures Denotes(Formatted(minor, Some(scale)), scale, minor)
  {
    hide Digits, Zeros, Whole, Rest, Quotient, Remainder, Pow10, Value, AllDigits, Formatted, Amount, Plain;
    var whole := Whole(-minor, scale);
    NegativeParts(minor, scale);
    assert 0 * Pow10(scale) == 0;
    assert whole > 0;
    ZerosAddNothing(whole, scale);
    NegativeWritten(minor, scale, whole);
    assert Means(Formatted(minor, Some(scale)), scale, minor, true, Digits(whole), Zeros(scale));
  }

  /** Formatting reads back for every scale, except for a negative amount with a fractional part. */
  lemma ReadsBackExactlyWhen(minor: int, scale: nat)
    ensures Denotes(Formatted(minor, Some(scale)), scale, minor) <==> minor >= 0 || scale == 0 || Rest(-minor, scale) == 0
  {
    hide Means, Whole, Rest, Quotient, Remainder, Pow10, Digits, Padded;
    if scale == 0 {
      WholeNumberMeans(Abs(minor), minor < 0);
      WholeNumberWritten(minor);
    } else if minor >= 0 {
      FormattedParts(minor, scale);
      PartsMeanTheAmount(minor, scale);
      MeansParts(Formatted(minor, Some(scale)), scale, minor, Digits(Whole(minor, scale)), Padded(Rest(minor, scale), scale));
    } else if Rest(-minor, scale) == 0 {
      NegativeWithoutRest(minor, scale);
    } else {
      SecondSign(minor, scale);
      if Denotes(Formatted(minor, Some(scale)), scale, minor) {
        OneSignAtMost(Formatted(minor, Some(scale)), scale, minor);
      }
    }
  }

  lemma WholeNumberWritten(minor: int)
    ensures Formatted(minor, Some(0)) == (if minor < 0 then "-" else "") + Digits(Abs(minor))
  {
    hide Digits;
  }

  lemma MeansParts(s: string, scale: nat, minor: nat, w: string, f: string)
    requires Plain(w, f, scale) && Amount(w, f, scale) == minor && s == Body(w, f)
    ensures Means(s, scale, minor, false, w, f)
  {
  }

  // ---- grouping --------------------------------------------------------------------------------

  function WithoutCommas(s: string): string {
    if s == "" then "" else WithoutCommas(s[..|s| - 1]) + if s[|s| - 1] == ',' then "" else [s[|s| - 1]]
  }

  function GroupedWhole(whole: string): string {
    if |whole| <= 3 then whole else GroupedWhole(whole[..|whole| - 3]) + "," + whole[|whole| - 3..]
  }

  /** The text before the first point, and from it on. */
  function BeforePoint(s: string): string {
    if s == "" || s[0] == '.' then "" else [s[0]] + BeforePoint(s[1..])
  }

  function FromPoint(s: string): string {
    if s == "" || s[0] == '.' then s else FromPoint(s[1..])
  }

  function Grouped(s: string): string { GroupedWhole(BeforePoint(s)) + FromPoint(s) }

  predicate Free(s: string, c: char) { c !in s }

  /** `strings.Split` at the first point of a text with at most one. */
  lemma {:induction false} SplitsAtPoint(s: string)
    ensures BeforePoint(s) + FromPoint(s) == s && Free(BeforePoint(s), '.')
    ensures FromPoint(s) == "" || FromPoint(s)[0] == '.'
  {
    if s != "" && s[0] != '.' {
      SplitsAtPoint(s[1..]);
    }
  }

  lemma {:induction false} CommasAreDropped(a: string, b: string)
    ensures WithoutCommas(a + b) == WithoutCommas(a) + WithoutCommas(b)
  {
    if b == "" {
      assert a + b == a;
    } else {
      CommasAreDropped(a, b[..|b| - 1]);
      assert (a + b)[..|a + b| - 1] == a + b[..|b| - 1];
    }
  }

  lemma {:induction false} NothingToDrop(s: string)
    requires Free(s, ',')
    ensures WithoutCommas(s) == s
  {
    if s != "" {
      NothingToDrop(s[..|s| - 1]);
    }
  }

  lemma OneGroup(head: string, last: string)
    requires Free(last, ',')
    ensures WithoutCommas(head + "," + last) == WithoutCommas(head) + last
  {
    NothingToDrop(last);
    CommasAreDropped(head + ",", last);
    CommasAreDropped(head, ",");
    assert WithoutCommas(",") == "" + "";
    hide WithoutCommas;
    assert WithoutCommas(head) + "" == WithoutCommas(head);
  }

  lemma {:induction false} GroupedWholeReadsBack(w: string)
    requires Free(w, ',')
    ensures WithoutCommas(GroupedWhole(w)) == w
  {
    hide WithoutCommas;
    if |w| <= 3 {
      NothingToDrop(w);
    } else {
      var n := |w| - 3;
      GroupedWholeReadsBack(w[..n]);
      OneGroup(GroupedWhole(w[..n]), w[n..]);
      assert w == w[..n] + w[n..];
    }
  }

  /** Deleting the commas of a grouped amount gives the amount back. */
  lemma GroupedReadsBack(s: string)
    requires Free(s, ',')
    ensures WithoutCommas(Grouped(s)) == s
  {
    SplitsAtPoint(s);
    assert forall i :: 0 <= i < |BeforePoint(s)| ==> BeforePoint(s)[i] == s[i];
    assert forall i :: 0 <= i < |FromPoint(s)| ==> FromPoint(s)[i] == s[|BeforePoint(s)| + i];
    GroupedWholeReadsBack(BeforePoint(s));
    NothingToDrop(FromPoint(s));
    CommasAreDropped(GroupedWhole(BeforePoint(s)), FromPoint(s));
  }

  /** Counting from the end of the whole part, every fourth character is a comma and no other is. */
  lemma {:induction false} CommasEveryThree(w: string, i: nat)
    requires Free(w, ',') && i < |GroupedWhole(w)|
    ensures GroupedWhole(w)[|GroupedWhole(w)| - 1 - i] == ',' <==> i % 4 == 3
  {
    if |w| > 3 {
      var n := |w| - 3;
      var head := GroupedWhole(w[..n]);
      assert GroupedWhole(w) == head + "," + w[n..];
      if i >= 4 {
        CommasEveryThree(w[..n], i - 4);
        assert GroupedWhole(w)[|GroupedWhole(w)| - 1 - i] == head[|head| - 1 - (i - 4)];
      }
    }
  }

  method GroupedAmount(value: string) returns (r: string)
    ensures r == Grouped(value)
  {
    var whole := BeforePoint(value);
    SplitsAtPoint(value);
    if |whole| <= 3 { return value; }
    var tail := "";
    while |whole| > 3
      invariant GroupedWhole(BeforePoint(value)) == GroupedWhole(whole) + tail
    {
      tail := "," + whole[|whole| - 3..] + tail;
      whole := whole[..|whole| - 3];
    }
    r := whole + tail + FromPoint(value);
  }

  // ---- abbreviations ------------------------------------------------------------------------------

  predicate EndsWith(s: string, c: char) { s != "" && s[|s| - 1] == c }

  /** One zero less, and no point at the end. */
  function Shortened(s: string): string
    requires EndsWith(s, '0')
  {
    var t := s[..|s| - 1];
    if EndsWith(t, '.') then t[..|t| - 1] else t
  }

  function Abbreviations(s: string): seq<string>
    decreases |s|
  {
    if !EndsWith(s, '0') then [] else [Shortened(s)] + Abbreviations(Shortened(s))
  }

  function Values(canonical: string): seq<string> {
    if canonical == "" then []
    else [canonical] + if '.' in canonical then Abbreviations(canonical) else []
  }

  function WithGroups(values: seq<string>): set<string> {
    if values == [] then {}
    else
      var v := values[|values| - 1];
      WithGroups(values[..|values| - 1]) + {v, Grouped(v)}
  }

  function Representations(canonical: string): set<string> { WithGroups(Values(canonical)) }

  method AbbreviatedValues(canonical: string) returns (values: seq<string>)
    ensures values == Values(canonical)
  {
    if canonical == "" { return []; }
    values := [canonical];
    if '.' in canonical {
      var abbreviated := canonical;
      while EndsWith(abbreviated, '0')
        invariant values + Abbreviations(abbreviated) == [canonical] + Abbreviations(canonical)
        decreases |abbreviated|
      {
        ghost var before := abbreviated;
        abbreviated := abbreviated[..|abbreviated| - 1];
        if EndsWith(abbreviated, '.') {
          abbreviated := abbreviated[..|abbreviated| - 1];
        }
        assert abbreviated == Shortened(before);
        values := values + [abbreviated];
      }
    }
  }

  method AmountRepresentations(minor: int, scale: Option<nat>) returns (result: seq<string>)
    ensures (set r | r in result) == Representations(Formatted(minor, scale))
    ensures forall i, j :: 0 <= i < j < |result| ==> result[i] != result[j]
  {
    hide Formatted, Values, Grouped;
    var canonical := FormatMinorAmount(minor, scale);
    var values := AbbreviatedValues(canonical);
    result := [];
    for i := 0 to |values|
      invariant (set r | r in result) == WithGroups(values[..i])
      invariant forall a, b :: 0 <= a < b < |result| ==> result[a] != result[b]
    {
      assert values[..i + 1][..i] == values[..i];
      var grouped := GroupedAmount(values[i]);
      if values[i] !in result {
        result := result + [values[i]];
      }
      if grouped !in result {
        result := result + [grouped];
      }
    }
    assert values[..|values|] == values;
  }

  // ---- what the representations denote --------------------------------------------------------------

  /** Read the way a message is searched: commas do not count. */
  ghost predicate Stands(r: string, scale: nat, minor: int) { Denotes(WithoutCommas(r), scale, minor) }

  ghost predicate AllStand(rs: set<string>, scale: nat, minor: int) { forall r :: r in rs ==> Stands(r, scale, minor) }

  ghost predicate AllDenote(values: seq<string>, scale: nat, minor: int) {
    forall i :: 0 <= i < |values| ==> Denotes(values[i], scale, minor)
  }

  predicate CommaFree(values: seq<string>) { forall i :: 0 <= i < |values| ==> Free(values[i], ',') }

  lemma PairStands(v: string, scale: nat, minor: int)
    requires Free(v, ',')
    ensures AllStand({v, Grouped(v)}, scale, minor) <==> Denotes(v, scale, minor)
  {
    hide Denotes, Grouped, WithoutCommas;
    NothingToDrop(v);
    GroupedReadsBack(v);
    if AllStand({v, Grouped(v)}, scale, minor) {
      assert Stands(v, scale, minor);
    }
  }

  lemma BothStand(a: set<string>, b: set<string>, scale: nat, minor: int)
    ensures AllStand(a + b, scale, minor) <==> AllStand(a, scale, minor) && AllStand(b, scale, minor)
  {
    hide Stands;
    if AllStand(a + b, scale, minor) {
      assert forall r :: r in a ==> r in a + b;
      assert forall r :: r in b ==> r in a + b;
    }
  }

  lemma {:induction false} GroupsStandWithValues(values: seq<string>, scale: nat, minor: int)
    requires CommaFree(values)
    ensures AllStand(WithGroups(values), scale, minor) <==> AllDenote(values, scale, minor)
  {
    hide Denotes, Grouped, AllStand;
    if values == [] {
      NothingStands(scale, minor);
    } else {
      var n := |values| - 1;
      GroupsStandWithValues(values[..n], scale, minor);
      PairStands(values[n], scale, minor);
      BothStand(WithGroups(values[..n]), {values[n], Grouped(values[n])}, scale, minor);
      assert forall i :: 0 <= i < n ==> values[..n][i] == values[i];
    }
  }

  lemma NothingStands(scale: nat, minor: int)
    ensures AllStand({}, scale, minor)
  {
  }

  lemma {:induction false} AbbreviationsAreCommaFree(s: string)
    requires Free(s, ',')
    ensures CommaFree(Abbreviations(s))
    decreases |s|
  {
    if EndsWith(s, '0') {
      assert Free(Shortened(s), ',');
      AbbreviationsAreCommaFree(Shortened(s));
    }
  }

  /** Dropping a last zero of the fraction does not change the amount. */
  lemma ZeroDropped(w: string, f: string, scale: nat)
    requires Plain(w, f, scale) && EndsWith(f, '0')
    ensures var f' := f[..|f| - 1];
            && Plain(w, f', scale) && Amount(w, f', scale) == Amount(w, f, scale) && 10 * Value(f') == Value(f)
            && EndsWith(Body(w, f), '0') && Shortened(Body(w, f)) == Body(w, f')
  {
    var f' := f[..|f| - 1];
    assert Value(f) == 10 * Value(f');
    assert Pow10(scale - |f'|) == 10 * Pow10(scale - |f|);
    TimesTen(Value(f'), Pow10(scale - |f|));
    var s := Body(w, f);
    assert s[..|s| - 1] == w + "." + f';
    if f' == "" {
      assert s[..|s| - 1] == w + ".";
    }
  }

  lemma TimesTen(a: nat, b: nat)
    ensures (10 * a) * b == a * (10 * b)
  {
  }

  lemma NotZeroEnd(f: string)
    requires f != "" && AllDigits(f) && !EndsWith(f, '0')
    ensures Value(f) > 0
  {
  }

  lemma {:induction false} FractionChain(w: string, f: string, scale: nat)
    requires Plain(w, f, scale) && Value(f) > 0
    ensures AllDenote(Abbreviations(Body(w, f)), scale, Amount(w, f, scale))
    decreases |f|
  {
    if EndsWith(f, '0') {
      var f' := f[..|f| - 1];
      ZeroDropped(w, f, scale);
      MeansParts(Body(w, f'), scale, Amount(w, f, scale), w, f');
      assert Denotes(Body(w, f'), scale, Amount(w, f, scale));
      assert Abbreviations(Body(w, f)) == [Body(w, f')] + Abbreviations(Body(w, f'));
      hide Denotes, Abbreviations, AllDenote, Amount, Body;
      FractionChain(w, f', scale);
      HeadAndTail(Body(w, f'), Abbreviations(Body(w, f')), scale, Amount(w, f, scale));
    } else {
      assert Abbreviations(Body(w, f)) == [];
    }
  }

  /** The abbreviations end with those of the whole part, and all before them denote the amount. */
  ghost predicate RunsIntoWhole(chain: seq<string>, w: string, scale: nat, minor: int) {
    var n := |chain| - |Abbreviations(w)|;
    n >= 0 && chain[n..] == Abbreviations(w) && forall i :: 0 <= i < n ==> Denotes(chain[i], scale, minor)
  }

  lemma RunsLonger(chain: seq<string>, w: string, scale: nat, minor: int, s: string)
    requires RunsIntoWhole(chain, w, scale, minor) && Denotes(s, scale, minor)
    ensures RunsIntoWhole([s] + chain, w, scale, minor)
  {
    hide Denotes, Abbreviations;
    var n := |chain| - |Abbreviations(w)|;
    assert ([s] + chain)[n + 1..] == chain[n..];
  }

  lemma RunsItself(w: string, scale: nat, minor: int)
    ensures RunsIntoWhole(Abbreviations(w), w, scale, minor)
  {
  }

  /** A zero fraction is shortened down to the whole part, and on from there. */
  lemma {:induction false} WholeChain(w: string, f: string, scale: nat)
    requires Plain(w, f, scale) && f != "" && Value(f) == 0
    ensures RunsIntoWhole(Abbreviations(Body(w, f)), w, scale, Amount(w, f, scale))
    decreases |f|
  {
    if !EndsWith(f, '0') {
      NotZeroEnd(f);
    } else {
      var f', minor := f[..|f| - 1], Amount(w, f, scale);
      ZeroDropped(w, f, scale);
      MeansParts(Body(w, f'), scale, minor, w, f');
      assert Denotes(Body(w, f'), scale, minor);
      assert Abbreviations(Body(w, f)) == [Body(w, f')] + Abbreviations(Body(w, f'));
      hide Denotes, Abbreviations, RunsIntoWhole, Amount, Value;
      if f' != "" {
        WholeChain(w, f', scale);
      } else {
        RunsItself(w, scale, minor);
      }
      RunsLonger(Abbreviations(Body(w, f')), w, scale, minor, Body(w, f'));
    }
  }

  /** Once the point is gone, a further zero is a digit of the amount. */
  lemma TooShort(whole: nat, scale: nat)
    requires whole % 10 == 0
    ensures var w := Digits(whole);
            EndsWith(w, '0') && !Denotes(Shortened(w), scale, whole * Pow10(scale))
  {
    var w := Digits(whole);
    LastDigit(whole);
    ReadsDigits(whole);
    var shorter := w[..|w| - 1];
    assert AllDigits(shorter);
    assert Shortened(w) == shorter;
    if whole < 10 {
      assert shorter == "";
    } else {
      ReadsDigits(whole / 10);
      assert Value(shorter) == whole / 10;
    }
    if Denotes(shorter, scale, whole * Pow10(scale)) {
      var n, v, f :| Means(shorter, scale, whole * Pow10(scale), n, v, f);
      DigitsOnly(shorter, scale, whole * Pow10(scale), n, v, f);
      SmallerProduct(whole / 10, whole, Pow10(scale));
    }
  }

  lemma SignAndPoint(s: string, scale: nat, minor: int, negative: bool, w: string, f: string)
    requires Means(s, scale, minor, negative, w, f)
    ensures negative ==> '-' in s
    ensures f != "" ==> '.' in s
  {
    assert s == (if negative then "-" else "") + w + if f == "" then "" else "." + f;
  }

  lemma DigitsOnly(s: string, scale: nat, minor: int, negative: bool, w: string, f: string)
    requires Means(s, scale, minor, negative, w, f) && AllDigits(s)
    ensures s != "" && minor == Value(s) * Pow10(scale)
  {
    SignAndPoint(s, scale, minor, negative, w, f);
    assert !negative && f == "";
    assert s == w && Value("") == 0;
  }

  lemma SmallerProduct(a: nat, b: nat, p: nat)
    requires a < b && p > 0
    ensures a * p < b * p
  {
  }

  lemma WrittenWithoutCommas(w: string, f: string)
    requires AllDigits(w) && AllDigits(f)
    ensures Free(Body(w, f), ',')
  {
  }

  lemma HeadAndTail(head: string, tail: seq<string>, scale: nat, minor: int)
    ensures AllDenote([head] + tail, scale, minor) <==> Denotes(head, scale, minor) && AllDenote(tail, scale, minor)
  {
    hide Denotes;
    var all := [head] + tail;
    if AllDenote(all, scale, minor) {
      assert all[0] == head;
      assert forall i :: 0 <= i < |tail| ==> all[i + 1] == tail[i];
    }
  }

  lemma ValuesOfPoint(s: string)
    requires Free(s, ',') && '.' in s
    ensures Values(s) == [s] + Abbreviations(s) && CommaFree([s] + Abbreviations(s))
  {
    AbbreviationsAreCommaFree(s);
  }

  lemma ValuesStand(s: string, scale: nat, minor: int)
    requires Free(s, ',') && '.' in s
    ensures AllStand(Representations(s), scale, minor) <==>
            Denotes(s, scale, minor) && AllDenote(Abbreviations(s), scale, minor)
  {
    hide Denotes, Abbreviations, AllStand, AllDenote, WithGroups, Values, CommaFree;
    ValuesOfPoint(s);
    GroupsStandWithValues([s] + Abbreviations(s), scale, minor);
    HeadAndTail(s, Abbreviations(s), scale, minor);
  }

  lemma WholeChainStands(whole: nat, scale: nat, chain: seq<string>)
    requires RunsIntoWhole(chain, Digits(whole), scale, whole * Pow10(scale))
    ensures AllDenote(chain, scale, whole * Pow10(scale)) <==> whole % 10 != 0
  {
    var w, minor := Digits(whole), whole * Pow10(scale);
    LastDigit(whole);
    var n := |chain| - |Abbreviations(w)|;
    if whole % 10 == 0 {
      TooShort(whole, scale);
      assert chain[n..][0] == Shortened(w);
      assert chain[n] == Shortened(w);
    } else {
      assert Abbreviations(w) == [];
    }
  }

  /** Every representation denotes the amount, unless the amount is a whole one that ends in 0. */
  lemma AllRepresentationsStandExactlyWhen(minor: nat, scale: nat)
    ensures AllStand(Representations(Formatted(minor, Some(scale))), scale, minor) <==>
            !(scale > 0 && Rest(minor, scale) == 0 && Whole(minor, scale) % 10 == 0)
  {
    var s := Formatted(minor, Some(scale));
    if scale == 0 {
      WholeAmountStands(minor);
    } else {
      var w, f := Digits(Whole(minor, scale)), Padded(Rest(minor, scale), scale);
      FormattedParts(minor, scale);
      PartsMeanTheAmount(minor, scale);
      WholeAndRest(minor, scale);
      ReadsPadded(Rest(minor, scale), scale);
      hide Digits, Padded, Pow10, Whole, Rest, Representations, Abbreviations, Amount, AllStand, Formatted, RunsIntoWhole;
      assert s == Body(w, f) && s[|w|] == '.';
      WrittenWithoutCommas(w, f);
      MeansParts(s, scale, minor, w, f);
      ValuesStand(s, scale, minor);
      if Rest(minor, scale) > 0 {
        FractionChain(w, f, scale);
      } else {
        WholeChain(w, f, scale);
        WholeChainStands(Whole(minor, scale), scale, Abbreviations(s));
      }
    }
  }

  lemma WholeAmountStands(minor: nat)
    ensures AllStand(Representations(Formatted(minor, Some(0))), 0, minor)
  {
    var s := Digits(minor);
    ReadsDigits(minor);
    assert "" + s == s;
    WholeNumberMeans(minor, false);
    WrittenWithoutCommas(s, "");
    assert Values(s) == [s];
    GroupsStandWithValues([s], 0, minor);
  }

  lemma TenWritten()
    ensures Formatted(1000, Some(2)) == "10.00"
  {
    FormattedParts(1000, 2);
    assert Pow10(0) == 1 && Pow10(1) == 10 && Pow10(2) == 100;
    assert Whole(1000, 2) == 10 && Rest(1000, 2) == 0;
    assert Digits(1) == "1" && Digits(10) == "10";
    assert Padded(0, 0) == "" && Padded(0, 1) == "0" && Padded(0, 2) == "00";
  }

  lemma TenShortened()
    ensures Abbreviations("10.00") == ["10.0", "10", "1"]
  {
    assert Shortened("10.00") == "10.0" && Shortened("10.0") == "10" && Shortened("10") == "1";
    assert Abbreviations("1") == [];
    assert Abbreviations("10") == ["1"];
    assert Abbreviations("10.0") == ["10", "1"];
  }

  /** Ten units with two decimals are also searched as one. */
  lemma TenIsAlsoOne()
    ensures "1" in Representations(Formatted(1000, Some(2)))
  {
    TenWritten();
    TenShortened();
    hide Abbreviations, Formatted, Grouped;
    assert "10.00"[2] == '.';
    var values := ["10.00", "10.0", "10", "1"];
    assert Values("10.00") == values;
    assert values[..|values| - 1] == ["10.00", "10.0", "10"];
  }

  // ---- which forms are searched -----------------------------------------------------------------------

  lemma {:induction false} ListedWithGroups(values: seq<string>, v: string)
    requires v in values
    ensures v in WithGroups(values) && Grouped(v) in WithGroups(values)
  {
    var n := |values| - 1;
    if values[n] != v {
      assert values == values[..n] + [values[n]];
      ListedWithGroups(values[..n], v);
    }
  }

  lemma OneZeroLess(w: string, g: string, k: nat)
    requires k > 0 && AllDigits(g)
    ensures EndsWith(Body(w, g + Zeros(k)), '0') && Shortened(Body(w, g + Zeros(k))) == Body(w, g + Zeros(k - 1))
  {
    var f := g + Zeros(k - 1);
    assert g + Zeros(k) == f + "0";
    var s := Body(w, g + Zeros(k));
    assert s[..|s| - 1] == w + "." + f;
    if f == "" {
      assert s[..|s| - 1] == w + ".";
    } else {
      ZerosAreDigits(k - 1);
      assert (w + "." + f)[|w + "." + f| - 1] == f[|f| - 1];
    }
  }

  lemma {:induction false} ZerosAreDigits(k: nat)
    ensures AllDigits(Zeros(k))
  {
    if k > 0 {
      ZerosAreDigits(k - 1);
    }
  }

  lemma {:induction false} ShorterFormIsAnAbbreviation(w: string, g: string, k: nat)
    requires k > 0 && AllDigits(g)
    ensures Body(w, g) in Abbreviations(Body(w, g + Zeros(k)))
  {
    OneZeroLess(w, g, k);
    var s := Body(w, g + Zeros(k));
    assert Abbreviations(s) == [Shortened(s)] + Abbreviations(Shortened(s));
    if k == 1 {
      assert g + Zeros(0) == g && Shortened(s) == Body(w, g);
      assert ([Shortened(s)] + Abbreviations(Shortened(s)))[0] == Body(w, g);
    } else {
      ShorterFormIsAnAbbreviation(w, g, k - 1);
    }
  }

  /** With however many zeros of the fraction left out, the amount is searched, plain and grouped. */
  lemma EveryShorterFormIsSearched(w: string, g: string, k: nat)
    requires AllDigits(w) && w != "" && AllDigits(g) && (g != "" || k > 0)
    ensures Body(w, g) in Representations(Body(w, g + Zeros(k)))
    ensures Grouped(Body(w, g)) in Representations(Body(w, g + Zeros(k)))
  {
    var s := Body(w, g + Zeros(k));
    assert |g + Zeros(k)| > 0 by {
      assert k > 0 ==> Zeros(k) == Zeros(k - 1) + "0";
    }
    assert s == w + "." + (g + Zeros(k)) && s[|w|] == '.';
    if k == 0 {
      assert g + Zeros(0) == g;
      assert Values(s)[0] == Body(w, g);
    } else {
      ShorterFormIsAnAbbreviation(w, g, k);
    }
    hide Abbreviations, Grouped;
    ListedWithGroups(Values(s), Body(w, g));
  }

  /** Zeros, perhaps with the point among them. */
  predicate OnlyZeros(s: string) { forall i :: 0 <= i < |s| ==> s[i] == '0' || s[i] == '.' }

  predicate CutFrom(v: string, s: string) { v <= s && OnlyZeros(s[|v|..]) }

  lemma {:induction false} AbbreviationsAreCut(s: string, v: string)
    requires v in Abbreviations(s)
    ensures CutFrom(v, s)
    decreases |s|
  {
    var t := Shortened(s);
    assert CutFrom(t, s);
    if v != t {
      AbbreviationsAreCut(t, v);
      assert s[|v|..] == t[|v|..] + s[|t|..];
    }
  }

  lemma {:induction false} SearchedForms(values: seq<string>, r: string)
    requires r in WithGroups(values)
    ensures exists v :: v in values && (r == v || r == Grouped(v))
  {
    var n := |values| - 1;
    if r != values[n] && r != Grouped(values[n]) {
      SearchedForms(values[..n], r);
      var v :| v in values[..n] && (r == v || r == Grouped(v));
      assert v in values;
    } else {
      assert values[n] in values;
    }
  }

  /** Nothing else is searched: every form is the amount without some last zeros and point, plain or grouped. */
  lemma OnlyCutFormsAreSearched(s: string, r: string)
    requires r in Representations(s)
    ensures exists v :: CutFrom(v, s) && (r == v || r == Grouped(v))
  {
    hide Abbreviations, Grouped, CutFrom;
    SearchedForms(Values(s), r);
    var v :| v in Values(s) && (r == v || r == Grouped(v));
    if v == s {
      WholeIsCut(s);
    } else {
      AbbreviationsAreCut(s, v);
    }
  }

  lemma WholeIsCut(s: string)
    ensures CutFrom(s, s)
  {
  }
}
