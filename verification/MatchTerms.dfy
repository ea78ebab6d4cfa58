/**
 * What automatic reconciliation decides, in terms of the rows' own columns: user, account, kind, amount, currency and
 * time. Nothing here refers to the predicates the decision is computed with.
 */
module MatchTerms {
  import opened Prelude
  import opened Text
  import opened Matching

  // ---- keys ------------------------------------------------------------------------------

  predicate Separator(c: char, letters: bool) {
    Blank(c) || c == '*' || c == '\U{2022}' || c == '-' || (letters && (c == 'x' || c == 'X'))
  }

  /** The text without its masking characters. */
  function Stripped(s: string, letters: bool): string {
    if s == "" then ""
    else if Separator(s[0], letters) then Stripped(s[1..], letters)
    else [s[0]] + Stripped(s[1..], letters)
  }

  lemma {:induction false} StrippedJoins(a: string, b: string, letters: bool)
    ensures Stripped(a + b, letters) == Stripped(a, letters) + Stripped(b, letters)
  {
    if a == "" {
      assert a + b == b;
    } else {
      StrippedJoins(a[1..], b, letters);
      assert (a + b)[1..] == a[1..] + b;
    }
  }

  lemma {:induction false} BlanksStripToNothing(s: string, letters: bool)
    requires AllBlank(s)
    ensures Stripped(s, letters) == ""
  {
    if s != "" {
      BlanksStripToNothing(s[1..], letters);
    }
  }

  lemma {:induction false} UnmaskedIsStripped(s: string, letters: bool)
    ensures Unmasked(s, letters) == Stripped(s, letters)
  {
    if s != "" {
      var n := |s| - 1;
      UnmaskedIsStripped(s[..n], letters);
      StrippedJoins(s[..n], [s[n]], letters);
      assert s == s[..n] + [s[n]];
      assert [s[n]][1..] == "";
    }
  }

  lemma TrimmingStripsNothing(s: string, letters: bool)
    ensures Stripped(TrimSpace(s), letters) == Stripped(s, letters)
  {
    var i, j := TrimSpaceIs(s);
    hide TrimSpace;
    BlanksStripToNothing(s[..i], letters);
    BlanksStripToNothing(s[j..], letters);
    StrippedJoins(s[..i], s[i..j], letters);
    StrippedJoins(s[..i] + s[i..j], s[j..], letters);
    assert s == s[..i] + s[i..j] + s[j..];
  }

  lemma LowerTrims(s: string)
    ensures Stripped(Lower(TrimSpace(s)), false) == Stripped(Lower(s), false)
  {
    var i, j := TrimSpaceIs(s);
    hide TrimSpace;
    assert Lower(s[i..j]) == Lower(s)[i..j];
    assert Lower(s) == Lower(s)[..i] + Lower(s)[i..j] + Lower(s)[j..];
    assert AllBlank(Lower(s)[..i]) by {
      forall k | 0 <= k < i
        ensures Blank(Lower(s)[k])
      {
        assert Blank(s[..i][k]);
      }
    }
    assert AllBlank(Lower(s)[j..]) by {
      forall k | 0 <= k < |s| - j
        ensures Blank(Lower(s)[j..][k])
      {
        assert Blank(s[j..][k]);
      }
    }
    BlanksStripToNothing(Lower(s)[..i], false);
    BlanksStripToNothing(Lower(s)[j..], false);
    StrippedJoins(Lower(s)[..i], Lower(s)[i..j], false);
    StrippedJoins(Lower(s)[..i] + Lower(s)[i..j], Lower(s)[j..], false);
  }

  /** Four digits, and nothing but masking characters around them: a longer card number is no key at all. */
  predicate CardKey(text: string, value: string) {
    |value| == 4 && value == Stripped(text, true) && forall i :: 0 <= i < 4 ==> 48 <= value[i] as int <= 57
  }

  /** One to a hundred characters, in lower case, without the mask. */
  predicate SuffixKey(text: string, value: string) { 1 <= |value| <= 100 && value == Stripped(Lower(text), false) }

  predicate NormalForm(keyType: KeyType, text: string, value: string) {
    if keyType == KeyType.CardLastFour then CardKey(text, value) else SuffixKey(text, value)
  }

  /** A text has a key iff it has that form, and then that key alone. */
  lemma KeyExactly(keyType: KeyType, text: string, value: string)
    ensures NormalizedKey(keyType, text) == Some(Key(keyType, value)) <==> NormalForm(keyType, text, value)
    ensures NormalizedKey(keyType, text).Some? ==> NormalizedKey(keyType, text).value.keyType == keyType
  {
    UnmaskedIsStripped(TrimSpace(text), true);
    TrimmingStripsNothing(text, true);
    UnmaskedIsStripped(Lower(TrimSpace(text)), false);
    LowerTrims(text);
    hide TrimSpace, Lower, Stripped, Unmasked;
  }

  // ---- the account ---------------------------------------------------------------------------

  function ClueFor(e: Evidence, keyType: KeyType): string {
    if keyType == KeyType.CardLastFour then e.cardLastFour else e.maskedBankReference
  }

  /** The user's own account, with a key that one of the two clues names. */
  predicate NamedBy(user: string, e: Evidence, a: AccountIdentity) {
    && a.user == user && !AllBlank(a.id)
    && exists k :: 0 <= k < |a.keys| && NormalForm(a.keys[k].keyType, ClueFor(e, a.keys[k].keyType), a.keys[k].value)
  }

  predicate Candidates(user: string, e: Evidence, accounts: seq<AccountIdentity>, id: string) {
    exists i :: 0 <= i < |accounts| && accounts[i].id == id && NamedBy(user, e, accounts[i])
  }

  ghost predicate OnlyCandidate(user: string, e: Evidence, accounts: seq<AccountIdentity>, id: string) {
    Candidates(user, e, accounts, id) && forall other :: Candidates(user, e, accounts, other) ==> other == id
  }

  lemma EvidenceHas(e: Evidence, k: Key)
    ensures k in EvidenceKeys(e) <==> NormalForm(k.keyType, ClueFor(e, k.keyType), k.value)
  {
    hide NormalForm, NormalizedKey;
    KeyExactly(k.keyType, ClueFor(e, k.keyType), k.value);
    KeyExactly(KeyType.CardLastFour, e.cardLastFour, k.value);
    KeyExactly(KeyType.BankAccountSuffix, e.maskedBankReference, k.value);
  }

  lemma NamedExactly(user: string, e: Evidence, a: AccountIdentity)
    ensures Owned(user, a) && Identifies(EvidenceKeys(e), a) <==> NamedBy(user, e, a)
  {
    TrimsToNothing(a.id);
    forall k: Key
      ensures k in EvidenceKeys(e) <==> NormalForm(k.keyType, ClueFor(e, k.keyType), k.value)
    {
      EvidenceHas(e, k);
    }
    hide TrimSpace, EvidenceKeys, NormalForm, ClueFor, AllBlank;
    if Identifies(EvidenceKeys(e), a) {
      var k :| k in EvidenceKeys(e) && k in a.keys;
      var i :| 0 <= i < |a.keys| && a.keys[i] == k;
      assert NormalForm(a.keys[i].keyType, ClueFor(e, a.keys[i].keyType), a.keys[i].value);
    }
    if i :| 0 <= i < |a.keys| && NormalForm(a.keys[i].keyType, ClueFor(e, a.keys[i].keyType), a.keys[i].value) {
      assert a.keys[i] in EvidenceKeys(e) && a.keys[i] in a.keys;
    }
  }

  lemma MatchedAreCandidates(user: string, e: Evidence, accounts: seq<AccountIdentity>, id: string)
    ensures id in MatchedAccounts(user, EvidenceKeys(e), accounts) <==> Candidates(user, e, accounts, id)
  {
    hide Owned, Identifies, NamedBy, EvidenceKeys;
    forall i | 0 <= i < |accounts|
      ensures Owned(user, accounts[i]) && Identifies(EvidenceKeys(e), accounts[i]) <==> NamedBy(user, e, accounts[i])
    {
      NamedExactly(user, e, accounts[i]);
    }
    var matched := MatchedAccounts(user, EvidenceKeys(e), accounts);
    if id in matched {
      var a :| a in accounts && Owned(user, a) && Identifies(EvidenceKeys(e), a) && a.id == id;
      var i :| 0 <= i < |accounts| && accounts[i] == a;
      assert NamedBy(user, e, accounts[i]);
    }
    if i :| 0 <= i < |accounts| && accounts[i].id == id && NamedBy(user, e, accounts[i]) {
      assert accounts[i] in accounts;
    }
  }

  lemma OneMatchedAccount(user: string, e: Evidence, accounts: seq<AccountIdentity>)
    ensures var matched := MatchedAccounts(user, EvidenceKeys(e), accounts);
            && (matched == {} <==> forall id :: !Candidates(user, e, accounts, id))
            && (|matched| == 1 ==> OnlyCandidate(user, e, accounts, Only(matched)))
            && (forall id :: OnlyCandidate(user, e, accounts, id) ==> |matched| == 1 && Only(matched) == id)
  {
    hide Candidates, MatchedAccounts, EvidenceKeys;
    var matched := MatchedAccounts(user, EvidenceKeys(e), accounts);
    forall id
      ensures id in matched <==> Candidates(user, e, accounts, id)
    {
      MatchedAreCandidates(user, e, accounts, id);
    }
    forall id | OnlyCandidate(user, e, accounts, id)
      ensures |matched| == 1 && Only(matched) == id
    {
      assert matched == {id};
    }
  }

  // ---- the transaction ---------------------------------------------------------------------------

  /** Equal up to outer blanks and case, or missing on one side. */
  predicate CurrenciesAgree(a: string, b: string) {
    AllBlank(a) || AllBlank(b) || SameLetters(TrimSpace(a), TrimSpace(b))
  }

  /** The user's row of that account, direction and exact amount, at most ten minutes away. */
  predicate SamePayment(c: Candidate, account: string, t: Transaction) {
    && t.user == c.user && t.account == account && t.kind == c.kind && t.amount == c.amount
    && CurrenciesAgree(c.currency, t.currency)
    && c.at.Some? && -600_000_000 <= t.at - c.at.value <= 600_000_000
  }

  lemma MatchExactly(c: Candidate, account: string, t: Transaction)
    ensures IsMatch(c, account, t) <==> SamePayment(c, account, t)
  {
    TrimsToNothing(c.currency);
    TrimsToNothing(t.currency);
    FoldsAlikeExactly(TrimSpace(c.currency), TrimSpace(t.currency));
    hide TrimSpace, Lower, Upper, SameLetters, AllBlank;
  }

  predicate MatchesAt(c: Candidate, account: string, ts: seq<Transaction>, at: seq<nat>) {
    && (forall k, l :: 0 <= k < l < |at| ==> at[k] < at[l])
    && (forall k :: 0 <= k < |at| ==> at[k] < |ts|)
    && forall p :: 0 <= p < |ts| ==> (p in at <==> IsMatch(c, account, ts[p]))
  }

  predicate Picks(ts: seq<Transaction>, at: seq<nat>, picked: seq<Transaction>) {
    |at| == |picked| && forall k :: 0 <= k < |at| ==> at[k] < |ts| && ts[at[k]] == picked[k]
  }

  lemma MatchesAtExtends(c: Candidate, account: string, ts: seq<Transaction>, before: seq<nat>, at: seq<nat>)
    requires ts != [] && MatchesAt(c, account, ts[..|ts| - 1], before)
    requires at == if IsMatch(c, account, ts[|ts| - 1]) then before + [|ts| - 1] else before
    ensures MatchesAt(c, account, ts, at)
  {
    hide IsMatch;
    var n := |ts| - 1;
    forall p | 0 <= p < |ts|
      ensures p in at <==> IsMatch(c, account, ts[p])
    {
      if p < n {
        assert p in before <==> IsMatch(c, account, ts[..n][p]);
        assert p in at <==> p in before;
      } else {
        assert n !in before;
      }
    }
  }

  lemma PicksExtends(ts: seq<Transaction>, before: seq<nat>, picked: seq<Transaction>)
    requires ts != [] && Picks(ts[..|ts| - 1], before, picked)
    ensures Picks(ts, before, picked) && Picks(ts, before + [|ts| - 1], picked + [ts[|ts| - 1]])
  {
    assert forall p :: 0 <= p < |ts| - 1 ==> ts[..|ts| - 1][p] == ts[p];
  }

  lemma {:induction false} MatchPositions(c: Candidate, account: string, ts: seq<Transaction>) returns (at: seq<nat>)
    ensures MatchesAt(c, account, ts, at) && Picks(ts, at, Matches(c, account, ts))
  {
    at := [];
    if ts != [] {
      var n := |ts| - 1;
      var before := MatchPositions(c, account, ts[..n]);
      at := if IsMatch(c, account, ts[n]) then before + [n] else before;
      MatchesAtExtends(c, account, ts, before, at);
      PicksExtends(ts, before, Matches(c, account, ts[..n]));
      hide MatchesAt, Picks, IsMatch;
    }
  }

  predicate NoneFits(c: Candidate, account: string, ts: seq<Transaction>) {
    forall i :: 0 <= i < |ts| ==> !SamePayment(c, account, ts[i])
  }

  predicate OnlyFits(c: Candidate, account: string, ts: seq<Transaction>, k: int) {
    0 <= k < |ts| && SamePayment(c, account, ts[k]) && forall i :: 0 <= i < |ts| && i != k ==> !SamePayment(c, account, ts[i])
  }

  predicate TwoFit(c: Candidate, account: string, ts: seq<Transaction>) {
    exists i, k :: 0 <= i < k < |ts| && SamePayment(c, account, ts[i]) && SamePayment(c, account, ts[k])
  }

  lemma HowManyFit(c: Candidate, account: string, ts: seq<Transaction>) returns (k: int)
    ensures |Matches(c, account, ts)| == 0 <==> NoneFits(c, account, ts)
    ensures |Matches(c, account, ts)| == 1 ==> OnlyFits(c, account, ts, k) && Matches(c, account, ts)[0] == ts[k]
    ensures (exists i :: OnlyFits(c, account, ts, i)) ==> |Matches(c, account, ts)| == 1
    ensures |Matches(c, account, ts)| > 1 <==> TwoFit(c, account, ts)
  {
    var at := MatchPositions(c, account, ts);
    forall i | 0 <= i < |ts|
      ensures IsMatch(c, account, ts[i]) <==> SamePayment(c, account, ts[i])
    {
      MatchExactly(c, account, ts[i]);
    }
    hide IsMatch, SamePayment, Matches;
    k := if |at| == 0 then 0 else at[0];
    if |at| > 0 {
      assert at[0] in at;
    }
    if |at| > 1 {
      assert at[0] in at && at[1] in at;
      assert SamePayment(c, account, ts[at[0]]) && SamePayment(c, account, ts[at[1]]);
    }
  }

  // ---- the decision ---------------------------------------------------------------------------------

  /** The checks on a candidate, its other fields aside. */
  predicate WellFormed(codes: set<string>, c: Candidate) {
    && !AllBlank(c.user) && c.amount > 0 && c.at.Some? && 0.0 <= c.confidence <= 1.0 && c.restValid
    && TrimSpace(c.currency) in codes
    && forall i :: 0 <= i < |TrimSpace(c.currency)| ==> !(97 <= TrimSpace(c.currency)[i] as int <= 122)
  }

  lemma WellFormedExactly(codes: set<string>, c: Candidate)
    ensures ValidCandidate(codes, c) <==> WellFormed(codes, c)
  {
    TrimsToNothing(c.user);
    CaseForms(TrimSpace(c.currency));
    hide TrimSpace, Upper, AllBlank, Lower;
  }

  /** A refused candidate is one that fails its checks. */
  lemma RefusedExactlyWhen(codes: set<string>, c: Candidate, accounts: seq<AccountIdentity>, ts: seq<Transaction>)
    ensures Decide(codes, c, accounts, ts).Failure? <==> !WellFormed(codes, c)
  {
    WellFormedExactly(codes, c);
    hide ValidCandidate, WellFormed, MatchedAccounts, EvidenceKeys, DecideFor;
  }

  /** How a candidate with one account is decided. */
  lemma DecidedFor(codes: set<string>, c: Candidate, accounts: seq<AccountIdentity>, ts: seq<Transaction>, account: string)
    requires WellFormed(codes, c) && OnlyCandidate(c.user, c.evidence, accounts, account)
    ensures Decide(codes, c, accounts, ts) == Success(DecideFor(c, account, Matches(c, account, ts)))
  {
    WellFormedExactly(codes, c);
    OneMatchedAccount(c.user, c.evidence, accounts);
    var keys := EvidenceKeys(c.evidence);
    assert keys == [] ==> MatchedAccounts(c.user, keys, accounts) == {};
    hide ValidCandidate, WellFormed, MatchedAccounts, EvidenceKeys, DecideFor, OnlyCandidate, Matches;
  }

  /** How a candidate with no account, or with several, is decided. */
  lemma UndecidedAccount(codes: set<string>, c: Candidate, accounts: seq<AccountIdentity>, ts: seq<Transaction>)
    requires WellFormed(codes, c) && forall account :: !OnlyCandidate(c.user, c.evidence, accounts, account)
    ensures var r := Decide(codes, c, accounts, ts);
            && r.Success? && r.value.account == "" && r.value.txn == ""
            && if forall id :: !Candidates(c.user, c.evidence, accounts, id)
               then r.value.outcome == Dangling
               else r.value.outcome == Review && r.value.reason == SeveralAccounts
  {
    WellFormedExactly(codes, c);
    OneMatchedAccount(c.user, c.evidence, accounts);
    var keys := EvidenceKeys(c.evidence);
    assert keys == [] ==> MatchedAccounts(c.user, keys, accounts) == {};
    hide ValidCandidate, WellFormed, MatchedAccounts, EvidenceKeys, DecideFor, OnlyCandidate, Matches, Candidates;
  }

  /** Points for what agrees besides the account: references, amount, currency as written, merchant and time. */
  predicate ScoredOnTerms(c: Candidate, t: Transaction, score: Score) {
    && score.account == 50 && score.amount == 25 && score.time == 15
    && score.currency == (if c.currency == t.currency then 15 else 0)
    && score.reference ==
       (if exists i, j :: 0 <= i < |c.references| && 0 <= j < |t.references| && !AllBlank(c.references[i]) &&
                          SameLetters(TrimSpace(c.references[i]), TrimSpace(t.references[j])) then 60 else 0)
    && score.merchant ==
       (if Words(c.merchant) != [] && SameLetters(Spaced(Words(c.merchant)), Spaced(Words(t.merchant))) then 12 else 0)
  }

  lemma ReferenceAgrees(a: string, b: string)
    ensures NormalReference(a) != "" && NormalReference(a) == NormalReference(b) <==>
            !AllBlank(a) && SameLetters(TrimSpace(a), TrimSpace(b))
  {
    TrimsToNothing(a);
    FoldsAlikeExactly(TrimSpace(a), TrimSpace(b));
    assert |NormalReference(a)| == |TrimSpace(a)|;
    hide TrimSpace, Upper, Lower, SameLetters, AllBlank;
  }

  lemma MerchantAgrees(a: string, b: string)
    ensures NormalMerchant(a) != "" && NormalMerchant(a) == NormalMerchant(b) <==>
            Words(a) != [] && SameLetters(Spaced(Words(a)), Spaced(Words(b)))
  {
    NormalTextIsItsWords(Lower(TrimSpace(a)));
    NormalTextIsItsWords(Lower(TrimSpace(b)));
    LowerWords(a);
    LowerWords(b);
    WordsAreEdged(a);
    FoldsAlikeExactly(Spaced(Words(a)), Spaced(Words(b)));
    assert Words(a) == [] ==> Spaced(Words(a)) == "";
    assert |Lower(Spaced(Words(a)))| == |Spaced(Words(a))|;
    hide TrimSpace, Words, Spaced, Lower, Upper, SameLetters, Collapse;
  }

  lemma ScoreExactly(c: Candidate, account: string, t: Transaction)
    requires SamePayment(c, account, t)
    ensures ScoredOnTerms(c, t, ScoreOf(c, t))
  {
    MerchantAgrees(c.merchant, t.merchant);
    forall i, j | 0 <= i < |c.references| && 0 <= j < |t.references|
      ensures NormalReference(c.references[i]) != "" && NormalReference(c.references[i]) == NormalReference(t.references[j]) <==>
              !AllBlank(c.references[i]) && SameLetters(TrimSpace(c.references[i]), TrimSpace(t.references[j]))
    {
      ReferenceAgrees(c.references[i], t.references[j]);
    }
    hide TrimSpace, Words, Spaced, SameLetters, AllBlank, NormalReference, NormalMerchant, CurrenciesAgree;
  }

  /**
   * Evidence is attached iff exactly one account is named and exactly one position of the ledger holds the same
   * payment within ten minutes, and then to that transaction.
   */
  lemma AttachesExactlyWhen(codes: set<string>, c: Candidate, accounts: seq<AccountIdentity>, ts: seq<Transaction>)
    ensures var r := Decide(codes, c, accounts, ts);
            && (r.Success? && r.value.outcome == Attach <==>
                  WellFormed(codes, c) && exists account, k ::
                    OnlyCandidate(c.user, c.evidence, accounts, account) && OnlyFits(c, account, ts, k))
            && (forall account, k ::
                  WellFormed(codes, c) && OnlyCandidate(c.user, c.evidence, accounts, account) && OnlyFits(c, account, ts, k) ==>
                    r.value.account == account && r.value.txn == ts[k].id && ScoredOnTerms(c, ts[k], r.value.score))
  {
    RefusedExactlyWhen(codes, c, accounts, ts);
    hide Decide, WellFormed, SamePayment, ScoredOnTerms, Matches, OnlyCandidate, Candidates;
    if WellFormed(codes, c) {
      if account :| OnlyCandidate(c.user, c.evidence, accounts, account) {
        DecidedFor(codes, c, accounts, ts, account);
        var k := HowManyFit(c, account, ts);
        SameOnly(c, accounts, account);
        if |Matches(c, account, ts)| == 1 {
          ScoreExactly(c, account, ts[k]);
        }
        hide ScoreOf;
      } else {
        UndecidedAccount(codes, c, accounts, ts);
      }
    }
  }

  lemma SameOnly(c: Candidate, accounts: seq<AccountIdentity>, account: string)
    requires OnlyCandidate(c.user, c.evidence, accounts, account)
    ensures forall other :: OnlyCandidate(c.user, c.evidence, accounts, other) ==> other == account
  {
    hide Candidates;
  }

  /** A transaction is created iff one account is named, no position holds the payment, and the evidence is good enough. */
  lemma CreatesExactlyWhen(codes: set<string>, c: Candidate, accounts: seq<AccountIdentity>, ts: seq<Transaction>)
    ensures var r := Decide(codes, c, accounts, ts);
            && (r.Success? && r.value.outcome == Create <==>
                  && WellFormed(codes, c) && c.autoEligible && c.confidence >= 0.75
                  && exists account ::
                       OnlyCandidate(c.user, c.evidence, accounts, account) && NoneFits(c, account, ts))
            && (r.Success? && r.value.outcome == Create ==>
                  OnlyCandidate(c.user, c.evidence, accounts, r.value.account) && NoneFits(c, r.value.account, ts))
  {
    RefusedExactlyWhen(codes, c, accounts, ts);
    hide Decide, WellFormed, NoneFits, Matches, OnlyCandidate, Candidates;
    if WellFormed(codes, c) {
      if account :| OnlyCandidate(c.user, c.evidence, accounts, account) {
        DecidedFor(codes, c, accounts, ts, account);
        var k := HowManyFit(c, account, ts);
        SameOnly(c, accounts, account);
      } else {
        UndecidedAccount(codes, c, accounts, ts);
      }
    }
  }

  /** A user is asked for one of four reasons, each with its exact condition. */
  lemma ReviewsExactlyWhen(codes: set<string>, c: Candidate, accounts: seq<AccountIdentity>, ts: seq<Transaction>)
    ensures var r := Decide(codes, c, accounts, ts);
            r.Success? && r.value.outcome == Review <==>
            && WellFormed(codes, c)
            && (|| (exists a, b ::
                      a != b && Candidates(c.user, c.evidence, accounts, a) && Candidates(c.user, c.evidence, accounts, b))
                || exists account :: OnlyCandidate(c.user, c.evidence, accounts, account) &&
                     (TwoFit(c, account, ts) || (NoneFits(c, account, ts) && (!c.autoEligible || c.confidence < 0.75))))
  {
    RefusedExactlyWhen(codes, c, accounts, ts);
    hide Decide, WellFormed, NoneFits, TwoFit, Matches, Candidates;
    if WellFormed(codes, c) {
      if account :| OnlyCandidate(c.user, c.evidence, accounts, account) {
        DecidedFor(codes, c, accounts, ts, account);
        var k := HowManyFit(c, account, ts);
        SameOnly(c, accounts, account);
      } else {
        UndecidedAccount(codes, c, accounts, ts);
        if a :| Candidates(c.user, c.evidence, accounts, a) {
          assert !OnlyCandidate(c.user, c.evidence, accounts, a);
        }
      }
    }
  }

  /** Without a named account nothing is created or attached, and the evidence is left dangling. */
  lemma DanglesExactlyWhen(codes: set<string>, c: Candidate, accounts: seq<AccountIdentity>, ts: seq<Transaction>)
    ensures var r := Decide(codes, c, accounts, ts);
            r.Success? && r.value.outcome == Dangling <==>
            WellFormed(codes, c) && forall id :: !Candidates(c.user, c.evidence, accounts, id)
  {
    RefusedExactlyWhen(codes, c, accounts, ts);
    hide Decide, WellFormed, Matches, Candidates;
    if WellFormed(codes, c) {
      if account :| OnlyCandidate(c.user, c.evidence, accounts, account) {
        DecidedFor(codes, c, accounts, ts, account);
      } else {
        UndecidedAccount(codes, c, accounts, ts);
      }
    }
  }

  /** Evidence is never attached to a transaction more than ten minutes away, however equal the two are. */
  lemma FarPurchasesStayApart(codes: set<string>, c: Candidate, accounts: seq<AccountIdentity>, ts: seq<Transaction>)
    requires c.at.Some? && Decide(codes, c, accounts, ts).Success? && Decide(codes, c, accounts, ts).value.outcome == Attach
    ensures exists k :: 0 <= k < |ts| && ts[k].id == Decide(codes, c, accounts, ts).value.txn &&
              ts[k].user == c.user && ts[k].kind == c.kind && ts[k].amount == c.amount &&
              Abs(ts[k].at - c.at.value) <= 10 * 60 * 1_000_000
  {
    AttachesExactlyWhen(codes, c, accounts, ts);
    hide Decide, WellFormed, OnlyCandidate, ScoredOnTerms, CurrenciesAgree;
    var account, k :| OnlyCandidate(c.user, c.evidence, accounts, account) && OnlyFits(c, account, ts, k);
    assert SamePayment(c, account, ts[k]);
  }
}
