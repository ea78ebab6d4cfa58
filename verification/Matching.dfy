/** Automatic reconciliation of parsed evidence with the ledger. */
module Matching {
  import opened Prelude
  import opened Text

  datatype Kind = Debit | Credit

  datatype Evidence = Evidence(cardLastFour: string, maskedBankReference: string)

  datatype KeyType = CardLastFour | BankAccountSuffix

  datatype Key = Key(keyType: KeyType, value: string)

  datatype AccountIdentity = AccountIdentity(id: string, user: string, keys: seq<Key>)

  /** `at` is None for the zero time. `restValid`: title, references, SGD amount and line items pass their own checks. */
  datatype Candidate = Candidate(
    user: string, kind: Kind, merchant: string, amount: int, currency: string, at: Option<Instant>,
    references: seq<string>, evidence: Evidence, confidence: real, autoEligible: bool, restValid: bool)

  datatype Transaction = Transaction(
    id: string, user: string, account: string, kind: Kind, merchant: string, amount: int, currency: string,
    at: Instant, references: seq<string>)

  datatype Outcome = Attach | Create | Review | Dangling

  datatype Reason =
    | NoAccountEvidence | NoOwnedAccount | SeveralAccounts | UniqueMatch | SeveralMatches | NotCorroborated
    | LowConfidence | ReliableUnmatched

  datatype Score = Score(account: nat, reference: nat, amount: nat, currency: nat, merchant: nat, time: nat)

  const NO_SCORE := Score(0, 0, 0, 0, 0, 0)

  datatype Decision = Decision(outcome: Outcome, account: string, txn: string, score: Score, reason: Reason)

  datatype Error = InvalidCandidate

  const MATCH_WINDOW := 10 * 60 * SECOND
  const MINIMUM_CREATE_CONFIDENCE := 0.75

  // ---- pure helpers ---------------------------------------------------------------------

  predicate IsIso4217(codes: set<string>, value: string) {
    TrimSpace(value) == Upper(TrimSpace(value)) && TrimSpace(value) in codes
  }

  predicate ValidCandidate(codes: set<string>, c: Candidate) {
    && TrimSpace(c.user) != "" && c.amount > 0 && IsIso4217(codes, c.currency) && c.at.Some?
    && 0.0 <= c.confidence <= 1.0 && c.restValid
  }

  predicate CurrenciesCompatible(left: string, right: string) {
    TrimSpace(left) == "" || TrimSpace(right) == "" || Lower(TrimSpace(left)) == Lower(TrimSpace(right))
  }

  predicate IsMask(c: char) { IsSpace(c) || c == '*' || c == '\U{2022}' || c == '-' }

  function Unmasked(s: string, letters: bool): string {
    if s == "" then ""
    else
      var rest := Unmasked(s[..|s| - 1], letters);
      var c := s[|s| - 1];
      if IsMask(c) || (letters && (c == 'x' || c == 'X')) then rest else rest + [c]
  }

  predicate AllDigits(s: string) { forall i :: 0 <= i < |s| ==> '0' <= s[i] <= '9' }

  /** The settings API and reconciliation share this contract; a full card number is refused, never truncated. */
  function NormalizedKey(keyType: KeyType, value: string): Option<Key> {
    match keyType
    case CardLastFour =>
      var digits := Unmasked(TrimSpace(value), true);
      if AllDigits(digits) && |digits| == 4 then Some(Key(keyType, digits)) else None
    case BankAccountSuffix =>
      var suffix := Unmasked(Lower(TrimSpace(value)), false);
      if 1 <= |suffix| <= 100 then Some(Key(keyType, suffix)) else None
  }

  function Listed<T>(o: Option<T>): seq<T> { if o.Some? then [o.value] else [] }

  function EvidenceKeys(e: Evidence): seq<Key> {
    Listed(NormalizedKey(CardLastFour, e.cardLastFour)) + Listed(NormalizedKey(BankAccountSuffix, e.maskedBankReference))
  }

  function NormalReference(value: string): string { Upper(TrimSpace(value)) }

  function NormalMerchant(value: string): string { TrimSpace(Collapse(Lower(TrimSpace(value)))) }

  predicate SharesReference(left: seq<string>, right: seq<string>) {
    exists i, j :: 0 <= i < |left| && 0 <= j < |right| && NormalReference(left[i]) != "" &&
      NormalReference(left[i]) == NormalReference(right[j])
  }

  // ---- the decision, on sets and multisets -------------------------------------------------

  predicate Identifies(keys: seq<Key>, a: AccountIdentity) { exists k :: k in keys && k in a.keys }

  predicate Owned(user: string, a: AccountIdentity) { a.user == user && TrimSpace(a.id) != "" }

  function MatchedAccounts(user: string, keys: seq<Key>, accounts: seq<AccountIdentity>): set<string> {
    set a | a in accounts && Owned(user, a) && Identifies(keys, a) :: a.id
  }

  predicate IsMatch(c: Candidate, account: string, t: Transaction) {
    && t.user == c.user && t.account == account && t.kind == c.kind && t.amount == c.amount
    && CurrenciesCompatible(c.currency, t.currency) && c.at.Some? && Abs(c.at.value - t.at) <= MATCH_WINDOW
  }

  function Matches(c: Candidate, account: string, ts: seq<Transaction>): seq<Transaction> {
    if ts == [] then []
    else Matches(c, account, ts[..|ts| - 1]) + if IsMatch(c, account, ts[|ts| - 1]) then [ts[|ts| - 1]] else []
  }

  function ScoreOf(c: Candidate, t: Transaction): Score {
    Score(
      50,
      if SharesReference(c.references, t.references) then 60 else 0,
      if c.amount == t.amount then 25 else 0,
      if c.currency == t.currency then 15 else 0,
      if NormalMerchant(c.merchant) != "" && NormalMerchant(c.merchant) == NormalMerchant(t.merchant) then 12 else 0,
      if c.at.Some? && Abs(c.at.value - t.at) <= MATCH_WINDOW then 15 else 0)
  }

  function Unresolved(outcome: Outcome, account: string, reason: Reason): Decision {
    Decision(outcome, account, "", NO_SCORE, reason)
  }

  function DecideFor(c: Candidate, account: string, matches: seq<Transaction>): Decision {
    if |matches| == 1 then Decision(Attach, account, matches[0].id, ScoreOf(c, matches[0]), UniqueMatch)
    else if |matches| > 1 then Unresolved(Review, account, SeveralMatches)
    else if !c.autoEligible then Unresolved(Review, account, NotCorroborated)
    else if c.confidence < MINIMUM_CREATE_CONFIDENCE then Unresolved(Review, account, LowConfidence)
    else Unresolved(Create, account, ReliableUnmatched)
  }

  function Decide(codes: set<string>, c: Candidate, accounts: seq<AccountIdentity>, ts: seq<Transaction>)
    : Result<Decision, Error>
  {
    if !ValidCandidate(codes, c) then Failure(InvalidCandidate) else
    var keys := EvidenceKeys(c.evidence);
    var matched := MatchedAccounts(c.user, keys, accounts);
    if keys == [] then Success(Unresolved(Dangling, "", NoAccountEvidence))
    else if matched == {} then Success(Unresolved(Dangling, "", NoOwnedAccount))
    else if |matched| > 1 then Success(Unresolved(Review, "", SeveralAccounts))
    else
      var account := Only(matched);
      Success(DecideFor(c, account, Matches(c, account, ts)))
  }

  lemma HasOnly<T>(s: set<T>)
    requires |s| == 1
    ensures exists x :: x in s && s == {x}
  {
    var x :| x in s;
    Singleton(s, x);
  }

  function Only<T(==)>(s: set<T>): (x: T)
    requires |s| == 1
    ensures s == {x}
  {
    HasOnly(s);
    var x :| x in s && s == {x};
    x
  }

  // ---- the decision as the code takes it, in loops --------------------------------------------

  method EvidenceMatchingKeys(e: Evidence) returns (keys: seq<Key>)
    ensures keys == EvidenceKeys(e)
  {
    keys := [];
    var values := [(CardLastFour, e.cardLastFour), (BankAccountSuffix, e.maskedBankReference)];
    for i := 0 to |values|
      invariant i == 0 ==> keys == []
      invariant i == 1 ==> keys == Listed(NormalizedKey(CardLastFour, e.cardLastFour))
      invariant i == 2 ==> keys == EvidenceKeys(e)
    {
      var normalized := NormalizedKey(values[i].0, values[i].1);
      if normalized.Some? {
        keys := keys + [normalized.value];
      }
    }
  }

  datatype AccountState = Missing | Unmatched | Ambiguous | Resolved(account: string)

  method ResolveAccount(user: string, e: Evidence, accounts: seq<AccountIdentity>) returns (state: AccountState)
    ensures var keys := EvidenceKeys(e);
            var matched := MatchedAccounts(user, keys, accounts);
            state == if keys == [] then Missing else if matched == {} then Unmatched
                     else if |matched| > 1 then Ambiguous else Resolved(Only(matched))
  {
    var keys := EvidenceMatchingKeys(e);
    if |keys| == 0 { return Missing; }
    var matched: set<string> := {};
    for i := 0 to |accounts|
      invariant matched == MatchedAccounts(user, keys, accounts[..i])
    {
      var account := accounts[i];
      if Owned(user, account) {
        var found := false;
        for k := 0 to |keys|
          invariant found <==> exists x :: x in keys[..k] && x in account.keys
        {
          for m := 0 to |account.keys|
            invariant found <==> (exists x :: x in keys[..k] && x in account.keys) || keys[k] in account.keys[..m]
          {
            if keys[k] == account.keys[m] {
              found := true;
            }
          }
          assert account.keys[..|account.keys|] == account.keys;
        }
        assert keys[..|keys|] == keys;
        if found {
          matched := matched + {account.id};
        }
      }
      assert accounts[..i + 1] == accounts[..i] + [account];
    }
    assert accounts[..|accounts|] == accounts;
    if |matched| == 0 { return Unmatched; }
    if |matched| > 1 { return Ambiguous; }
    state := Resolved(Only(matched));
  }

  method HasSharedReference(left: seq<string>, right: seq<string>) returns (shared: bool)
    ensures shared == SharesReference(left, right)
  {
    var seen: set<string> := {};
    for i := 0 to |left|
      invariant seen == set k | 0 <= k < i && NormalReference(left[k]) != "" :: NormalReference(left[k])
    {
      var normalized := NormalReference(left[i]);
      if normalized != "" {
        seen := seen + {normalized};
      }
    }
    for j := 0 to |right|
      invariant forall k :: 0 <= k < j ==> NormalReference(right[k]) !in seen
    {
      if NormalReference(right[j]) != "" && NormalReference(right[j]) in seen {
        return true;
      }
    }
    shared := false;
  }

  method ScoreCandidate(c: Candidate, t: Transaction) returns (score: Score)
    ensures score == ScoreOf(c, t)
  {
    score := NO_SCORE.(account := 50);
    var shared := HasSharedReference(c.references, t.references);
    if shared { score := score.(reference := 60); }
    if c.amount == t.amount { score := score.(amount := 25); }
    if c.currency == t.currency { score := score.(currency := 15); }
    if NormalMerchant(c.merchant) != "" && NormalMerchant(c.merchant) == NormalMerchant(t.merchant) {
      score := score.(merchant := 12);
    }
    if c.at.Some? && Abs(c.at.value - t.at) <= MATCH_WINDOW { score := score.(time := 15); }
  }

  method Reconcile(codes: set<string>, c: Candidate, accounts: seq<AccountIdentity>, transactions: seq<Transaction>)
    returns (r: Result<Decision, Error>)
    ensures r == Decide(codes, c, accounts, transactions)
  {
    if !ValidCandidate(codes, c) { return Failure(InvalidCandidate); }
    var state := ResolveAccount(c.user, c.evidence, accounts);
    match state
    case Missing => return Success(Unresolved(Dangling, "", NoAccountEvidence));
    case Unmatched => return Success(Unresolved(Dangling, "", NoOwnedAccount));
    case Ambiguous => return Success(Unresolved(Review, "", SeveralAccounts));
    case Resolved(account) =>
      var matches: seq<Transaction> := [];
      for i := 0 to |transactions|
        invariant matches == Matches(c, account, transactions[..i])
      {
        var t := transactions[i];
        assert transactions[..i + 1][..i] == transactions[..i];
        if t.user != c.user || t.account != account || t.kind != c.kind { continue; }
        if t.amount != c.amount || !CurrenciesCompatible(c.currency, t.currency) || Abs(c.at.value - t.at) > MATCH_WINDOW {
          continue;
        }
        matches := matches + [t];
      }
      assert transactions[..|transactions|] == transactions;
      if |matches| == 1 {
        var score := ScoreCandidate(c, matches[0]);
        return Success(Decision(Attach, account, matches[0].id, score, UniqueMatch));
      }
      if |matches| > 1 { return Success(Unresolved(Review, account, SeveralMatches)); }
      if !c.autoEligible { return Success(Unresolved(Review, account, NotCorroborated)); }
      if c.confidence < MINIMUM_CREATE_CONFIDENCE { return Success(Unresolved(Review, account, LowConfidence)); }
      r := Success(Unresolved(Create, account, ReliableUnmatched));
  }

  // ---- what the decision depends on --------------------------------------------------------------

  function OwnAccounts(user: string, accounts: seq<AccountIdentity>): seq<AccountIdentity> {
    if accounts == [] then []
    else
      var last := accounts[|accounts| - 1];
      OwnAccounts(user, accounts[..|accounts| - 1]) + if last.user == user then [last] else []
  }

  function OwnTransactions(user: string, ts: seq<Transaction>): seq<Transaction> {
    if ts == [] then []
    else OwnTransactions(user, ts[..|ts| - 1]) + if ts[|ts| - 1].user == user then [ts[|ts| - 1]] else []
  }

  lemma {:induction false} OwnAccountsAreThose(user: string, accounts: seq<AccountIdentity>, a: AccountIdentity)
    ensures a in OwnAccounts(user, accounts) <==> a in accounts && a.user == user
  {
    if accounts != [] {
      var n := |accounts| - 1;
      OwnAccountsAreThose(user, accounts[..n], a);
      assert accounts == accounts[..n] + [accounts[n]];
    }
  }

  lemma {:induction false} MatchCounts(c: Candidate, account: string, ts: seq<Transaction>, t: Transaction)
    ensures multiset(Matches(c, account, ts))[t] == if IsMatch(c, account, t) then multiset(ts)[t] else 0
  {
    if ts != [] {
      var n := |ts| - 1;
      MatchCounts(c, account, ts[..n], t);
      assert ts == ts[..n] + [ts[n]];
    }
  }

  lemma {:induction false} OwnCounts(user: string, ts: seq<Transaction>, t: Transaction)
    ensures multiset(OwnTransactions(user, ts))[t] == if t.user == user then multiset(ts)[t] else 0
  {
    if ts != [] {
      var n := |ts| - 1;
      OwnCounts(user, ts[..n], t);
      assert ts == ts[..n] + [ts[n]];
    }
  }

  lemma SameOwnSameMatches(c: Candidate, account: string, ts: seq<Transaction>, ts': seq<Transaction>)
    requires multiset(OwnTransactions(c.user, ts)) == multiset(OwnTransactions(c.user, ts'))
    ensures multiset(Matches(c, account, ts)) == multiset(Matches(c, account, ts'))
  {
    forall t
      ensures multiset(Matches(c, account, ts))[t] == multiset(Matches(c, account, ts'))[t]
    {
      MatchCounts(c, account, ts, t);
      MatchCounts(c, account, ts', t);
      OwnCounts(c.user, ts, t);
      OwnCounts(c.user, ts', t);
    }
  }

  lemma SameMultisetSameDecision(c: Candidate, account: string, ms: seq<Transaction>, ms': seq<Transaction>)
    requires multiset(ms) == multiset(ms')
    ensures DecideFor(c, account, ms) == DecideFor(c, account, ms')
  {
    assert |ms| == |multiset(ms)| == |multiset(ms')| == |ms'|;
    if |ms| == 1 {
      assert ms == [ms[0]] && ms' == [ms'[0]];
      assert ms[0] in multiset(ms');
    }
  }

  /** The decision sees only the user's own rows, in no particular order: other users' rows and the order of both lists do not matter. */
  lemma OnlyOwnRowsInAnyOrder(
    codes: set<string>, c: Candidate, accounts: seq<AccountIdentity>, accounts': seq<AccountIdentity>,
    ts: seq<Transaction>, ts': seq<Transaction>)
    requires multiset(OwnAccounts(c.user, accounts)) == multiset(OwnAccounts(c.user, accounts'))
    requires multiset(OwnTransactions(c.user, ts)) == multiset(OwnTransactions(c.user, ts'))
    ensures Decide(codes, c, accounts, ts) == Decide(codes, c, accounts', ts')
  {
    var keys := EvidenceKeys(c.evidence);
    forall a
      ensures a in accounts && a.user == c.user <==> a in accounts' && a.user == c.user
    {
      OwnAccountsAreThose(c.user, accounts, a);
      OwnAccountsAreThose(c.user, accounts', a);
      assert a in OwnAccounts(c.user, accounts) <==> a in multiset(OwnAccounts(c.user, accounts));
      assert a in OwnAccounts(c.user, accounts') <==> a in multiset(OwnAccounts(c.user, accounts'));
    }
    assert MatchedAccounts(c.user, keys, accounts) == MatchedAccounts(c.user, keys, accounts');
    var matched := MatchedAccounts(c.user, keys, accounts);
    if |matched| == 1 {
      SameOwnSameMatches(c, Only(matched), ts, ts');
      SameMultisetSameDecision(c, Only(matched), Matches(c, Only(matched), ts), Matches(c, Only(matched), ts'));
    }
  }

  lemma NoMatchMeansNone(c: Candidate, account: string, ts: seq<Transaction>)
    ensures Matches(c, account, ts) == [] <==> forall i :: 0 <= i < |ts| ==> !IsMatch(c, account, ts[i])
  {
    forall t
      ensures t in Matches(c, account, ts) <==> t in ts && IsMatch(c, account, t)
    {
      MatchCounts(c, account, ts, t);
      assert t in ts <==> t in multiset(ts);
      assert t in Matches(c, account, ts) <==> t in multiset(Matches(c, account, ts));
    }
    if Matches(c, account, ts) != [] {
      assert Matches(c, account, ts)[0] in ts;
    }
  }


  lemma CreatesWhenNothingMatches(codes: set<string>, c: Candidate, accounts: seq<AccountIdentity>, ts: seq<Transaction>)
    ensures var r, matched := Decide(codes, c, accounts, ts), MatchedAccounts(c.user, EvidenceKeys(c.evidence), accounts);
            (r.Success? && r.value.outcome == Create) <==>
            (&& ValidCandidate(codes, c) && |matched| == 1
             && (forall i :: 0 <= i < |ts| ==> !IsMatch(c, Only(matched), ts[i]))
             && c.autoEligible && c.confidence >= MINIMUM_CREATE_CONFIDENCE)
  {
    var keys := EvidenceKeys(c.evidence);
    var matched := MatchedAccounts(c.user, keys, accounts);
    if keys == [] {
      assert matched == {};
    }
    if |matched| == 1 {
      NoMatchMeansNone(c, Only(matched), ts);
    }
  }
}
