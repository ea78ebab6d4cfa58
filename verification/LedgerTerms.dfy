/** What the two automatic writers put into the ledger, in terms of the rows' own columns and of microseconds. */
module LedgerTerms {
  import opened Prelude
  import opened Matching
  import opened MatchTerms
  import opened LedgerCreation

  // ---- Gmail: the day around the evidence is enough -------------------------------------------

  function AllTransactions(entries: seq<Entry>): seq<Transaction> {
    if entries == [] then [] else AllTransactions(entries[..|entries| - 1]) + [entries[|entries| - 1].txn]
  }

  lemma {:induction false} NearKeepsMatches(c: Candidate, account: string, entries: seq<Entry>)
    requires c.at.Some?
    ensures Matches(c, account, Near(entries, c.user, c.at.value)) == Matches(c, account, AllTransactions(entries))
  {
    if entries != [] {
      var n := |entries| - 1;
      var x := entries[n].txn;
      NearKeepsMatches(c, account, entries[..n]);
      MatchesOfOneMore(c, account, Near(entries[..n], c.user, c.at.value), x);
      MatchesOfOneMore(c, account, AllTransactions(entries[..n]), x);
      assert IsMatch(c, account, x) ==> x.user == c.user && Abs(x.at - c.at.value) <= WINDOW;
      hide IsMatch, Matches;
    }
  }

  lemma MatchesOfOneMore(c: Candidate, account: string, ts: seq<Transaction>, x: Transaction)
    ensures Matches(c, account, ts + [x]) == Matches(c, account, ts) + if IsMatch(c, account, x) then [x] else []
    ensures Matches(c, account, ts) == Matches(c, account, ts + [])
  {
    assert (ts + [x])[..|ts|] == ts && ts + [] == ts;
  }

  /** Deciding on the rows of the day around the evidence is deciding on the whole ledger. */
  lemma WindowLosesNothing(codes: set<string>, c: Candidate, accounts: seq<AccountIdentity>, entries: seq<Entry>)
    ensures c.at.Some? ==>
              Decide(codes, c, accounts, Near(entries, c.user, c.at.value)) ==
              Decide(codes, c, accounts, AllTransactions(entries))
    ensures c.at == None ==> Decide(codes, c, accounts, AllTransactions(entries)).Failure?
  {
    var matched := MatchedAccounts(c.user, EvidenceKeys(c.evidence), accounts);
    if c.at.Some? && |matched| == 1 {
      NearKeepsMatches(c, Only(matched), entries);
    }
    hide Matches, MatchedAccounts, EvidenceKeys, Near;
  }

  /** The row a candidate becomes: its own facts, on the account it names, made without a user. */
  predicate MadeFrom(e: Entry, id: string, c: Candidate, account: string) {
    && e.txn.id == id && e.txn.user == c.user && e.txn.account == account && e.txn.kind == c.kind
    && e.txn.merchant == c.merchant && e.txn.amount == c.amount && e.txn.currency == c.currency && Some(e.txn.at) == c.at
    && e.txn.references == c.references && e.auto && !e.modified && e.lineItems == ""
  }

  /**
   * Persisting stores one row at most, and only for a parsed source without evidence in the ledger, when a decision
   * taken again on the whole ledger is to create; the source is then linked to that row and to nothing else.
   */
  lemma PersistCreatesOnTerms(t: Tables, source: Id, c: Candidate, taken: Decision, id: string)
    requires PersistEffect(t, source, c, taken, id).Success?
    ensures var after := PersistEffect(t, source, c, taken, id).value;
            var again := Decide(t.codes, c, t.accounts, AllTransactions(t.entries));
            && (after.entries != t.entries <==>
                  && source in t.sources && t.sources[source] == Parsed && (forall l :: l in t.links ==> l.source != source)
                  && taken.outcome == Create && again.Success? && again.value.outcome == Create)
            && (after.entries != t.entries ==>
                  && |after.entries| == |t.entries| + 1 && after.entries[..|t.entries|] == t.entries
                  && MadeFrom(after.entries[|t.entries|], id, c, again.value.account)
                  && after.links == t.links + {Link(id, source, None)} && after.sources == t.sources)
            && after.candidates == t.candidates
  {
    WindowLosesNothing(t.codes, c, t.accounts, t.entries);
    hide Decide, Near, AllTransactions;
    if c.at.Some? {
      assert |t.entries + [NewEntry(id, c, "")]| == |t.entries| + 1;
    }
  }

  /** Evidence is attached to an existing row of the user, or makes a row, or a person is asked, or it is left dangling. */
  lemma PersistOtherwise(t: Tables, source: Id, c: Candidate, taken: Decision, id: string)
    requires source in t.sources && t.sources[source] == Parsed && (forall l :: l in t.links ==> l.source != source)
    requires c.at.Some?
    ensures var r := PersistEffect(t, source, c, taken, id);
            var again := Decide(t.codes, c, t.accounts, AllTransactions(t.entries));
            var final := if taken.outcome == Create then again else Success(taken);
            match final
            case Failure(_) => r == Failure(Invalid)
            case Success(d) =>
              match d.outcome
              case Attach =>
                if exists i :: 0 <= i < |t.entries| && t.entries[i].txn.id == d.txn && t.entries[i].txn.user == c.user
                then r == Success(t.(links := t.links + {Link(d.txn, source, None)}))
                else r == Failure(NotOwned)
              case Create => r.Success? && |r.value.entries| == |t.entries| + 1
              case Review => r == Success(t.(sources := t.sources[source := ReviewRequired]))
              case Dangling => r == Success(t.(sources := t.sources[source := DanglingSource]))
  {
    WindowLosesNothing(t.codes, c, t.accounts, t.entries);
    hide Decide, Near, AllTransactions;
  }

  // ---- bulk documents ------------------------------------------------------------------------------

  /** The user's row of that account, direction and exact amount, in the same currency or none, on that UTC day. */
  predicate SameDayPayment(r: BulkRow, t: Transaction) {
    && t.user == r.user && t.account == r.account && t.kind == r.kind && t.amount == r.amount
    && (t.currency == r.currency || t.currency == "")
    && r.on * 86_400_000_000 <= t.at < (r.on + 1) * 86_400_000_000
  }

  lemma BulkMatchExactly(r: BulkRow, t: Transaction)
    ensures BulkMatch(r, t) <==> SameDayPayment(r, t)
  {
  }

  predicate BulkMatchesAt(r: BulkRow, entries: seq<Entry>, at: seq<nat>) {
    && (forall k, l :: 0 <= k < l < |at| ==> at[k] < at[l])
    && (forall k :: 0 <= k < |at| ==> at[k] < |entries|)
    && forall p :: 0 <= p < |entries| ==> (p in at <==> BulkMatch(r, entries[p].txn))
  }

  predicate PicksEntries(entries: seq<Entry>, at: seq<nat>, picked: seq<Entry>) {
    |at| == |picked| && forall k :: 0 <= k < |at| ==> at[k] < |entries| && entries[at[k]] == picked[k]
  }

  lemma BulkMatchesAtExtends(r: BulkRow, entries: seq<Entry>, before: seq<nat>, at: seq<nat>)
    requires entries != [] && BulkMatchesAt(r, entries[..|entries| - 1], before)
    requires at == if BulkMatch(r, entries[|entries| - 1].txn) then before + [|entries| - 1] else before
    ensures BulkMatchesAt(r, entries, at)
  {
    hide BulkMatch;
    var n := |entries| - 1;
    forall p | 0 <= p < |entries|
      ensures p in at <==> BulkMatch(r, entries[p].txn)
    {
      if p < n {
        assert p in before <==> BulkMatch(r, entries[..n][p].txn);
        assert p in at <==> p in before;
      } else {
        assert n !in before;
      }
    }
  }

  lemma PicksOneMore(entries: seq<Entry>, before: seq<nat>, picked: seq<Entry>)
    requires entries != [] && PicksEntries(entries[..|entries| - 1], before, picked)
    ensures PicksEntries(entries, before, picked)
    ensures PicksEntries(entries, before + [|entries| - 1], picked + [entries[|entries| - 1]])
  {
    assert forall p :: 0 <= p < |entries| - 1 ==> entries[..|entries| - 1][p] == entries[p];
  }

  lemma {:induction false} BulkMatchPositions(r: BulkRow, entries: seq<Entry>) returns (at: seq<nat>)
    ensures BulkMatchesAt(r, entries, at) && PicksEntries(entries, at, BulkMatches(r, entries))
  {
    at := [];
    if entries != [] {
      var n := |entries| - 1;
      var before := BulkMatchPositions(r, entries[..n]);
      at := if BulkMatch(r, entries[n].txn) then before + [n] else before;
      BulkMatchesAtExtends(r, entries, before, at);
      PicksOneMore(entries, before, BulkMatches(r, entries[..n]));
      hide BulkMatchesAt, PicksEntries, BulkMatch;
    }
  }

  predicate OnlySameDay(r: BulkRow, entries: seq<Entry>, k: int) {
    && 0 <= k < |entries| && SameDayPayment(r, entries[k].txn)
    && forall i :: 0 <= i < |entries| && i != k ==> !SameDayPayment(r, entries[i].txn)
  }

  predicate NoneSameDay(r: BulkRow, entries: seq<Entry>) {
    forall i :: 0 <= i < |entries| ==> !SameDayPayment(r, entries[i].txn)
  }

  lemma HowManySameDay(r: BulkRow, entries: seq<Entry>) returns (k: int)
    ensures |BulkMatches(r, entries)| == 0 <==> NoneSameDay(r, entries)
    ensures |BulkMatches(r, entries)| == 1 ==> OnlySameDay(r, entries, k) && BulkMatches(r, entries)[0] == entries[k]
    ensures forall i :: OnlySameDay(r, entries, i) ==> |BulkMatches(r, entries)| == 1 && i == k
  {
    var at := BulkMatchPositions(r, entries);
    forall i | 0 <= i < |entries|
      ensures BulkMatch(r, entries[i].txn) <==> SameDayPayment(r, entries[i].txn)
    {
      BulkMatchExactly(r, entries[i].txn);
    }
    hide BulkMatch, SameDayPayment, BulkMatches;
    k := if |at| == 0 then 0 else at[0];
    if |at| > 0 {
      assert at[0] in at;
    }
    if |at| > 1 {
      assert at[0] in at && at[1] in at;
    }
  }

  /** On a Card statement, money goes out by activity, fee and interest, and comes in by refund and payment. */
  predicate Plausible(r: BulkRow) {
    && !r.possibleTransfer
    && (r.cardBill ==>
          || (r.kind == Debit && (r.lineKind == Activity || r.lineKind == Fee || r.lineKind == Interest))
          || (r.kind == Credit && (r.lineKind == Refund || r.lineKind == Payment)))
  }

  predicate ItemsAgree(r: BulkRow, e: Entry) { r.lineItems == "" || e.lineItems == "" || r.lineItems == e.lineItems }

  predicate BulkAttaches(t: Tables, r: BulkRow, k: int) {
    && Plausible(r) && OnlySameDay(r, t.entries, k) && ItemsAgree(r, t.entries[k])
    && (r.cardBill && r.lineKind == Payment ==> t.entries[k].txn.id in t.payments)
  }

  predicate BulkCreates(t: Tables, r: BulkRow) {
    Plausible(r) && NoneSameDay(r, t.entries) && !r.cardBill && r.autoEligible && r.confidence >= 0.75
  }

  lemma BulkDecidesOnTerms(t: Tables, r: BulkRow)
    ensures BulkDecision(t, r).ToAttach? <==> exists k :: BulkAttaches(t, r, k)
    ensures forall k :: BulkAttaches(t, r, k) ==> BulkDecision(t, r) == ToAttach(t.entries[k].txn.id)
    ensures BulkDecision(t, r).ToCreate? <==> BulkCreates(t, r)
  {
    var k := HowManySameDay(r, t.entries);
    hide SameDayPayment, BulkMatches, NoneSameDay, OnlySameDay;
    if BulkDecision(t, r).ToAttach? {
      assert |BulkMatches(r, t.entries)| == 1 && OnlySameDay(r, t.entries, k);
      hide BulkDecision;
      OnlyIsThere(r, t.entries, k);
      assert BulkAttaches(t, r, k);
    }
    forall i | BulkAttaches(t, r, i)
      ensures BulkDecision(t, r) == ToAttach(t.entries[i].txn.id)
    {
      OnlyIsThere(r, t.entries, i);
    }
  }

  lemma OnlyIsThere(r: BulkRow, entries: seq<Entry>, k: int)
    requires OnlySameDay(r, entries, k)
    ensures 0 <= k < |entries|
  {
  }

  /** The row a bulk candidate becomes, at noon of its day. */
  predicate MadeFromBulk(e: Entry, id: string, r: BulkRow) {
    && e.txn.id == id && e.txn.user == r.user && e.txn.account == r.account && e.txn.kind == r.kind
    && e.txn.amount == r.amount && e.txn.currency == r.currency && e.txn.at == r.on * 86_400_000_000 + 43_200_000_000
    && e.txn.merchant == "" && e.txn.references == [] && e.auto && !e.modified && e.lineItems == r.lineItems
  }

  /** The transaction has no evidence of another candidate of this document's source. */
  predicate FreeFor(t: Tables, txn: string, source: Id, candidate: Id) {
    forall l :: l in t.links && l.txn == txn && l.source == source ==> l.candidate == Some(candidate)
  }

  predicate Stored(was: Tables, now: Tables, candidate: Id, status: BulkStatus) {
    && candidate in was.candidates
    && now.candidates == was.candidates[candidate := was.candidates[candidate].(status := status)]
    && now.sources == was.sources && now.accounts == was.accounts && now.live == was.live && now.payments == was.payments
    && now.codes == was.codes
  }

  /**
   * A pending candidate of the current generation is attached to the one row of its day, or becomes a new row at
   * noon, or waits for review; a transaction another candidate of the source has, or a deleted account, refuses it.
   */
  lemma BulkReconcilesOnTerms(t: Tables, candidate: Id, generation: int, id: string)
    requires candidate in t.candidates && t.candidates[candidate].generation == generation
    requires t.candidates[candidate].status == Pending
    ensures var r, e := t.candidates[candidate], BulkEffect(t, candidate, generation, id);
            && (forall k :: BulkAttaches(t, r, k) ==>
                  var txn := t.entries[k].txn.id;
                  if !FreeFor(t, txn, r.source, candidate) then e == Failure(Conflict)
                  else
                    && e.Success? && Stored(t, e.value, candidate, AttachedStatus) && e.value.entries == t.entries
                    && e.value.links == t.links + {Link(txn, r.source, Some(candidate))})
            && (BulkCreates(t, r) ==>
                  if r.account !in t.live then e == Failure(NotFound)
                  else if !FreeFor(t, id, r.source, candidate) then e == Failure(Conflict)
                  else
                    && e.Success? && Stored(t, e.value, candidate, CreatedStatus)
                    && e.value.links == t.links + {Link(id, r.source, Some(candidate))}
                    && |e.value.entries| == |t.entries| + 1 && e.value.entries[..|t.entries|] == t.entries
                    && MadeFromBulk(e.value.entries[|t.entries|], id, r))
            && ((forall k :: !BulkAttaches(t, r, k)) && !BulkCreates(t, r) ==>
                  && e.Success? && Stored(t, e.value, candidate, ReviewStatus)
                  && e.value.entries == t.entries && e.value.links == t.links)
  {
    BulkDecidesOnTerms(t, t.candidates[candidate]);
    hide BulkDecision, BulkCreates, BulkAttaches;
    var r := t.candidates[candidate];
    forall k | BulkAttaches(t, r, k)
      ensures 0 <= k < |t.entries|
    {
      AttachesAtRow(t, r, k);
    }
  }

  lemma AttachesAtRow(t: Tables, r: BulkRow, k: int)
    requires BulkAttaches(t, r, k)
    ensures 0 <= k < |t.entries|
  {
  }

  /** Anything already decided, unknown or of another generation is left as it is. */
  lemma DecidedStaysDecided(t: Tables, candidate: Id, generation: int, id: string)
    requires candidate in t.candidates ==>
               t.candidates[candidate].generation != generation || t.candidates[candidate].status != Pending
    ensures BulkEffect(t, candidate, generation, id) == Success(t)
  {
  }
}
