/** The two automatic writers of the ledger, Gmail evidence and bulk documents, over one store. */
module LedgerCreation {
  import opened Prelude
  import opened Matching

  /** `auto`: made without a user. `modified`: a user has edited it since. */
  datatype Entry = Entry(txn: Transaction, auto: bool, modified: bool, lineItems: string)

  datatype SourceStatus = Unparsed | Parsed | ReviewRequired | DanglingSource

  datatype BulkStatus = Pending | CreatedStatus | AttachedStatus | ReviewStatus | OtherStatus

  datatype LineKind = Activity | Refund | Fee | Interest | Payment | Summary

  datatype BulkRow = BulkRow(
    user: string, status: BulkStatus, generation: int, source: Id, cardBill: bool, account: string, kind: Kind, amount: int,
    currency: string, on: Day, lineKind: LineKind, possibleTransfer: bool, autoEligible: bool, confidence: real,
    lineItems: string)

  datatype Link = Link(txn: string, source: Id, candidate: Option<Id>)

  /** `live`: accounts not deleted. `payments`: Card credits that are legs of an exact Bank-to-Card transfer. */
  datatype Tables = Tables(
    entries: seq<Entry>, sources: map<Id, SourceStatus>, candidates: map<Id, BulkRow>, links: set<Link>,
    accounts: seq<AccountIdentity>, live: set<string>, payments: set<string>, codes: set<string>)

  datatype StoreError = NotFound | Conflict | Invalid | NotOwned

  // ---- Gmail: a decision taken earlier is persisted ------------------------------------------

  const WINDOW := WHOLE_DAY

  /** The user's transactions within a day of the evidence. */
  function Near(entries: seq<Entry>, user: string, at: Instant): seq<Transaction> {
    if entries == [] then []
    else
      var last := entries[|entries| - 1].txn;
      Near(entries[..|entries| - 1], user, at) + if last.user == user && Abs(last.at - at) <= WINDOW then [last] else []
  }

  predicate Linked(links: set<Link>, source: Id) { exists l :: l in links && l.source == source }

  predicate Exists(entries: seq<Entry>, id: string, user: string) {
    exists i :: 0 <= i < |entries| && entries[i].txn.id == id && entries[i].txn.user == user
  }

  /** A create is decided again on the tables as they stand; any other decision is used as it was taken. */
  function FinalDecision(t: Tables, c: Candidate, decision: Decision): Result<Decision, Error> {
    if decision.outcome != Create then Success(decision)
    else Decide(t.codes, c, t.accounts, Near(t.entries, c.user, if c.at.Some? then c.at.value else 0))
  }

  function NewEntry(id: string, c: Candidate, account: string): Entry
    requires c.at.Some?
  {
    Entry(Transaction(id, c.user, account, c.kind, c.merchant, c.amount, c.currency, c.at.value, c.references),
          true, false, "")
  }

  function PersistEffect(
    t: Tables, source: Id, c: Candidate, decision: Decision, id: string): Result<Tables, StoreError> {
    if source !in t.sources then Failure(NotFound)
    else if t.sources[source] != Parsed || Linked(t.links, source) then Success(t) else
    var final := FinalDecision(t, c, decision);
    if final.Failure? then Failure(Invalid) else
    match final.value.outcome
    case Attach =>
      if !Exists(t.entries, final.value.txn, c.user) then Failure(NotOwned)
      else Success(t.(links := t.links + {Link(final.value.txn, source, None)}))
    case Create =>
      if c.at == None then Failure(Invalid) else
      Success(t.(entries := t.entries + [NewEntry(id, c, final.value.account)], links := t.links + {Link(id, source, None)}))
    case Review => Success(t.(sources := t.sources[source := ReviewRequired]))
    case Dangling => Success(t.(sources := t.sources[source := DanglingSource]))
  }

  // ---- bulk documents ----------------------------------------------------------------------------

  predicate BulkMatch(r: BulkRow, t: Transaction) {
    && t.user == r.user && t.account == r.account && t.kind == r.kind && t.amount == r.amount
    && (t.currency == r.currency || t.currency == "") && DayOf(t.at) == r.on
  }

  function BulkMatches(r: BulkRow, entries: seq<Entry>): seq<Entry> {
    if entries == [] then []
    else
      var last := entries[|entries| - 1];
      BulkMatches(r, entries[..|entries| - 1]) + if BulkMatch(r, last.txn) then [last] else []
  }

  predicate ItemsConflict(r: BulkRow, e: Entry) { r.lineItems != "" && e.lineItems != "" && r.lineItems != e.lineItems }

  predicate DirectionFits(kind: LineKind, direction: Kind) {
    match kind
    case Activity => direction == Debit
    case Fee => direction == Debit
    case Interest => direction == Debit
    case Refund => direction == Credit
    case Payment => direction == Credit
    case Summary => false
  }

  datatype BulkOutcome = ToReview | ToAttach(txn: string) | ToCreate

  function BulkDecision(t: Tables, r: BulkRow): BulkOutcome {
    var ms := BulkMatches(r, t.entries);
    if r.possibleTransfer || (r.cardBill && !DirectionFits(r.lineKind, r.kind)) then ToReview
    else if |ms| > 1 || (|ms| == 1 && ItemsConflict(r, ms[0])) then ToReview
    else if |ms| == 1 then
      if r.cardBill && r.lineKind == Payment && ms[0].txn.id !in t.payments then ToReview else ToAttach(ms[0].txn.id)
    else if r.cardBill || !r.autoEligible || r.confidence < MINIMUM_CREATE_CONFIDENCE then ToReview
    else ToCreate
  }

  /** The evidence of a candidate goes to a transaction that has none from the same source, or its own. */
  predicate MayAttach(links: set<Link>, txn: string, r: BulkRow, candidate: Id) {
    forall l :: l in links && l.txn == txn && l.source == r.source ==> l.candidate == Some(candidate)
  }

  function Attached(t: Tables, candidate: Id, txn: string, status: BulkStatus): Tables
    requires candidate in t.candidates
  {
    var r := t.candidates[candidate];
    t.(links := t.links + {Link(txn, r.source, Some(candidate))}, candidates := t.candidates[candidate := r.(status := status)])
  }

  function BulkEntry(id: string, r: BulkRow): Entry {
    Entry(Transaction(id, r.user, r.account, r.kind, "", r.amount, r.currency, NoonOf(r.on), []), true, false, r.lineItems)
  }

  function BulkEffect(t: Tables, candidate: Id, generation: int, id: string): Result<Tables, StoreError> {
    if candidate !in t.candidates || t.candidates[candidate].generation != generation then Success(t) else
    var r := t.candidates[candidate];
    if r.status != Pending then Success(t) else
    match BulkDecision(t, r)
    case ToReview => Success(t.(candidates := t.candidates[candidate := r.(status := ReviewStatus)]))
    case ToAttach(txn) =>
      if !MayAttach(t.links, txn, r, candidate) then Failure(Conflict) else Success(Attached(t, candidate, txn, AttachedStatus))
    case ToCreate =>
      if r.account !in t.live then Failure(NotFound)
      else if !MayAttach(t.links, id, r, candidate) then Failure(Conflict)
      else Success(Attached(t.(entries := t.entries + [BulkEntry(id, r)]), candidate, id, CreatedStatus))
  }

  // ---- the store --------------------------------------------------------------------------------

  class Store {
    var tables: Tables

    constructor (initial: Tables)
      ensures tables == initial
    {
      tables := initial;
    }

    method LoadOwnedTransactions(user: string, at: Instant) returns (found: seq<Transaction>)
      ensures found == Near(tables.entries, user, at)
    {
      found := [];
      for i := 0 to |tables.entries|
        invariant found == Near(tables.entries[..i], user, at)
      {
        var t := tables.entries[i].txn;
        assert tables.entries[..i + 1][..i] == tables.entries[..i];
        if t.user == user && at - WINDOW <= t.at <= at + WINDOW {
          found := found + [t];
        }
      }
      assert tables.entries[..|tables.entries|] == tables.entries;
    }

    /** Persist a decision that may be stale; a create is serialised and decided again first. */
    method PersistReconciliation(
      source: Id, c: Candidate, taken: Decision, id: string) returns (r: Result<(), StoreError>)
      modifies this
      ensures match PersistEffect(old(tables), source, c, taken, id)
              case Success(after) => r == Success(()) && tables == after
              case Failure(error) => r == Failure(error) && tables == old(tables)
    {
      if source !in tables.sources { return Failure(NotFound); }
      if tables.sources[source] != Parsed { return Success(()); }
      if Linked(tables.links, source) { return Success(()); }
      var decision := taken;
      if taken.outcome == Create {
        var transactions := LoadOwnedTransactions(c.user, if c.at.Some? then c.at.value else 0);
        var again := Reconcile(tables.codes, c, tables.accounts, transactions);
        if again.Failure? { return Failure(Invalid); }
        decision := again.value;
      }
      match decision.outcome {
        case Attach =>
          if !Exists(tables.entries, decision.txn, c.user) { return Failure(NotOwned); }
          tables := tables.(links := tables.links + {Link(decision.txn, source, None)});
        case Create =>
          if c.at == None { return Failure(Invalid); }
          tables := tables.(entries := tables.entries + [NewEntry(id, c, decision.account)]);
          tables := tables.(links := tables.links + {Link(id, source, None)});
        case Review =>
          tables := tables.(sources := tables.sources[source := ReviewRequired]);
        case Dangling =>
          tables := tables.(sources := tables.sources[source := DanglingSource]);
      }
      r := Success(());
    }

    /** At most three matches are looked at; more than one never decides anything but a review. */
    method MatchBulkTransactions(row: BulkRow) returns (ids: seq<string>, conflict: bool)
      ensures var ms := BulkMatches(row, tables.entries);
              && |ids| == (if |ms| < 3 then |ms| else 3)
              && (forall i :: 0 <= i < |ids| ==> ids[i] == ms[i].txn.id)
              && conflict == exists i :: 0 <= i < |ids| && ItemsConflict(row, ms[i])
    {
      ids, conflict := [], false;
      ghost var ms := BulkMatches(row, tables.entries);
      var i := 0;
      while i < |tables.entries| && |ids| < 3
        invariant 0 <= i <= |tables.entries|
        invariant BulkMatches(row, tables.entries[..i]) <= ms
        invariant |ids| == |BulkMatches(row, tables.entries[..i])| <= 3
        invariant forall k :: 0 <= k < |ids| ==> ids[k] == ms[k].txn.id
        invariant conflict <==> exists k :: 0 <= k < |ids| && ItemsConflict(row, ms[k])
      {
        var e := tables.entries[i];
        assert tables.entries[..i + 1][..i] == tables.entries[..i];
        PrefixMatches(row, tables.entries, i + 1);
        if BulkMatch(row, e.txn) {
          assert ms[|ids|] == e;
          if row.lineItems != "" && e.lineItems != "" && row.lineItems != e.lineItems {
            conflict := true;
          }
          ids := ids + [e.txn.id];
        }
        i := i + 1;
      }
      if i == |tables.entries| {
        assert tables.entries[..i] == tables.entries;
      }
    }

    method ReconcileBulkCandidate(candidate: Id, generation: int, id: string) returns (r: Result<(), StoreError>)
      modifies this
      ensures match BulkEffect(old(tables), candidate, generation, id)
              case Success(after) => r == Success(()) && tables == after
              case Failure(error) => r == Failure(error) && tables == old(tables)
    {
      if candidate !in tables.candidates || tables.candidates[candidate].generation != generation { return Success(()); }
      var row := tables.candidates[candidate];
      if row.status != Pending { return Success(()); }
      var review := tables.(candidates := tables.candidates[candidate := row.(status := ReviewStatus)]);
      if row.possibleTransfer || (row.cardBill && !DirectionFits(row.lineKind, row.kind)) {
        tables := review;
        return Success(());
      }
      var ids, conflict := MatchBulkTransactions(row);
      if conflict || |ids| > 1 {
        tables := review;
        return Success(());
      }
      if |ids| == 1 {
        if row.cardBill && row.lineKind == Payment && ids[0] !in tables.payments {
          tables := review;
          return Success(());
        }
        if !MayAttach(tables.links, ids[0], row, candidate) { return Failure(Conflict); }
        tables := Attached(tables, candidate, ids[0], AttachedStatus);
        return Success(());
      }
      if row.cardBill || !row.autoEligible || row.confidence < MINIMUM_CREATE_CONFIDENCE {
        tables := review;
        return Success(());
      }
      if row.account !in tables.live { return Failure(NotFound); }
      if !MayAttach(tables.links, id, row, candidate) { return Failure(Conflict); }
      tables := tables.(entries := tables.entries + [BulkEntry(id, row)]);
      tables := Attached(tables, candidate, id, CreatedStatus);
      r := Success(());
    }
  }

  lemma {:induction false} PrefixMatches(r: BulkRow, entries: seq<Entry>, k: nat)
    requires k <= |entries|
    ensures BulkMatches(r, entries[..k]) <= BulkMatches(r, entries)
  {
    if k < |entries| {
      PrefixMatches(r, entries[..|entries| - 1], k);
      assert entries[..|entries| - 1][..k] == entries[..k];
    } else {
      assert entries[..k] == entries;
    }
  }

  // ---- every writer of the ledger ------------------------------------------------------------------

  datatype Step =
    | Persist(source: Id, candidate: Candidate, taken: Decision, id: string)
    | ReconcileBulk(bulk: Id, generation: int, id: string)
    | AddEntry(entry: Entry) // a user, a bill or a transfer
    | Edit(at: nat, entry: Entry) // any change of fields, by a user
    | Remove(at: nat)
    | Elsewhere(sources: map<Id, SourceStatus>, candidates: map<Id, BulkRow>, links: set<Link>,
                accounts: seq<AccountIdentity>, live: set<string>, payments: set<string>)

  function Committed(t: Tables, r: Result<Tables, StoreError>): Tables { if r.Success? then r.value else t }

  function Next(t: Tables, s: Step): Tables {
    match s
    case Persist(source, c, taken, id) => Committed(t, PersistEffect(t, source, c, taken, id))
    case ReconcileBulk(candidate, generation, id) => Committed(t, BulkEffect(t, candidate, generation, id))
    case AddEntry(e) => t.(entries := t.entries + [e.(auto := false)])
    case Edit(k, e) =>
      if k < |t.entries| then t.(entries := t.entries[k := e.(auto := t.entries[k].auto, modified := true)]) else t
    case Remove(k) => if k < |t.entries| then t.(entries := t.entries[..k] + t.entries[k + 1..]) else t
    case Elsewhere(sources, candidates, links, accounts, live, payments) =>
      t.(sources := sources, candidates := candidates, links := links, accounts := accounts, live := live, payments := payments)
  }

  function Run(t: Tables, steps: seq<Step>): Tables {
    if steps == [] then t else Next(Run(t, steps[..|steps| - 1]), steps[|steps| - 1])
  }

  // ---- no automatic duplicate ------------------------------------------------------------------------

  /** Made automatically and never edited. */
  predicate Untouched(e: Entry) { e.auto && !e.modified }

  predicate SamePurchase(a: Transaction, b: Transaction) {
    a.user == b.user && a.account == b.account && a.kind == b.kind && a.amount == b.amount && a.currency == b.currency
  }

  predicate FarApart(a: Entry, b: Entry) {
    Untouched(a) && Untouched(b) && SamePurchase(a.txn, b.txn) ==> Abs(a.txn.at - b.txn.at) > 10 * 60 * 1_000_000
  }

  predicate Spread(entries: seq<Entry>) { forall i, j :: 0 <= i < j < |entries| ==> FarApart(entries[i], entries[j]) }

  /** The calendar-day match of a bulk document covers the ten-minute window around its noon. */
  lemma DayCoversWindow(at: Instant, day: Day)
    requires Abs(at - NoonOf(day)) <= MATCH_WINDOW
    ensures DayOf(at) == day
  {
  }

  lemma {:induction false} NearHas(entries: seq<Entry>, user: string, at: Instant, i: nat)
    requires i < |entries| && entries[i].txn.user == user && Abs(entries[i].txn.at - at) <= WINDOW
    ensures entries[i].txn in Near(entries, user, at)
  {
    if i < |entries| - 1 {
      NearHas(entries[..|entries| - 1], user, at, i);
    }
  }

  lemma {:induction false} BulkMatchesHas(r: BulkRow, entries: seq<Entry>, i: nat)
    requires i < |entries| && BulkMatch(r, entries[i].txn)
    ensures entries[i] in BulkMatches(r, entries)
  {
    if i < |entries| - 1 {
      BulkMatchesHas(r, entries[..|entries| - 1], i);
    }
  }

  lemma SpreadExtends(entries: seq<Entry>, e: Entry)
    requires Spread(entries) && forall i :: 0 <= i < |entries| ==> FarApart(entries[i], e)
    ensures Spread(entries + [e])
  {
  }

  lemma GmailCreateIsFar(t: Tables, c: Candidate, decision: Decision, id: string, i: nat)
    requires decision.outcome == Create && c.at.Some? && i < |t.entries|
    requires var final := FinalDecision(t, c, decision); final.Success? && final.value.outcome == Create
    ensures FarApart(t.entries[i], NewEntry(id, c, FinalDecision(t, c, decision).value.account))
  {
    var ts := Near(t.entries, c.user, c.at.value);
    var account := FinalDecision(t, c, decision).value.account;
    CreatesWhenNothingMatches(t.codes, c, t.accounts, ts);
    var x := t.entries[i].txn;
    if SamePurchase(x, NewEntry(id, c, account).txn) && Abs(x.at - c.at.value) <= MATCH_WINDOW {
      NearHas(t.entries, c.user, c.at.value, i);
    }
  }

  lemma BulkCreateIsFar(t: Tables, r: BulkRow, id: string, i: nat)
    requires BulkDecision(t, r) == ToCreate && i < |t.entries|
    ensures FarApart(t.entries[i], BulkEntry(id, r))
  {
    var x := t.entries[i].txn;
    if SamePurchase(x, BulkEntry(id, r).txn) && Abs(x.at - NoonOf(r.on)) <= MATCH_WINDOW {
      DayCoversWindow(x.at, r.on);
      BulkMatchesHas(r, t.entries, i);
    }
  }

  lemma PersistKeepsSpread(t: Tables, source: Id, c: Candidate, taken: Decision, id: string)
    requires Spread(t.entries)
    ensures Spread(Committed(t, PersistEffect(t, source, c, taken, id)).entries)
  {
    var after := Committed(t, PersistEffect(t, source, c, taken, id));
    if after.entries != t.entries {
      forall i | 0 <= i < |t.entries|
        ensures FarApart(t.entries[i], NewEntry(id, c, FinalDecision(t, c, taken).value.account))
      {
        GmailCreateIsFar(t, c, taken, id, i);
      }
      SpreadExtends(t.entries, NewEntry(id, c, FinalDecision(t, c, taken).value.account));
    }
  }

  lemma BulkKeepsSpread(t: Tables, candidate: Id, generation: int, id: string)
    requires Spread(t.entries)
    ensures Spread(Committed(t, BulkEffect(t, candidate, generation, id)).entries)
  {
    var after := Committed(t, BulkEffect(t, candidate, generation, id));
    if after.entries != t.entries {
      forall i | 0 <= i < |t.entries|
        ensures FarApart(t.entries[i], BulkEntry(id, t.candidates[candidate]))
      {
        BulkCreateIsFar(t, t.candidates[candidate], id, i);
      }
      SpreadExtends(t.entries, BulkEntry(id, t.candidates[candidate]));
    }
  }

  lemma StepKeepsSpread(t: Tables, s: Step)
    requires Spread(t.entries)
    ensures Spread(Next(t, s).entries)
  {
    hide PersistEffect, BulkEffect;
    match s
    case Persist(source, c, taken, id) => PersistKeepsSpread(t, source, c, taken, id);
    case ReconcileBulk(candidate, generation, id) => BulkKeepsSpread(t, candidate, generation, id);
    case _ =>
  }

  /**
   * However stale the decisions and however the steps interleave, any two automatically created, unedited
   * transactions of one user with the same account, direction, amount and currency are more than ten minutes apart.
   */
  lemma {:induction false} NoAutomaticDuplicates(t: Tables, steps: seq<Step>)
    requires t.entries == []
    ensures Spread(Run(t, steps).entries)
  {
    if steps != [] {
      NoAutomaticDuplicates(t, steps[..|steps| - 1]);
      StepKeepsSpread(Run(t, steps[..|steps| - 1]), steps[|steps| - 1]);
    }
  }

  /** One source makes at most one transaction: once its evidence is linked, persisting it again changes nothing. */
  lemma PersistedOnce(
    t: Tables, source: Id, c: Candidate, taken: Decision, id: string, c': Candidate, taken': Decision, id': string)
    requires PersistEffect(t, source, c, taken, id).Success?
    requires PersistEffect(t, source, c, taken, id).value.entries != t.entries
    ensures var after := PersistEffect(t, source, c, taken, id).value;
            PersistEffect(after, source, c', taken', id') == Success(after)
  {
    var after := PersistEffect(t, source, c, taken, id).value;
    assert Link(id, source, None) in after.links;
  }

  /** A stale decision to create never creates by itself: what is stored is what a fresh decision says. */
  lemma StaleCreateIsDecidedAgain(t: Tables, source: Id, c: Candidate, stale: Decision, id: string)
    requires stale.outcome == Create && c.at.Some?
    ensures var again := Decide(t.codes, c, t.accounts, Near(t.entries, c.user, c.at.value));
            && (again.Success? && again.value.outcome != Create ==>
                  PersistEffect(t, source, c, stale, id) == PersistEffect(t, source, c, again.value, id))
            && (again.Failure? ==> Committed(t, PersistEffect(t, source, c, stale, id)) == t)
  {
  }
}
