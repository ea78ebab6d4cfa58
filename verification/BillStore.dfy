/** The database adapter of the bill service: one transaction over its own copy of the tables. */
module BillStore {
  import opened Prelude
  import opened BillModel
  import opened BillSpec
  import opened BillInvariant

  function PutRow(db: Db, id: Id, row: Row): Db { db.(bills := db.bills[id := row]) }

  function PutCandidates(db: Db, id: Id, rows: map<Id, CandidateStatus>): Db
    requires id in db.bills
  {
    PutRow(db, id, db.bills[id].(candidates := rows))
  }

  /** The candidate rows once every listed debit has been upserted as a suggestion. */
  function Suggesting(rows: map<Id, CandidateStatus>, ts: set<Id>): map<Id, CandidateStatus> {
    rows + map t | t in ts :: Suggested
  }

  lemma SuggestingNone(rows: map<Id, CandidateStatus>)
    ensures Suggesting(rows, {}) == rows
  {
  }

  lemma SuggestingOneMore(rows: map<Id, CandidateStatus>, ts: set<Id>, t: Id)
    ensures Suggesting(rows, ts)[t := Suggested] == Suggesting(rows, ts + {t})
  {
  }

  /** The sync's first statement: dismiss what is neither confirmed nor kept. */
  function DismissedRows(rows: map<Id, CandidateStatus>, keep: set<Id>): map<Id, CandidateStatus> {
    map t | t in rows :: if rows[t] != Confirmed && t !in keep then Dismissed else rows[t]
  }

  function Named(suggestion: Option<Id>, ambiguous: set<Id>): set<Id> {
    ambiguous + (if suggestion.Some? then {suggestion.value} else {})
  }

  /** The rows after the named candidates are written over the dismissed ones. */
  function NamedRows(
    dismissed: map<Id, CandidateStatus>, suggestion: Option<Id>, selected: bool, ambiguous: set<Id>)
    : map<Id, CandidateStatus>
  {
    var suggested := Suggesting(dismissed, ambiguous);
    if suggestion.Some? then suggested[suggestion.value := if selected then Selected else Suggested] else suggested
  }

  function KeepSet(suggestion: Option<Id>, ambiguous: set<Id>, confirmed: Option<Id>): set<Id> {
    Named(suggestion, ambiguous) + (if confirmed.Some? then {confirmed.value} else {})
  }

  function ConfirmedRows(rows: map<Id, CandidateStatus>, confirmed: Option<Id>): map<Id, CandidateStatus> {
    if confirmed.Some? && confirmed.value in rows then rows[confirmed.value := Confirmed] else rows
  }

  lemma SyncAt(
    rows: map<Id, CandidateStatus>, suggestion: Option<Id>, selected: bool, ambiguous: set<Id>, confirmed: Option<Id>,
    t: Id)
    ensures var named := NamedRows(DismissedRows(rows, KeepSet(suggestion, ambiguous, confirmed)),
                                   suggestion, selected, ambiguous);
            && (t in named <==> t in rows.Keys + Named(suggestion, ambiguous))
            && Lookup(ConfirmedRows(named, confirmed), t)
               == Lookup(Synced(rows, suggestion, selected, ambiguous, confirmed), t)
  {
    var spec := Synced(rows, suggestion, selected, ambiguous, confirmed);
    if t in rows.Keys + Named(suggestion, ambiguous) {
      assert t in spec && Some(spec[t]) == SyncedStatus(Lookup(rows, t), t, suggestion, selected, ambiguous, confirmed);
    }
  }

  lemma SameLookups<K, V>(a: map<K, V>, b: map<K, V>)
    requires forall k :: Lookup(a, k) == Lookup(b, k)
    ensures a == b
  {
    assert forall k :: k in a ==> Lookup(a, k).Some?;
    assert forall k :: k in b ==> Lookup(b, k).Some?;
    assert forall k :: k in a ==> Lookup(a, k) == Some(a[k]) && Lookup(b, k) == Some(b[k]);
  }

  /** The steps of a candidate sync end where the specification says. */
  lemma SyncSteps(
    rows: map<Id, CandidateStatus>, suggestion: Option<Id>, selected: bool, ambiguous: set<Id>, confirmed: Option<Id>)
    ensures var named := NamedRows(DismissedRows(rows, KeepSet(suggestion, ambiguous, confirmed)),
                                   suggestion, selected, ambiguous);
            && (confirmed.Some? ==> (confirmed.value in named <==> confirmed.value in rows.Keys + Named(suggestion, ambiguous)))
            && ConfirmedRows(named, confirmed) == Synced(rows, suggestion, selected, ambiguous, confirmed)
  {
    hide NamedRows, Synced, DismissedRows, ConfirmedRows, Lookup;
    var named := NamedRows(DismissedRows(rows, KeepSet(suggestion, ambiguous, confirmed)),
                           suggestion, selected, ambiguous);
    forall t
      ensures Lookup(ConfirmedRows(named, confirmed), t)
              == Lookup(Synced(rows, suggestion, selected, ambiguous, confirmed), t)
      ensures t in named <==> t in rows.Keys + Named(suggestion, ambiguous)
    {
      SyncAt(rows, suggestion, selected, ambiguous, confirmed, t);
    }
    SameLookups(ConfirmedRows(named, confirmed), Synced(rows, suggestion, selected, ambiguous, confirmed));
  }

  /** Another bill already chose the debit this one selects or confirms: a unique index refuses the write. */
  predicate ChoiceTaken(db: Db, bill: Bill, confirmed: Option<Id>)
    requires bill.id in db.bills
  {
    || (bill.selected && bill.suggestion.Some? && ChosenByAnother(db, bill.id, bill.suggestion.value))
    || (confirmed.Some? && confirmed.value in db.bills[bill.id].candidates.Keys + Named(bill.suggestion, bill.ambiguous)
        && ChosenByAnother(db, bill.id, confirmed.value))
  }

  lemma PutAgain(db: Db, id: Id, rows: map<Id, CandidateStatus>, rows': map<Id, CandidateStatus>)
    requires id in db.bills
    ensures id in PutCandidates(db, id, rows).bills
    ensures PutCandidates(db, id, rows).bills[id].candidates == rows
    ensures PutCandidates(PutCandidates(db, id, rows), id, rows') == PutCandidates(db, id, rows')
  {
  }

  lemma PutSame(db: Db, id: Id)
    requires id in db.bills
    ensures PutCandidates(db, id, db.bills[id].candidates) == db
  {
  }

  lemma OthersUntouched(before: Db, rows: map<Id, CandidateStatus>, id: Id, t: Id)
    requires id in before.bills
    ensures ChosenByAnother(PutCandidates(before, id, rows), id, t) == ChosenByAnother(before, id, t)
  {
    var after := PutCandidates(before, id, rows);
    assert forall b :: b in before.bills && b != id ==> after.bills[b] == before.bills[b];
  }

  /** The first selected row of the ordered open rows is the least selected one. */
  lemma FirstChosen(rows: map<Id, CandidateStatus>, items: seq<Id>, i: nat)
    requires i < |items| && forall t :: t in items <==> t in Open(rows)
    requires forall a, b :: 0 <= a < b < |items| ==> items[a] < items[b]
    requires forall k :: 0 <= k <= i ==> items[k] in rows && (rows[items[k]] == Selected <==> k == i)
    ensures Chosen(rows) != {} && Least(Chosen(rows)) == items[i]
  {
    assert items[i] in Chosen(rows);
    forall t | t in Chosen(rows)
      ensures items[i] <= t
    {
      assert t in Open(rows);
      var j :| 0 <= j < |items| && items[j] == t;
    }
  }

  /** The stored row once a bill, and its choice of payment, is saved over it. */
  function SavedBy(row: Row, bill: Bill, confirmed: Option<Id>): Row {
    row.(state := bill.state,
         candidates := Synced(row.candidates, bill.suggestion, bill.selected, bill.ambiguous, confirmed))
  }

  lemma StateDoesNotMatter(db: Db, bill: Bill, confirmed: Option<Id>)
    requires bill.id in db.bills
    ensures var after := PutRow(db, bill.id, db.bills[bill.id].(state := bill.state));
            ChoiceTaken(after, bill, confirmed) == ChoiceTaken(db, bill, confirmed)
  {
    var after := PutRow(db, bill.id, db.bills[bill.id].(state := bill.state));
    assert forall b :: b in db.bills && b != bill.id ==> after.bills[b] == db.bills[b];
    assert forall t :: ChosenByAnother(after, bill.id, t) == ChosenByAnother(db, bill.id, t);
  }

  lemma SameLedgerSameLoad(db: Db, db': Db, t: Id)
    requires db'.txns == db.txns && db'.accounts == db.accounts && db'.links == db.links
    ensures LoadTransaction(db', t) == LoadTransaction(db, t)
  {
    assert LinksOf(db', t) == LinksOf(db, t);
  }

  /** `found` is the loaded form of exactly the transactions in `ts`, each once. */
  predicate Lists(db: Db, found: seq<CanonicalTransaction>, ts: set<Id>) {
    && |found| == |ts|
    && (forall i :: 0 <= i < |found| ==> found[i].id in ts && LoadTransaction(db, found[i].id) == Success(found[i]))
    && (forall t :: t in ts ==> exists i :: 0 <= i < |found| && found[i].id == t)
  }

  lemma ListsNothing(db: Db)
    ensures Lists(db, [], {})
  {
  }

  lemma DebitLoads(db: Db, card: Id, h: Header, t: Id)
    requires Complete(h) && t in BankDebitCandidates(db, card, h)
    ensures LoadTransaction(db, t).Success?
  {
  }

  lemma ListsOneMore(db: Db, found: seq<CanonicalTransaction>, ts: set<Id>, t: Id)
    requires Lists(db, found, ts) && t !in ts && LoadTransaction(db, t).Success?
    ensures Lists(db, found + [LoadTransaction(db, t).value], ts + {t})
  {
    hide LoadTransaction;
    LoadsItself(db, t);
    var longer := found + [LoadTransaction(db, t).value];
    assert longer[|found|].id == t;
    forall x | x in ts
      ensures exists i :: 0 <= i < |longer| && longer[i].id == x
    {
      var i :| 0 <= i < |found| && found[i].id == x;
      assert longer[i].id == x;
    }
  }

  lemma LoadsItself(db: Db, t: Id)
    requires LoadTransaction(db, t).Success?
    ensures LoadTransaction(db, t).value.id == t
  {
  }

  lemma OnlyCandidates(db: Db, id: Id, rows: map<Id, CandidateStatus>)
    requires id in db.bills
    ensures PutCandidates(db, id, rows) == db.(bills := PutCandidates(db, id, rows).bills)
  {
  }

  /** The first statement of the payoff lock: the user's own rows on the legs become system exclusions. */
  function UserRowsExcluded(ts: map<Id, Treatment>, legs: set<Id>, now: Instant): map<Id, Treatment> {
    map t | t in ts :: if t in legs && ts[t].source == User then SystemExclusion(now) else ts[t]
  }

  predicate IsPayoffExclusion(t: Treatment) { t.source == System && t.basis == Exclude && t.reason == PAYOFF_REASON }

  lemma LockSteps(ts: map<Id, Treatment>, legs: set<Id>, now: Instant)
    ensures var updated := UserRowsExcluded(ts, legs, now);
            updated + (map t | t in legs && t !in updated :: SystemExclusion(now)) == LockedTreatments(ts, legs, now)
    ensures TreatmentsOk(ts) ==>
              var locked := LockedTreatments(ts, legs, now);
              forall t :: t in legs ==> t in locked && IsPayoffExclusion(locked[t])
  {
  }

  /** The tables without one bill. */
  function Without(db: Db, bill: Id): Db { db.(bills := db.bills - {bill}) }

  /** The unique keys let this line in, as the tables stand. */
  predicate AcceptsLine(db: Db, bill: Id, line: Line)
    requires bill in db.bills
  {
    && line.index > 0 && line.amount > 0 && (line.txn.Some? ==> line.txn.value in db.txns)
    && (forall i :: 0 <= i < |db.bills[bill].lines| ==> db.bills[bill].lines[i].index != line.index)
    && ApartFromStored(db, line)
  }

  /** The tables once `n` identifiers are drawn and the bill has these lines. */
  function WithLines(before: Db, bill: Id, n: nat, lines: seq<Line>): (db: Db)
    requires bill in before.bills
    ensures bill in db.bills && db.bills[bill] == before.bills[bill].(lines := lines) && db.next == before.next + n
  {
    PutRow(before.(next := before.next + n), bill, before.bills[bill].(lines := lines))
  }

  lemma StartsEmpty(db: Db, bill: Id)
    requires bill in db.bills && db.bills[bill].lines == []
    ensures WithLines(db, bill, 0, []) == db
  {
  }

  lemma OneMoreLine(before: Db, bill: Id, n: nat, lines: seq<Line>, more: seq<Line>)
    requires bill in before.bills
    ensures var db := WithLines(before, bill, n, lines);
            PutRow(db.(next := db.next + 1), bill, db.bills[bill].(lines := more)) == WithLines(before, bill, n + 1, more)
  {
  }

  lemma ApartFromOwnAndOthers(before: Db, bill: Id, n: nat, lines: seq<Line>, line: Line)
    requires bill in before.bills
    ensures ApartFromStored(WithLines(before, bill, n, lines), line) <==>
            ApartFromStored(Without(before, bill), line) && forall i :: 0 <= i < |lines| ==> LinesApart(line, lines[i])
  {
    hide LinesApart;
    var db, rest := WithLines(before, bill, n, lines), Without(before, bill);
    assert forall b :: b in rest.bills <==> b in db.bills && b != bill;
    assert forall b :: b in rest.bills ==> db.bills[b] == rest.bills[b];
    if ApartFromStored(db, line) {
      assert forall i :: 0 <= i < |lines| ==> LinesApart(line, db.bills[bill].lines[i]);
    }
  }

  lemma AcceptsIsInsertable(before: Db, bill: Id, n: nat, lines: seq<Line>, line: Line)
    requires bill in before.bills
    ensures AcceptsLine(WithLines(before, bill, n, lines), bill, line) == InsertableAfter(Without(before, bill), lines, line)
  {
    ApartFromOwnAndOthers(before, bill, n, lines, line);
    hide ApartFromStored;
    assert WithLines(before, bill, n, lines).txns == Without(before, bill).txns;
  }

  lemma FreshRow(db: Db, id: Id, next: Id, row: Row)
    requires id !in db.bills
    ensures var after := PutRow(db.(next := next), id, row);
            && id in after.bills && after.bills[id] == row && after.next == next
            && Without(after, id) == db.(next := next)
    ensures forall row', n :: PutRow(PutRow(db.(next := next), id, row).(next := n), id, row') == PutRow(db.(next := n), id, row')
  {
    assert PutRow(db.(next := next), id, row).bills - {id} == db.bills;
  }

  lemma InsertableIgnoresNext(db: Db, next: Id, lines: seq<Line>)
    ensures Insertable(db.(next := next), lines) == Insertable(db, lines)
  {
    forall k | 0 <= k < |lines|
      ensures InsertableAfter(db.(next := next), lines[..k], lines[k]) == InsertableAfter(db, lines[..k], lines[k])
    {
      assert ApartFromStored(db.(next := next), lines[k]) == ApartFromStored(db, lines[k]);
    }
  }

  lemma LoadsOrigin(id: Id, row: Row)
    ensures LoadBill(id, row).origin == row.origin
  {
  }

  lemma NoRowYet(db: Db, id: Id)
    requires RowsOk(db) && id >= db.next
    ensures id !in db.bills
  {
  }

  lemma LoadsFresh(id: Id, bill: Bill, row: Row)
    requires bill == LoadBill(id, row) && row.candidates == map[]
    ensures bill == Bill(id, row.origin, row.state, None, false, {}, false, row.lines, row.events)
  {
  }

  /** What is left to decide once the lines are inserted: whether each is well formed. */
  function Validated(db: Db, document: Id, generation: int, r: Result<(Bill, bool), Error>): Result<Row, Error>
    requires document in db.documents
  {
    if r.Failure? then Failure(r.error) else
    var row := ProjectedRow(db, document, generation);
    if exists i :: 0 <= i < |row.lines| && !WellFormedLine(row.lines[i]) then Failure(Validation) else Success(row)
  }

  predicate Taken(db: Db, id: Id, link: Option<Id>) {
    link.Some? && exists b :: b in db.bills && b != id && db.bills[b].state.payoff == link
  }

  class Transaction {
    var db: Db
    var confirmed: Option<Id>

    constructor (snapshot: Db)
      ensures db == snapshot && confirmed == None
    {
      db, confirmed := snapshot, None;
    }

    // ---- loading ------------------------------------------------------------------

    /** The rows still open, in their stored order. */
    method OpenCandidates(rows: map<Id, CandidateStatus>) returns (items: seq<Id>)
      ensures |items| == |Open(rows)| && forall t :: t in items <==> t in Open(rows)
      ensures forall i, j :: 0 <= i < j < |items| ==> items[i] < items[j]
    {
      var rest := Open(rows);
      items := [];
      while rest != {}
        invariant forall t :: t in Open(rows) <==> t in items || t in rest
        invariant |items| + |rest| == |Open(rows)|
        invariant forall i, j :: 0 <= i < j < |items| ==> items[i] < items[j]
        invariant forall i, t :: 0 <= i < |items| && t in rest ==> items[i] < t
        decreases |rest|
      {
        var t := Least(rest);
        items, rest := items + [t], rest - {t};
      }
    }

    method LoadPaymentCandidates(rows: map<Id, CandidateStatus>)
      returns (suggestion: Option<Id>, selected: bool, ambiguous: set<Id>)
      ensures var open, chosen := Open(rows), Chosen(rows);
              && suggestion == (if chosen != {} then Some(Least(chosen))
                                else if |open| == 1 then Some(Least(open)) else None)
              && selected == (chosen != {})
              && ambiguous == if chosen == {} && |open| != 1 then open else {}
    {
      suggestion, selected, ambiguous := None, false, {};
      var items := OpenCandidates(rows);
      assert forall k :: 0 <= k < |items| ==> items[k] in Open(rows);
      for i := 0 to |items|
        invariant forall k :: 0 <= k < i ==> rows[items[k]] != Selected
        invariant suggestion == None && !selected && ambiguous == {}
      {
        if rows[items[i]] == Selected {
          FirstChosen(rows, items, i);
          return Some(items[i]), true, {};
        }
      }
      assert forall t :: t in Chosen(rows) ==> t in items;
      if |items| == 1 {
        suggestion := Some(items[0]);
      } else {
        for i := 0 to |items|
          invariant ambiguous == set t | t in items[..i]
        {
          ambiguous := ambiguous + {items[i]};
        }
        assert items[..|items|] == items;
      }
    }

    method GetBillForUpdate(id: Id) returns (r: Result<Bill, Error>)
      ensures r == if id in db.bills then Success(LoadBill(id, db.bills[id])) else Failure(NotFound)
    {
      if id !in db.bills { return Failure(NotFound); }
      var row := db.bills[id];
      var suggestion, selected, ambiguous := LoadPaymentCandidates(row.candidates);
      r := Success(Bill(id, row.origin, row.state, suggestion, selected, ambiguous, false, row.lines, row.events));
    }

    // ---- saving ---------------------------------------------------------------------

    method UpsertPaymentCandidate(id: Id, t: Id, status: CandidateStatus) returns (r: Result<(), Error>)
      requires id in db.bills
      modifies this`db
      ensures r == if status == Selected && ChosenByAnother(old(db), id, t) then Failure(Constraint) else Success(())
      ensures r.Success? ==> db == PutCandidates(old(db), id, old(db).bills[id].candidates[t := status])
    {
      if status == Selected && ChosenByAnother(db, id, t) { return Failure(Constraint); }
      db := PutCandidates(db, id, db.bills[id].candidates[t := status]);
      r := Success(());
    }

    method DismissOthers(id: Id, keep: set<Id>)
      requires id in db.bills
      modifies this`db
      ensures db == PutCandidates(old(db), id, DismissedRows(old(db).bills[id].candidates, keep))
    {
      db := PutCandidates(db, id, DismissedRows(db.bills[id].candidates, keep));
    }

    method SuggestAll(id: Id, ambiguous: set<Id>)
      requires id in db.bills
      modifies this`db
      ensures db == PutCandidates(old(db), id, Suggesting(old(db).bills[id].candidates, ambiguous))
    {
      hide PutCandidates, PutRow, Suggesting;
      ghost var before, rows := db, db.bills[id].candidates;
      var rest := ambiguous;
      SuggestingNone(rows);
      PutSame(db, id);
      assert ambiguous - rest == {};
      while rest != {}
        invariant rest <= ambiguous && id in db.bills
        invariant db == PutCandidates(before, id, Suggesting(rows, ambiguous - rest))
        decreases |rest|
      {
        var t := Least(rest);
        SuggestingOneMore(rows, ambiguous - rest, t);
        PutAgain(before, id, Suggesting(rows, ambiguous - rest), Suggesting(rows, ambiguous - (rest - {t})));
        assert ambiguous - rest + {t} == ambiguous - (rest - {t});
        var ok := UpsertPaymentCandidate(id, t, Suggested);
        PutAgain(before, id, Suggesting(rows, ambiguous - (rest - {t})), rows);
        rest := rest - {t};
      }
      assert ambiguous - rest == ambiguous;
    }

    method ConfirmRow(id: Id, t: Id) returns (r: Result<(), Error>)
      requires id in db.bills
      modifies this`db
      ensures r == if t in old(db).bills[id].candidates && ChosenByAnother(old(db), id, t)
                   then Failure(Constraint) else Success(())
      ensures r.Success? ==>
                db == PutCandidates(old(db), id, ConfirmedRows(old(db).bills[id].candidates, Some(t)))
    {
      PutSame(db, id);
      if t in db.bills[id].candidates {
        if ChosenByAnother(db, id, t) { return Failure(Constraint); }
        db := PutCandidates(db, id, db.bills[id].candidates[t := Confirmed]);
      }
      r := Success(());
    }

    /** Dismiss every row the bill no longer names, then write the named ones. */
    method SyncPaymentCandidates(bill: Bill) returns (r: Result<(), Error>)
      requires bill.id in db.bills
      modifies this`db
      ensures r == if ChoiceTaken(old(db), bill, confirmed) then Failure(Constraint) else Success(())
      ensures r.Success? ==>
                db == PutCandidates(old(db), bill.id, Synced(old(db).bills[bill.id].candidates, bill.suggestion,
                                                             bill.selected, bill.ambiguous, confirmed))
    {
      hide Synced, DismissedRows, Suggesting, ChosenByAnother, PutCandidates;
      ghost var before, rows := db, db.bills[bill.id].candidates;
      var keep := KeepSet(bill.suggestion, bill.ambiguous, confirmed);
      ghost var dismissed := DismissedRows(rows, keep);
      ghost var suggested := Suggesting(dismissed, bill.ambiguous);
      ghost var named := NamedRows(dismissed, bill.suggestion, bill.selected, bill.ambiguous);
      SyncSteps(rows, bill.suggestion, bill.selected, bill.ambiguous, confirmed);
      PutAgain(before, bill.id, dismissed, suggested);
      PutAgain(before, bill.id, suggested, named);
      PutAgain(before, bill.id, named, ConfirmedRows(named, confirmed));
      DismissOthers(bill.id, keep);
      SuggestAll(bill.id, bill.ambiguous);
      assert db == PutCandidates(before, bill.id, suggested);
      if bill.suggestion.Some? {
        OthersUntouched(before, suggested, bill.id, bill.suggestion.value);
        var _ :- UpsertPaymentCandidate(bill.id, bill.suggestion.value, if bill.selected then Selected else Suggested);
      }
      assert db == PutCandidates(before, bill.id, named);
      if confirmed.Some? {
        OthersUntouched(before, named, bill.id, confirmed.value);
        var _ :- ConfirmRow(bill.id, confirmed.value);
      }
      r := Success(());
    }

    method SaveBill(bill: Bill, expected: int) returns (r: Result<(), Error>)
      modifies this`db
      ensures r == if bill.id !in old(db).bills || old(db).bills[bill.id].state.version != expected then Failure(VersionConflict)
                   else if Taken(old(db), bill.id, bill.state.payoff) || ChoiceTaken(old(db), bill, confirmed)
                   then Failure(Constraint) else Success(())
      ensures r.Success? ==>
                db == PutRow(old(db), bill.id, SavedBy(old(db).bills[bill.id], bill, confirmed))
    {
      if bill.id !in db.bills || db.bills[bill.id].state.version != expected { return Failure(VersionConflict); }
      if Taken(db, bill.id, bill.state.payoff) { return Failure(Constraint); }
      hide Synced, Named;
      ghost var before := db;
      db := PutRow(db, bill.id, db.bills[bill.id].(state := bill.state));
      StateDoesNotMatter(before, bill, confirmed);
      r := SyncPaymentCandidates(bill);
    }

    method SaveLine(bill: Id, line: Line) returns (r: Result<(), Error>)
      modifies this`db
      ensures r == if bill !in old(db).bills || FindLine(old(db).bills[bill].lines, line.id) < 0 then Failure(NotFound)
                   else if line.txn.Some? && LinkedElsewhere(old(db), line.txn.value, line.id)
                   then Failure(DuplicateTransaction) else Success(())
      ensures r.Success? ==>
                var row := old(db).bills[bill];
                var k := FindLine(row.lines, line.id);
                var stored := row.lines[k].(status := line.status, reason := line.reason, exception := line.exception,
                                            txn := line.txn);
                db == PutRow(old(db), bill, row.(lines := row.lines[k := stored]))
    {
      if bill !in db.bills { return Failure(NotFound); }
      var row := db.bills[bill];
      var k := FindLine(row.lines, line.id);
      if k < 0 { return Failure(NotFound); }
      if line.txn.Some? && LinkedElsewhere(db, line.txn.value, line.id) { return Failure(DuplicateTransaction); }
      var stored := row.lines[k].(status := line.status, reason := line.reason, exception := line.exception,
                                  txn := line.txn);
      db := PutRow(db, bill, row.(lines := row.lines[k := stored]));
      r := Success(());
    }

    method AppendBillEvent(bill: Id, event: Event)
      requires bill in db.bills
      modifies this`db
      ensures var row := old(db).bills[bill]; db == PutRow(old(db), bill, row.(events := row.events + [event]))
    {
      var row := db.bills[bill];
      db := PutRow(db, bill, row.(events := row.events + [event]));
    }

    method DeleteReviewBill(bill: Id, expected: int) returns (r: Result<(), Error>)
      modifies this`db
      ensures r == if bill in old(db).bills && old(db).bills[bill].state.status == Review
                      && old(db).bills[bill].state.version == expected then Success(()) else Failure(VersionConflict)
      ensures r.Success? ==> db == old(db).(bills := old(db).bills - {bill})
    {
      if bill !in db.bills || db.bills[bill].state.status != Review || db.bills[bill].state.version != expected {
        return Failure(VersionConflict);
      }
      db := db.(bills := db.bills - {bill});
      r := Success(());
    }

    // ---- payment candidates, transfers and treatments ----------------------------------

    /** Load every exact debit and record it as a suggestion. */
    method FindBankDebitCandidates(id: Id, h: Header) returns (found: seq<CanonicalTransaction>)
      requires id in db.bills && Complete(h)
      modifies this`db
      ensures var debits := BankDebitCandidates(old(db), old(db).bills[id].origin.account, h);
              && Lists(old(db), found, debits)
              && db == PutCandidates(old(db), id, Suggesting(old(db).bills[id].candidates, debits))
    {
      hide PutCandidates, PutRow, Suggesting, Lists, LoadTransaction, ExactDebit;
      ghost var before, rows := db, db.bills[id].candidates;
      ListsNothing(before);
      var debits := BankDebitCandidates(db, db.bills[id].origin.account, h);
      var rest := debits;
      found := [];
      SuggestingNone(rows);
      PutSame(db, id);
      assert debits - rest == {};
      while rest != {}
        invariant rest <= debits && id in db.bills
        invariant db == PutCandidates(before, id, Suggesting(rows, debits - rest))
        invariant Lists(before, found, debits - rest)
        decreases |rest|
      {
        var t := Least(rest);
        ghost var done, grown := debits - rest, debits - (rest - {t});
        assert done + {t} == grown;
        PutAgain(before, id, Suggesting(rows, done), Suggesting(rows, grown));
        PutAgain(before, id, Suggesting(rows, grown), rows);
        SuggestingOneMore(rows, done, t);
        DebitLoads(before, before.bills[id].origin.account, h, t);
        ListsOneMore(before, found, done, t);
        var loaded := LoadTransaction(db, t);
        OnlyCandidates(before, id, Suggesting(rows, done));
        SameLedgerSameLoad(before, db, t);
        var ok := UpsertPaymentCandidate(id, t, Suggested);
        found := found + [loaded.value];
        rest := rest - {t};
      }
      assert debits - rest == debits;
    }

    method LockSystemPayoffExclusions(debit: Id, credit: Id, now: Instant) returns (r: Result<(), Error>)
      modifies this`db
      ensures debit == credit ==> r == Failure(Validation)
      ensures debit != credit && !(debit in old(db).txns && credit in old(db).txns) ==> r == Failure(NotFound)
      ensures debit != credit && debit in old(db).txns && credit in old(db).txns && TreatmentsOk(old(db).treatments) ==>
                r == Success(())
      ensures r.Success? ==> db == old(db).(treatments := LockedTreatments(old(db).treatments, {debit, credit}, now))
    {
      if debit == credit { return Failure(Validation); }
      if debit !in db.txns || credit !in db.txns { return Failure(NotFound); }
      var legs := {debit, credit};
      var updated := UserRowsExcluded(db.treatments, legs, now);
      var inserted := map t | t in legs && t !in updated :: SystemExclusion(now);
      LockSteps(db.treatments, legs, now);
      hide LockedTreatments, UserRowsExcluded;
      db := db.(treatments := updated + inserted);
      if exists t :: t in legs && !(t in db.treatments && IsPayoffExclusion(db.treatments[t])) {
        return Failure(Immutable);
      }
      r := Success(());
    }

    method InsertTransferLeg(account: Id, direction: Direction, currency: string, amount: int, at: Instant)
      returns (r: Result<Id, Error>)
      modifies this`db
      ensures r == if account in old(db).accounts && !old(db).accounts[account].deleted then Success(old(db).next)
                   else Failure(Constraint)
      ensures r.Success? ==>
                db == old(db).(txns := old(db).txns[old(db).next := Txn(account, direction, currency, amount, at, true, {})],
                               next := old(db).next + 1)
    {
      if account !in db.accounts || db.accounts[account].deleted { return Failure(Constraint); }
      r := Success(db.next);
      db := db.(txns := db.txns[db.next := Txn(account, direction, currency, amount, at, true, {})], next := db.next + 1);
    }

    method InsertTransferLink(debit: Id, credit: Id) returns (link: Id)
      modifies this`db
      ensures link == old(db).next
      ensures db == old(db).(links := old(db).links[old(db).next := Link(debit, credit)], next := old(db).next + 1)
    {
      link := db.next;
      db := db.(links := db.links[link := Link(debit, credit)], next := link + 1);
    }

    method CreateMissingCardLegAndTransfer(bill: Bill, bank: Id) returns (r: Result<Id, Error>)
      requires bill.id in db.bills && Complete(bill.state.header) && bill.origin == db.bills[bill.id].origin
      requires bill.state.header == db.bills[bill.id].state.header
      modifies this
      ensures var t, h, card := LoadTransaction(old(db), bank), bill.state.header, bill.origin.account;
              r == if t.Failure? then Failure(t.error)
                   else if !ValidDebit(h, t.value) then Failure(Validation)
                   else if bank !in Open(old(db).bills[bill.id].candidates) then Failure(NotFound)
                   else if card !in old(db).accounts || old(db).accounts[card].deleted then Failure(Constraint)
                   else Success(old(db).next + 1)
      ensures r.Success? ==>
                var h, card, at, n := bill.state.header, bill.origin.account, LoadTransaction(old(db), bank).value.at, old(db).next;
                && confirmed == Some(bank)
                && db == old(db).(txns := old(db).txns + map[n := Leg(card, Credit, h, at)],
                                  links := old(db).links[n + 1 := Link(bank, n)], next := n + 2)
    {
      hide LinksOf;
      var t :- LoadTransaction(db, bank);
      var h, card := bill.state.header, bill.origin.account;
      if !ValidDebit(h, t) { return Failure(Validation); }
      if bank !in Open(db.bills[bill.id].candidates) { return Failure(NotFound); }
      var credit :- InsertTransferLeg(card, Credit, h.currency.value, h.amount.value, t.at);
      var link := InsertTransferLink(bank, credit);
      confirmed := Some(bank);
      r := Success(link);
    }

    method CreateFullPayoffTransfer(bank: Id, card: Id, currency: string, amount: int, at: Instant)
      returns (r: Result<Id, Error>)
      modifies this`db
      ensures r == if bank !in old(db).accounts || card !in old(db).accounts || old(db).accounts[bank] != Account(BankAccount, false)
                      || old(db).accounts[card].kind != CreditCard || amount <= 0 then Failure(Validation)
                   else if old(db).accounts[card].deleted then Failure(Constraint) else Success(old(db).next + 2)
      ensures r.Success? ==>
                var n := old(db).next;
                db == old(db).(txns := old(db).txns + map[n := Txn(bank, Debit, currency, amount, at, true, {}),
                                                          n + 1 := Txn(card, Credit, currency, amount, at, true, {})],
                               links := old(db).links[n + 2 := Link(n, n + 1)], next := n + 3)
    {
      if bank !in db.accounts || card !in db.accounts || db.accounts[bank] != Account(BankAccount, false)
         || db.accounts[card].kind != CreditCard || amount <= 0 {
        return Failure(Validation);
      }
      var debit := InsertTransferLeg(bank, Debit, currency, amount, at);
      var credit :- InsertTransferLeg(card, Credit, currency, amount, at);
      var link := InsertTransferLink(debit.value, credit);
      r := Success(link);
    }

    /** The ledger row a reviewed line stands for, made from the immutable candidate it was projected from. */
    method CreateTransactionFromPinnedCandidate(bill: Id, line: Line, category: Id) returns (r: Result<Id, Error>)
      requires bill in db.bills
      modifies this`db
      ensures var made := CreateFromCandidate(old(db), old(db).bills[bill], line, category);
              match made
              case Success(after) => r == Success(old(db).next) && db == after
              case Failure(error) => r == Failure(error)
    {
      var row := db.bills[bill];
      if !CreatableKind(line.kind) || line.candidate == None { return Failure(Validation); }
      var at := (row.origin.document, row.origin.generation);
      var output := OutputOf(db, at.0, at.1);
      var k := FindCandidate(output, line.candidate.value);
      if k < 0 { return Failure(NotFound); }
      var c := output[k];
      if c.status != ReviewRequired || category !in db.categories { return Failure(Validation); }
      if c.kind != line.kind || c.index < 1 || c.amount <= 0 { return Failure(Validation); }
      var direction := if line.kind == Refund then Credit else Debit;
      if row.origin.account !in db.accounts || db.accounts[row.origin.account].deleted { return Failure(Constraint); }
      var id := db.next;
      db := db.(txns := db.txns[id := Txn(row.origin.account, direction, c.currency, c.amount, NoonOf(c.on), true, {})],
                next := id + 1);
      if c.txn.Some? { return Failure(DuplicateTransaction); }
      db := db.(outputs := db.outputs[at := output[k := c.(status := Created, txn := Some(id))]]);
      r := Success(id);
    }

    // ---- projection ----------------------------------------------------------------------

    /** Insert the pinned candidates of a document as lines of its new bill. */
    method ProjectLines(bill: Id, output: seq<BulkCandidate>) returns (r: Result<bool, Error>)
      requires bill in db.bills && bill < db.next && db.bills[bill].lines == []
      modifies this`db
      ensures var before, lines := Without(old(db), bill), NewLines(Included(output), old(db).next);
              r == if exists i :: 0 <= i < |output| && output[i].status == PendingReconciliation then Failure(Validation)
                   else if !Insertable(before, lines) then Failure(Constraint)
                   else Success(CountFailed(output) > 0)
      ensures r.Success? ==>
                var lines := NewLines(Included(output), old(db).next);
                db == WithLines(old(db), bill, |lines|, lines)
    {
      var items, failures := [], false;
      for i := 0 to |output|
        invariant forall k :: 0 <= k < i ==> output[k].status != PendingReconciliation
        invariant items == Included(output[..i]) && failures == (CountFailed(output[..i]) > 0)
      {
        assert output[..i + 1][..i] == output[..i];
        match output[i].status {
          case PendingReconciliation => return Failure(Validation);
          case Created => items := items + [output[i]];
          case Attached => items := items + [output[i]];
          case ReviewRequired => items := items + [output[i]];
          case Failed => failures := true;
          case _ =>
        }
      }
      assert output[..|output|] == output;
      var inserted := InsertLines(bill, items);
      r := if inserted.Failure? then Failure(inserted.error) else Success(failures);
    }

    method InsertLines(bill: Id, items: seq<BulkCandidate>) returns (r: Result<(), Error>)
      requires bill in db.bills && bill < db.next && db.bills[bill].lines == []
      modifies this`db
      ensures var before, lines := Without(old(db), bill), NewLines(items, old(db).next);
              r == if Insertable(before, lines) then Success(()) else Failure(Constraint)
      ensures r.Success? ==>
                var lines := NewLines(items, old(db).next);
                db == WithLines(old(db), bill, |lines|, lines)
    {
      hide PutRow, InsertableAfter, AcceptsLine, NewLine, Without, WithLines;
      ghost var before := db;
      ghost var lines := NewLines(items, before.next);
      StartsEmpty(before, bill);
      for i := 0 to |items|
        invariant db == WithLines(before, bill, i, lines[..i])
        invariant forall k :: 0 <= k < i ==> InsertableAfter(Without(before, bill), lines[..k], lines[k])
      {
        var line := NewLine(items[i], db.next);
        AcceptsIsInsertable(before, bill, i, lines[..i], line);
        OneMoreLine(before, bill, i, lines[..i], lines[..i + 1]);
        assert line == lines[i] && lines[..i] + [line] == lines[..i + 1];
        if !AcceptsLine(db, bill, line) {
          return Failure(Constraint);
        }
        var row := db.bills[bill];
        db := PutRow(db.(next := db.next + 1), bill, row.(lines := row.lines + [line]));
      }
      assert lines[..|items|] == lines;
      r := Success(());
    }

    /** Insert the statement and its lines, then load it back. */
    method InsertBill(row: Row, output: seq<BulkCandidate>) returns (r: Result<Bill, Error>)
      requires RowsOk(db) && row.lines == [] && row.candidates == map[] && row.events == []
      requires row.origin.unresolved >= CountFailed(output)
      modifies this`db
      ensures var before, lines := old(db), NewLines(Included(output), old(db).next + 1);
              && r == (if exists i :: 0 <= i < |output| && output[i].status == PendingReconciliation then Failure(Validation)
                       else if !Insertable(before, lines) then Failure(Constraint)
                       else Success(Bill(before.next, row.origin, row.state, None, false, {}, row.origin.unresolved > 0, lines, [])))
              && (r.Success? ==>
                    db == PutRow(before.(next := before.next + 1 + |lines|), before.next, row.(lines := lines)))
    {
      hide PutRow, Insertable, NewLines, Included, LoadBill, Without, RowsOk;
      ghost var before, lines := db, NewLines(Included(output), db.next + 1);
      var id := db.next;
      NoRowYet(before, id);
      FreshRow(before, id, id + 1, row);
      InsertableIgnoresNext(before, id + 1, lines);
      db := PutRow(db.(next := id + 1), id, row);
      var failures :- ProjectLines(id, output);
      assert db == PutRow(before.(next := id + 1 + |lines|), id, row.(lines := lines));
      FreshRow(before, id, id + 1 + |lines|, row.(lines := lines));
      var bill := GetBillForUpdate(id);
      LoadsFresh(id, bill.value, row.(lines := lines));
      r := Success(bill.value.(failures := failures || row.origin.unresolved > 0));
    }

    /** The bill of a document's generation: the stored one, or a new one with its lines. */
    method ProjectBillFromBulk(document: Id, generation: int) returns (r: Result<(Bill, bool), Error>)
      requires RowsOk(db)
      modifies this`db
      ensures document !in old(db).documents ==> r == Failure(NotFound)
      ensures document in old(db).documents && BillsOf(old(db), document) != {} ==>
                var id := Least(BillsOf(old(db), document));
                var row := old(db).bills[id];
                && r == (if row.origin.generation != generation then Failure(Validation) else Success((LoadBill(id, row), false)))
                && (r.Success? ==> db == old(db))
      ensures document in old(db).documents && BillsOf(old(db), document) == {} ==>
                && Projectable(old(db), document, generation) == Validated(old(db), document, generation, r)
                && (r.Success? ==>
                      var id, row := old(db).next, ProjectedRow(old(db), document, generation);
                      && r.value == (Bill(id, row.origin, row.state, None, false, {}, row.origin.unresolved > 0, row.lines, []), true)
                      && Insertable(old(db), row.lines)
                      && db == PutRow(old(db).(next := id + 1 + |row.lines|), id, row))
    {
      hide PutRow, Insertable, WellFormedLine, NewLines, Included, CountFailed, LoadBill, RowsOk;
      if document !in db.documents { return Failure(NotFound); }
      var known := BillsOf(db, document);
      if known != {} {
        var stored := Least(known);
        var bill := GetBillForUpdate(stored);
        LoadsOrigin(stored, db.bills[stored]);
        if bill.value.origin.generation != generation { return Failure(Validation); }
        return Success((bill.value, false));
      }
      var d, output := db.documents[document], OutputOf(db, document, generation);
      if d.generation != generation || !d.isCardBill || d.accountType != CreditCard { return Failure(Validation); }
      if !ActiveCard(db, d.account) { return Failure(Constraint); }
      var header := if d.summaryRef.Some? && d.summaryRef.value != d.accountRef then BLANK_HEADER else d.summaryHeader;
      var unresolved := CountFailed(output) + d.failedChunks;
      var row := Row(Origin(d.account, document, generation, unresolved), State(header, Review, None, 1, None, None), [], map[], []);
      var inserted :- InsertBill(row, output);
      r := Success((inserted, true));
    }

    // ---- idempotency ---------------------------------------------------------------------

    method ClaimIdempotency(slot: Slot, hash: Fingerprint, resource: Id, expiresAt: Instant, now: Instant)
      returns (r: Result<Claim, Error>)
      modifies this`db
      ensures var claim := ClaimOf(old(db).records, slot, hash, resource, now);
              r == if claim.Conflict? then Failure(IdempotencyConflict) else Success(claim)
      ensures r == Success(Acquired) ==>
                db == old(db).(records := old(db).records[slot := Record(hash, resource, Processing, None, None, expiresAt)])
      ensures r != Success(Acquired) ==> db == old(db)
    {
      var claimed := Record(hash, resource, Processing, None, None, expiresAt);
      if slot !in db.records {
        db := db.(records := db.records[slot := claimed]);
        return Success(Acquired);
      }
      var stored := db.records[slot];
      if stored.expiresAt <= now || stored.status == FailedRecord {
        db := db.(records := db.records[slot := claimed]);
        return Success(Acquired);
      }
      if stored.hash != hash || stored.resource != resource { return Failure(IdempotencyConflict); }
      r := Success(if stored.status == Processing then Busy else Replay(stored));
    }

    method CompleteIdempotency(slot: Slot, hash: Fingerprint, resource: Id, response: Option<Bill>, code: int)
      returns (r: Result<(), Error>)
      modifies this`db
      ensures r == if !((code == 200 && response.Some?) || (code == 204 && response.None?)) then Failure(Validation)
                   else if slot in old(db).records && old(db).records[slot].hash == hash
                           && old(db).records[slot].resource == resource && old(db).records[slot].status == Processing
                   then Success(()) else Failure(IdempotencyConflict)
      ensures r.Success? ==>
                var done := old(db).records[slot].(status := Completed, code := Some(code), response := response);
                db == old(db).(records := old(db).records[slot := done])
    {
      if (code != 200 && code != 204) || (code == 200 && response.None?) || (code == 204 && response.Some?) {
        return Failure(Validation);
      }
      if slot !in db.records || db.records[slot].hash != hash || db.records[slot].resource != resource
         || db.records[slot].status != Processing {
        return Failure(IdempotencyConflict);
      }
      var done := db.records[slot].(status := Completed, code := Some(code), response := response);
      db := db.(records := db.records[slot := done]);
      r := Success(());
    }
  }
}
