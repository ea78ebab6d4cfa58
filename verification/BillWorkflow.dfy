/** The work of each bill request inside its transaction: step by step, it leaves what its effect says. */
module BillWorkflow {
  import opened Prelude
  import opened Text
  import opened BillModel
  import opened BillSpec
  import opened BillInvariant
  import opened BillPreservation
  import opened BillStore

  /** What the search for a payment found. */
  datatype PaymentResolution = PaymentResolution(
    searched: bool, exactTransfers: nat, bankDebits: nat, automatic: Option<Id>)

  function SearchOf(res: Resolution): PaymentResolution {
    match res
    case Unready => PaymentResolution(false, 0, 0, None)
    case AutoPaid(link) => PaymentResolution(true, 1, 0, Some(link))
    case ManyTransfers(n) => PaymentResolution(true, n, 0, None)
    case NoDebit => PaymentResolution(true, 0, 0, None)
    case OneDebit(_) => PaymentResolution(true, 0, 1, None)
    case ManyDebits(ds) => PaymentResolution(true, 0, |ds|, None)
  }

  function DebitsOf(res: Resolution): set<Id> {
    match res
    case OneDebit(d) => {d}
    case ManyDebits(ds) => ds
    case _ => {}
  }

  function ResolvedBill(bill: Bill, res: Resolution, now: Instant): Bill {
    bill.(state := ResolvedState(bill.state, res, now), suggestion := Suggestion(res), selected := false,
          ambiguous := Ambiguous(res))
  }

  /** The stored row with the header and lines the service holds in memory. */
  function RowOf(db: Db, bill: Bill): Row
    requires bill.id in db.bills
  {
    db.bills[bill.id].(state := bill.state, lines := bill.lines)
  }

  /** What a transaction may rely on while it works on a Review bill. */
  predicate Working(db: Db, bill: Bill) {
    && bill.id in db.bills && bill.origin == db.bills[bill.id].origin
    && db.bills[bill.id].state.payoff == None && bill.state.status == Review
    && TreatmentsOk(db.treatments) && LinksOk(db)
  }

  lemma DebitsAreValid(db: Db, card: Id, h: Header, t: Id)
    requires Complete(h) && t in BankDebitCandidates(db, card, h)
    ensures LoadTransaction(db, t).Success? && ValidDebit(h, LoadTransaction(db, t).value)
  {
  }

  lemma AllListedAreValid(db: Db, card: Id, h: Header, found: seq<CanonicalTransaction>)
    requires Complete(h) && Lists(db, found, BankDebitCandidates(db, card, h))
    ensures forall i :: 0 <= i < |found| ==> ValidDebit(h, found[i])
  {
    hide ValidDebit, LoadTransaction, ExactDebit;
    forall i | 0 <= i < |found|
      ensures ValidDebit(h, found[i])
    {
      DebitsAreValid(db, card, h, found[i].id);
    }
  }

  lemma ListedIds(db: Db, found: seq<CanonicalTransaction>, ts: set<Id>)
    requires Lists(db, found, ts)
    ensures (set i | 0 <= i < |found| :: found[i].id) == ts
  {
  }

  /** The rows suggested while searching are the rows the save writes anyway. */
  lemma SyncAbsorbs(rows: map<Id, CandidateStatus>, res: Resolution)
    ensures Synced(Suggesting(rows, DebitsOf(res)), Suggestion(res), false, Ambiguous(res), None)
            == Synced(rows, Suggestion(res), false, Ambiguous(res), None)
  {
    var rows' := Suggesting(rows, DebitsOf(res));
    var a := Synced(rows', Suggestion(res), false, Ambiguous(res), None);
    var b := Synced(rows, Suggestion(res), false, Ambiguous(res), None);
    assert a.Keys == b.Keys;
    forall t | t in a
      ensures a[t] == b[t]
    {
      assert Some(a[t]) == SyncedStatus(Lookup(rows', t), t, Suggestion(res), false, Ambiguous(res), None);
      assert Some(b[t]) == SyncedStatus(Lookup(rows, t), t, Suggestion(res), false, Ambiguous(res), None);
    }
  }

  method HasPendingLines(lines: seq<Line>) returns (pending: bool)
    ensures pending == HasPending(lines)
  {
    for i := 0 to |lines|
      invariant forall k :: 0 <= k < i ==> lines[k].status != Pending
    {
      if lines[i].status == Pending { return true; }
    }
    return false;
  }

  method ReplaceLine(bill: Bill, replacement: Line) returns (replaced: Bill)
    ensures var k := FindLine(bill.lines, replacement.id);
            (forall i, j :: 0 <= i < j < |bill.lines| ==> bill.lines[i].id != bill.lines[j].id) ==>
              replaced == if k < 0 then bill else bill.(lines := bill.lines[k := replacement])
  {
    for index := 0 to |bill.lines|
      invariant forall i :: 0 <= i < index ==> bill.lines[i].id != replacement.id
    {
      if bill.lines[index].id == replacement.id {
        return bill.(lines := bill.lines[index := replacement]);
      }
    }
    return bill;
  }

  method ValidateLineTransaction(card: Id, h: Header, line: Line, t: CanonicalTransaction, supplied: Option<string>)
    returns (r: Result<Option<string>, Error>)
    ensures r == CheckLink(card, h, line, t, supplied)
  {
    if t.account != card || t.accountType != CreditCard { return Failure(Validation); }
    var want := Debit;
    if line.kind == Refund || line.kind == Payment { want := Credit; }
    if t.direction != want { return Failure(Validation); }
    if line.kind == Payment && !QualifyingPayment(card, t) { return Failure(Validation); }
    var mismatch := false;
    if t.amount != line.amount { mismatch := true; }
    if t.currency != line.currency { mismatch := true; }
    var start, end := h.periodStart, h.periodEnd;
    if line.kind == Payment { start, end := h.statementDate, h.dueDate; }
    if !Within(start, DayOf(t.at), end) { mismatch := true; }
    mismatch := mismatch || DayOf(t.at) != DayOf(line.at);
    if mismatch {
      if supplied == None { return Failure(Validation); }
      var reason :- BoundedReason(supplied.value);
      return Success(Some(reason));
    }
    if supplied.Some? { return Failure(Validation); }
    return Success(None);
  }

  /** Line `i` is well formed and repeats no earlier index and no earlier candidate. */
  predicate Follows(lines: seq<Line>, i: nat)
    requires i < |lines|
  {
    && WellFormedLine(lines[i])
    && forall k :: 0 <= k < i ==>
         && lines[k].index != lines[i].index
         && (lines[k].kind != Summary && lines[i].kind != Summary ==> lines[k].candidate != lines[i].candidate)
  }

  method ValidateProjectedLines(lines: seq<Line>) returns (r: Result<(), Error>)
    ensures r == if forall i :: 0 <= i < |lines| ==> Follows(lines, i) then Success(()) else Failure(Validation)
  {
    hide TrimSpace;
    var indexes: set<int>, candidates: set<Id> := {}, {};
    for i := 0 to |lines|
      invariant forall k :: 0 <= k < i ==> Follows(lines, k)
      invariant indexes == set k | 0 <= k < i :: lines[k].index
      invariant forall k :: 0 <= k < i && lines[k].kind != Summary ==>
                  lines[k].candidate.Some? && lines[k].candidate.value in candidates
      invariant forall c :: c in candidates ==>
                  exists k :: 0 <= k < i && lines[k].kind != Summary && lines[k].candidate == Some(c)
    {
      var line := lines[i];
      if line.id == 0 || line.index < 1 || |TrimSpace(line.description)| < 1 || |line.description| > 500 {
        assert !Follows(lines, i);
        return Failure(Validation);
      }
      if line.index in indexes {
        assert !Follows(lines, i);
        return Failure(Validation);
      }
      indexes := indexes + {line.index};
      if line.kind == Summary {
        if line.status != Ignored || line.txn != None {
          assert !Follows(lines, i);
          return Failure(Validation);
        }
        continue;
      }
      if line.candidate == None || line.candidate.value in candidates {
        assert !Follows(lines, i);
        return Failure(Validation);
      }
      candidates := candidates + {line.candidate.value};
    }
    r := Success(());
  }

  // ---- the tail every Review operation shares ------------------------------------------

  method LockPayoffTreatments(tx: Transaction, debit: Id, credit: Id, now: Instant) returns (r: Result<(), Error>)
    requires debit != credit && debit in tx.db.txns && credit in tx.db.txns && TreatmentsOk(tx.db.treatments)
    modifies tx`db
    ensures r == Success(())
    ensures tx.db == old(tx.db).(treatments := LockedTreatments(old(tx.db).treatments, {debit, credit}, now))
  {
    r := tx.LockSystemPayoffExclusions(debit, credit, now);
  }

  function MarkPaid(bill: Bill, link: Id, now: Instant): Bill {
    bill.(state := PaidState(bill.state, link, now), suggestion := None, selected := false, ambiguous := {})
  }

  lemma LinkHasTwoLegs(db: Db, link: Id)
    requires LinksOk(db) && link in db.links
    ensures var l := db.links[link]; l.debit != l.credit && l.debit in db.txns && l.credit in db.txns
  {
  }

  /** No exact transfer: zero, one or many exact debits decide. */
  method ResolveByDebits(tx: Transaction, bill: Bill) returns (r: Bill, found: nat)
    requires bill.id in tx.db.bills && Complete(bill.state.header) && bill.origin == tx.db.bills[bill.id].origin
    requires bill.suggestion == None && !bill.selected && bill.ambiguous == {}
    modifies tx`db
    ensures var debits := BankDebitCandidates(old(tx.db), bill.origin.account, bill.state.header);
            && found == |debits|
            && tx.db == PutCandidates(old(tx.db), bill.id, Suggesting(old(tx.db).bills[bill.id].candidates, debits))
            && r == bill.(state := bill.state.(status := if |debits| > 1 then Review else Unpaid),
                          suggestion := if |debits| == 1 then Some(Least(debits)) else None,
                          ambiguous := if |debits| > 1 then debits else {})
  {
    hide LoadTransaction, ExactDebit, ValidDebit, PutCandidates, Suggesting;
    ghost var before := tx.db;
    ghost var debits := BankDebitCandidates(tx.db, bill.origin.account, bill.state.header);
    var candidates := tx.FindBankDebitCandidates(bill.id, bill.state.header);
    AllListedAreValid(before, bill.origin.account, bill.state.header, candidates);
    ListedIds(before, candidates, debits);
    r, found := bill, |candidates|;
    if |candidates| == 0 {
      r := bill.(state := bill.state.(status := Unpaid));
    } else if |candidates| == 1 {
      r := bill.(state := bill.state.(status := Unpaid), suggestion := Some(candidates[0].id));
      Singleton(debits, candidates[0].id);
    } else {
      var ambiguous: set<Id> := {};
      for i := 0 to |candidates|
        invariant ambiguous == set k | 0 <= k < i :: candidates[k].id
      {
        if ValidDebit(bill.state.header, candidates[i]) {
          ambiguous := ambiguous + {candidates[i].id};
        }
      }
      r := bill.(state := bill.state.(status := Review), ambiguous := ambiguous);
    }
  }

  /** Decide how a Review bill is paid, recording the debits found and freezing the legs of a single exact transfer. */
  method ResolvePayment(tx: Transaction, was: Bill, now: Instant)
    returns (r: Result<(Bill, PaymentResolution), Error>)
    requires Working(tx.db, was)
    modifies tx`db
    ensures var before := old(tx.db);
            var res := Resolve(before, RowOf(before, was));
            && r == Success((ResolvedBill(was, res, now), SearchOf(res)))
            && (res.AutoPaid? ==> res.link in before.links && !Settles(before, res.link))
            && tx.db == PutCandidates(before, was.id, Suggesting(before.bills[was.id].candidates, DebitsOf(res)))
                        .(treatments := ResolvedTreatments(before, res, now))
  {
    hide LinksOk, TreatmentsOk, LockedTreatments, Suggesting, Lists, LoadTransaction, ExactTransfer, ExactDebit, ValidFields,
      Settles;
    ghost var before := tx.db;
    ResolutionIsSavable(before, RowOf(before, was));
    SuggestingNone(before.bills[was.id].candidates);
    PutSame(before, was.id);
    var bill := was.(state := was.state.(payoff := None, paidAt := None), suggestion := None, selected := false, ambiguous := {});
    var h, card := bill.state.header, bill.origin.account;
    var pending := HasPendingLines(bill.lines);
    if bill.origin.unresolved > 0 || !Complete(h) || pending {
      return Success((bill.(state := bill.state.(status := Review)), PaymentResolution(false, 0, 0, None)));
    }
    if !ValidFields(tx.db.isoCodes, h) {
      return Success((bill.(state := bill.state.(status := Review)), PaymentResolution(false, 0, 0, None)));
    }
    var matches := ExactPayoffTransfers(tx.db, card, h);
    if |matches| == 1 {
      var link := Least(matches);
      LinkHasTwoLegs(before, link);
      var locked := LockPayoffTreatments(tx, tx.db.links[link].debit, tx.db.links[link].credit, now);
      return Success((MarkPaid(bill, link, now), PaymentResolution(true, 1, 0, Some(link))));
    }
    if |matches| > 1 {
      return Success((bill.(state := bill.state.(status := Review)), PaymentResolution(true, |matches|, 0, None)));
    }
    ghost var debits, res := BankDebitCandidates(before, card, h), Resolve(before, RowOf(before, was));
    if |debits| == 1 {
      Singleton(debits, Least(debits));
    }
    assert DebitsOf(res) == debits && matches == {};
    var resolved, found := ResolveByDebits(tx, bill);
    assert tx.db.treatments == before.treatments;
    r := Success((resolved, PaymentResolution(true, 0, found, None)));
  }

  method AppendStatusChangeEvent(tx: Transaction, id: Id, from: Status, to: Status)
    requires id in tx.db.bills
    modifies tx`db
    ensures var row := old(tx.db).bills[id];
            tx.db == PutRow(old(tx.db), id, row.(events := row.events + StatusChange(from, to)))
  {
    if from == to {
      assert tx.db.bills[id].events + [] == tx.db.bills[id].events;
      return;
    }
    tx.AppendBillEvent(id, Event(StatusChanged, "", Some(from), Some(to)));
  }

  method AppendPaymentResolutionEvents(
    tx: Transaction, id: Id, from: Status, to: Status, search: PaymentResolution, ghost res: Resolution)
    requires id in tx.db.bills && search == SearchOf(res)
    modifies tx`db
    ensures var row := old(tx.db).bills[id];
            tx.db == PutRow(old(tx.db), id, row.(events := row.events + ResolutionEvents(res) + StatusChange(from, to)))
  {
    ghost var events := tx.db.bills[id].events;
    if search.searched {
      tx.AppendBillEvent(id, Happened(PaymentCandidatesFound, ""));
      if search.automatic.Some? {
        tx.AppendBillEvent(id, Happened(PaymentConfirmed, ""));
      }
    }
    assert tx.db.bills[id].events == events + ResolutionEvents(res);
    AppendStatusChangeEvent(tx, id, from, to);
  }

  method SaveMutatedBill(tx: Transaction, bill: Bill, expected: int) returns (r: Result<Bill, Error>)
    modifies tx`db
    ensures bill.id !in old(tx.db).bills || old(tx.db).bills[bill.id].state.version != expected ==> r == Failure(VersionConflict)
    ensures bill.id in old(tx.db).bills && old(tx.db).bills[bill.id].state.version == expected ==>
              var saved := bill.(state := bill.state.(version := expected + 1));
              && r == (if Taken(old(tx.db), bill.id, bill.state.payoff) || ChoiceTaken(old(tx.db), bill, tx.confirmed)
                       then Failure(Constraint) else Success(saved))
              && (r.Success? ==>
                    tx.db == PutRow(old(tx.db), bill.id, SavedBy(old(tx.db).bills[bill.id], saved, tx.confirmed)))
  {
    hide Synced, ChosenByAnother, Taken, PutRow;
    var saved := bill.(state := bill.state.(version := expected + 1));
    var done := tx.SaveBill(saved, expected);
    r := if done.Failure? then Failure(done.error) else Success(saved);
  }

  /** The tables with the stored row of a bill replaced by what a Review operation leaves. */
  lemma TailAdds(db: Db, bill: Bill, res: Resolution, event: Event, now: Instant)
    requires bill.id in db.bills && bill.origin == db.bills[bill.id].origin
    requires res.AutoPaid? ==> res.link in db.links
    ensures var stored := db.bills[bill.id];
            var searched := stored.(candidates := Suggesting(stored.candidates, DebitsOf(res)), lines := bill.lines);
            var resolved := ResolvedBill(bill, res, now);
            var version := bill.state.version + 1;
            var saved := SavedBy(searched, resolved.(state := resolved.state.(version := version)), None);
            var events := stored.events + [event] + ResolutionEvents(res) + StatusChange(bill.state.status, resolved.state.status);
            saved.(events := events) == SettledRow(RowOf(db, bill), res, event, now)
  {
    SyncAbsorbs(db.bills[bill.id].candidates, res);
    hide Synced, Suggesting;
    var stored := db.bills[bill.id];
    assert stored.events + [event] + ResolutionEvents(res) == stored.events + ([event] + ResolutionEvents(res));
  }

  /** Nobody else is paid by the transfer this bill resolves to, and nothing is selected, so the save is let in. */
  lemma SaveIsLetIn(before: Db, db: Db, bill: Bill, res: Resolution, now: Instant)
    requires bill.id in db.bills && bill.state.status == Review
    requires forall b :: b in db.bills && b != bill.id ==> b in before.bills && db.bills[b] == before.bills[b]
    requires res.AutoPaid? ==> !Settles(before, res.link)
    ensures !Taken(db, bill.id, ResolvedBill(bill, res, now).state.payoff)
    ensures !ChoiceTaken(db, ResolvedBill(bill, res, now), None)
  {
  }

  lemma OneRowMoved(before: map<Id, Row>, after: map<Id, Row>, id: Id)
    requires id in before && after.Keys == before.Keys && forall b :: b in before && b != id ==> after[b] == before[b]
    ensures after == before[id := after[id]]
  {
  }

  /** Resolve, save and log: what ends every operation on a Review bill. */
  method FinishReview(tx: Transaction, bill: Bill, event: Event, now: Instant) returns (r: Result<Bill, Error>)
    requires Working(tx.db, bill) && tx.confirmed == None
    requires bill.lines == tx.db.bills[bill.id].lines && bill.state.version == tx.db.bills[bill.id].state.version
    requires bill.events == tx.db.bills[bill.id].events
    modifies tx`db
    ensures var done := Settle(old(tx.db), bill.id, RowOf(old(tx.db), bill), event, now);
            tx.db == done.db && r == Success(done.bill.value.(failures := bill.failures))
  {
    hide Resolve, Synced, Suggesting, LockedTreatments, TreatmentsOk, LinksOk, Settles, Taken, ChoiceTaken;
    ghost var before := tx.db;
    ghost var res := Resolve(before, RowOf(before, bill));
    var resolution := ResolvePayment(tx, bill, now);
    var resolved, search := resolution.value.0, resolution.value.1;
    SaveIsLetIn(before, tx.db, bill, res, now);
    var result := SaveMutatedBill(tx, resolved, bill.state.version);
    var saved := result.value;
    tx.AppendBillEvent(bill.id, event);
    AppendPaymentResolutionEvents(tx, bill.id, bill.state.status, saved.state.status, search, res);
    TailAdds(before, bill, res, event, now);
    assert tx.db.bills[bill.id] == SettledRow(RowOf(before, bill), res, event, now);
    OneRowMoved(before.bills, tx.db.bills, bill.id);
    r := Success(saved);
  }

  // ---- the operations -----------------------------------------------------------------

  method GetVersion(tx: Transaction, id: Id, v: int) returns (r: Result<Bill, Error>)
    ensures var row := Versioned(tx.db, id, v);
            r == if row.Failure? then Failure(row.error) else Success(LoadBill(id, row.value))
  {
    var bill :- tx.GetBillForUpdate(id);
    if v < 1 || v != bill.state.version { return Failure(VersionConflict); }
    r := Success(bill);
  }

  method GetReview(tx: Transaction, id: Id, v: int) returns (r: Result<Bill, Error>)
    ensures var row := InReview(tx.db, id, v);
            r == if row.Failure? then Failure(row.error) else Success(LoadBill(id, row.value))
  {
    var bill :- GetVersion(tx, id, v);
    if bill.state.status != Review { return Failure(Validation); }
    r := Success(bill);
  }

  method LoadMutableLine(tx: Transaction, id: Id, line: Id, v: int) returns (r: Result<(Bill, Line), Error>)
    ensures var row := InReview(tx.db, id, v);
            if row.Failure? then r == Failure(row.error) else
            var k := MutableLine(row.value, line);
            r == if k.Failure? then Failure(k.error) else Success((LoadBill(id, row.value), row.value.lines[k.value]))
  {
    var bill :- GetReview(tx, id, v);
    var k := FindLine(tx.db.bills[id].lines, line);
    if k < 0 { return Failure(NotFound); }
    var found := tx.db.bills[id].lines[k];
    if found.status != Pending || found.kind == Summary { return Failure(Validation); }
    r := Success((bill, found));
  }

  /** A Review bill just loaded may be worked on. */
  lemma ReviewIsWorkable(db: Db, id: Id, v: int)
    requires Core(db) && InReview(db, id, v).Success?
    ensures id in db.bills && InReview(db, id, v).value == db.bills[id]
    ensures Working(db, LoadBill(id, db.bills[id])) && StatusColumns(db.bills[id].state)
  {
    assert RowOk(db, db.bills[id]);
  }

  lemma LineIdsDiffer(db: Db, id: Id)
    requires Core(db) && id in db.bills
    ensures var lines := db.bills[id].lines; forall i, j :: 0 <= i < j < |lines| ==> lines[i].id != lines[j].id
  {
    var lines := db.bills[id].lines;
    forall i, j | 0 <= i < j < |lines|
      ensures lines[i].id != lines[j].id
    {
      assert LinesApart(lines[i], lines[j]);
    }
  }

  /** The tables payment resolution reads, and which transfers are spoken for. */
  predicate SameLedger(db: Db, db': Db) {
    && db'.txns == db.txns && db'.accounts == db.accounts && db'.links == db.links && db'.isoCodes == db.isoCodes
    && forall l :: l in db.links ==> Settles(db', l) == Settles(db, l)
  }

  lemma SameTransfers(db: Db, db': Db, card: Id, h: Header)
    requires SameLedger(db, db') && Complete(h)
    ensures ExactPayoffTransfers(db', card, h) == ExactPayoffTransfers(db, card, h)
  {
    hide Settles;
    forall l | l in db.links
      ensures ExactTransfer(db', db.links[l], card, h) == ExactTransfer(db, db.links[l], card, h)
    {
    }
  }

  lemma SameDebits(db: Db, db': Db, card: Id, h: Header)
    requires SameLedger(db, db') && Complete(h)
    ensures BankDebitCandidates(db', card, h) == BankDebitCandidates(db, card, h)
  {
    hide Settles;
    forall t | t in db.txns
      ensures ExactDebit(db', t, card, h) == ExactDebit(db, t, card, h)
    {
      assert LinksOf(db', t) == LinksOf(db, t);
    }
  }

  lemma SameResolve(db: Db, db': Db, row: Row)
    requires SameLedger(db, db')
    ensures Resolve(db', row) == Resolve(db, row)
  {
    if Ready(db.isoCodes, row) {
      SameTransfers(db, db', row.origin.account, row.state.header);
      SameDebits(db, db', row.origin.account, row.state.header);
    }
    hide ExactPayoffTransfers, BankDebitCandidates, SameLedger;
    assert db'.isoCodes == db.isoCodes by { assert SameLedger(db, db'); IsoSame(db, db'); }
  }

  lemma IsoSame(db: Db, db': Db)
    requires SameLedger(db, db')
    ensures db'.isoCodes == db.isoCodes
  {
  }

  lemma UnpaidRowIsNoClaim(db: Db, id: Id, stored: Row)
    requires stored.state.payoff == None && (id in db.bills ==> db.bills[id].state.payoff == None)
    ensures SameLedger(db, PutRow(db, id, stored))
  {
    var db' := PutRow(db, id, stored);
    forall l | l in db.links
      ensures Settles(db', l) == Settles(db, l)
    {
      assert forall b :: b in db.bills && b != id ==> db'.bills[b] == db.bills[b];
    }
  }

  /** What the stored row of a bill was does not matter to the save that replaces it. */
  lemma SettleIgnoresOwnRow(db: Db, id: Id, stored: Row, row: Row, event: Event, now: Instant)
    requires stored.state.payoff == None && (id in db.bills ==> db.bills[id].state.payoff == None)
    ensures Settle(PutRow(db, id, stored), id, row, event, now) == Settle(db, id, row, event, now)
  {
    UnpaidRowIsNoClaim(db, id, stored);
    SameResolve(db, PutRow(db, id, stored), row);
    ResolutionIsSavable(db, row);
    hide Resolve, Synced, LockedTreatments, SameLedger, Settles;
    var res := Resolve(db, row);
    var saved := SettledRow(row, res, event, now);
    assert PutRow(db, id, stored).bills[id := saved] == db.bills[id := saved];
  }

  /** What an operation's callback returns and leaves, against its effect. */
  predicate Outcome(spec: Result<Effect, Error>, db: Db, r: Result<Bill, Error>) {
    match spec
    case Success(e) => r.Success? && e.bill == Some(r.value) && db == e.db
    case Failure(error) => r == Failure(error)
  }

  method CorrectHeader(tx: Transaction, id: Id, v: int, c: Correction, reason: string, now: Instant)
    returns (r: Result<Bill, Error>)
    requires Core(tx.db) && tx.confirmed == None && !CorrectsNothing(c) && BoundedReason(c.reason) == Success(reason)
    modifies tx`db
    ensures Outcome(CorrectEffect(old(tx.db), id, v, c, now), tx.db, r)
  {
    hide Core, Settle, LoadBill, TreatmentsOk, LinksOk, BoundedReason, ValidFields, StatusColumns;
    var bill :- GetReview(tx, id, v);
    ReviewIsWorkable(tx.db, id, v);
    LoadedFields(id, tx.db.bills[id]);
    bill := bill.(state := bill.state.(header := Corrected(bill.state.header, c)));
    if !ValidFields(tx.db.isoCodes, bill.state.header) { return Failure(Validation); }
    r := FinishReview(tx, bill, Happened(HeaderCorrected, reason), now);
    SettleAnswers(old(tx.db), id, RowOf(old(tx.db), bill), Happened(HeaderCorrected, reason), now);
  }

  lemma LoadedFields(id: Id, row: Row)
    ensures var bill := LoadBill(id, row);
            && bill.id == id && bill.origin == row.origin && bill.state == row.state && bill.lines == row.lines
            && bill.events == row.events && !bill.failures
  {
  }

  lemma SettleAnswers(db: Db, id: Id, row: Row, event: Event, now: Instant)
    ensures Settle(db, id, row, event, now).bill.Some? && !Settle(db, id, row, event, now).bill.value.failures
  {
  }

  lemma LinksSurvive(db: Db, id: Id, row: Row)
    requires LinksOk(db)
    ensures LinksOk(PutRow(db, id, row))
  {
  }

  /** Save the line, put it in the in-memory bill, then resolve, save and log. */
  method FinishLine(
    tx: Transaction, bill: Bill, line: Line, event: Event, now: Instant) returns (r: Result<Bill, Error>)
    requires Working(tx.db, bill) && tx.confirmed == None && !bill.failures
    requires bill == LoadBill(bill.id, tx.db.bills[bill.id])
    requires forall i, j :: 0 <= i < j < |bill.lines| ==> bill.lines[i].id != bill.lines[j].id
    requires var k := FindLine(bill.lines, line.id);
             k >= 0 && line == bill.lines[k].(status := line.status, reason := line.reason, exception := line.exception, txn := line.txn)
    requires line.txn.Some? ==> !LinkedElsewhere(tx.db, line.txn.value, line.id)
    modifies tx`db
    ensures var row, k := old(tx.db).bills[bill.id], FindLine(bill.lines, line.id);
            Outcome(Success(Settle(old(tx.db), bill.id, row.(lines := row.lines[k := line]), event, now)), tx.db, r)
  {
    hide Settle, TreatmentsOk, LinksOk, LinkedElsewhere, Open, Chosen;
    ghost var before, row, k := tx.db, tx.db.bills[bill.id], FindLine(bill.lines, line.id);
    LoadedFields(bill.id, row);
    ghost var stored := row.(lines := row.lines[k := line]);
    var kept := tx.SaveLine(bill.id, line);
    assert tx.db == PutRow(before, bill.id, stored);
    LinksSurvive(before, bill.id, stored);
    var replaced := ReplaceLine(bill, line);
    r := FinishReview(tx, replaced, event, now);
    SettleIgnoresOwnRow(before, bill.id, stored, stored, event, now);
    SettleAnswers(before, bill.id, stored, event, now);
  }

  /** The line a line operation found, and what it may rely on. */
  lemma FoundLine(db: Db, id: Id, v: int, line: Id)
    requires Core(db) && InReview(db, id, v).Success? && MutableLine(db.bills[id], line).Success?
    ensures var row, k := db.bills[id], MutableLine(db.bills[id], line).value;
            && k == FindLine(row.lines, line) && 0 <= k < |row.lines| && row.lines[k].id == line
            && LineOk(db, row.lines[k]) && row.lines[k].status == Pending && row.lines[k].txn == None
  {
    assert LinesOk(db);
  }

  method AttachLine(tx: Transaction, id: Id, v: int, line: Id, txn: Id, supplied: Option<string>, now: Instant)
    returns (r: Result<Bill, Error>)
    requires Core(tx.db) && tx.confirmed == None
    modifies tx`db
    ensures Outcome(AttachEffect(old(tx.db), id, v, line, txn, supplied, now), tx.db, r)
  {
    hide Core, Settle, LoadBill, TreatmentsOk, LinksOk, CheckLink, LinkedElsewhere, StatusColumns, LineOk, LoadTransaction;
    var loaded :- LoadMutableLine(tx, id, line, v);
    ReviewIsWorkable(tx.db, id, v);
    FoundLine(tx.db, id, v, line);
    LineIdsDiffer(tx.db, id);
    LoadedFields(id, tx.db.bills[id]);
    var bill, found := loaded.0, loaded.1;
    var t :- LoadTransaction(tx.db, txn);
    LoadsItself(tx.db, txn);
    if LinkedElsewhere(tx.db, t.id, found.id) { return Failure(DuplicateTransaction); }
    var exception :- ValidateLineTransaction(bill.origin.account, bill.state.header, found, t, supplied);
    found := found.(status := Linked, txn := Some(t.id), exception := exception);
    r := FinishLine(tx, bill, found, Happened(LineLinked, ""), now);
  }

  method IgnoreLine(tx: Transaction, id: Id, v: int, line: Id, note: string, reason: string, now: Instant)
    returns (r: Result<Bill, Error>)
    requires Core(tx.db) && tx.confirmed == None && BoundedReason(note) == Success(reason)
    modifies tx`db
    ensures Outcome(IgnoreEffect(old(tx.db), id, v, line, note, now), tx.db, r)
  {
    hide Core, Settle, LoadBill, TreatmentsOk, LinksOk, LinkedElsewhere, StatusColumns, LineOk, BoundedReason;
    var loaded :- LoadMutableLine(tx, id, line, v);
    ReviewIsWorkable(tx.db, id, v);
    FoundLine(tx.db, id, v, line);
    LineIdsDiffer(tx.db, id);
    LoadedFields(id, tx.db.bills[id]);
    var bill, found := loaded.0, loaded.1;
    found := found.(status := Ignored, reason := Some(reason));
    r := FinishLine(tx, bill, found, Happened(LineIgnored, reason), now);
  }

  lemma CreatedLedger(db: Db, row: Row, line: Line, category: Id)
    requires Core(db) && CreateFromCandidate(db, row, line, category).Success?
    ensures var made := CreateFromCandidate(db, row, line, category).value;
            && made.bills == db.bills && LinksOk(made) && made.treatments == db.treatments
    ensures forall l :: !LinkedElsewhere(db, db.next, l)
  {
    forall b, i | b in db.bills && 0 <= i < |db.bills[b].lines|
      ensures db.bills[b].lines[i].txn != Some(db.next)
    {
      assert LineOk(db, db.bills[b].lines[i]);
    }
  }

  method CreateLineTransaction(tx: Transaction, id: Id, v: int, line: Id, category: Id, now: Instant)
    returns (r: Result<Bill, Error>)
    requires Core(tx.db) && tx.confirmed == None
    modifies tx`db
    ensures Outcome(CreateLineEffect(old(tx.db), id, v, line, category, now), tx.db, r)
  {
    hide Core, Settle, LoadBill, TreatmentsOk, LinksOk, CheckLink, LinkedElsewhere, StatusColumns, LineOk, LoadTransaction,
      CreateFromCandidate;
    var loaded :- LoadMutableLine(tx, id, line, v);
    ReviewIsWorkable(tx.db, id, v);
    FoundLine(tx.db, id, v, line);
    LineIdsDiffer(tx.db, id);
    LoadedFields(id, tx.db.bills[id]);
    var bill, found := loaded.0, loaded.1;
    if category == 0 || found.candidate == None || !CreatableKind(found.kind) { return Failure(Validation); }
    ghost var before := tx.db;
    var created :- tx.CreateTransactionFromPinnedCandidate(id, found, category);
    CreatedLedger(before, before.bills[id], found, category);
    SameBillsSameLinks(before, tx.db, created, line);
    var t :- LoadTransaction(tx.db, created);
    LoadsItself(tx.db, created);
    var checked :- ValidateLineTransaction(bill.origin.account, bill.state.header, found, t, None);
    found := found.(status := Linked, txn := Some(t.id));
    r := FinishLine(tx, bill, found, Happened(LineTransactionCreated, ""), now);
  }

  // ---- choosing, paying, voiding and discarding ---------------------------------------------

  /** Save a decided bill, log one fact and the change of status. */
  method FinishDecided(tx: Transaction, was: Bill, bill: Bill, event: Event) returns (r: Result<Bill, Error>)
    requires bill.id in tx.db.bills && bill.state.version == tx.db.bills[bill.id].state.version
    requires was.state.status == tx.db.bills[bill.id].state.status
    requires bill.ambiguous == {} && bill.selected == bill.suggestion.Some? && bill.lines == tx.db.bills[bill.id].lines
    requires !Taken(tx.db, bill.id, bill.state.payoff)
    modifies tx`db
    ensures r == if ChoiceTaken(old(tx.db), bill, tx.confirmed) then Failure(Constraint)
                 else Success(bill.(state := bill.state.(version := bill.state.version + 1)))
    ensures r.Success? ==>
              tx.db == PutRow(old(tx.db), bill.id,
                              Saved(old(tx.db).bills[bill.id], bill.state, bill.suggestion, tx.confirmed, event))
  {
    hide Synced, ChoiceTaken, Taken;
    ghost var row := tx.db.bills[bill.id];
    var saved :- SaveMutatedBill(tx, bill, bill.state.version);
    tx.AppendBillEvent(bill.id, event);
    AppendStatusChangeEvent(tx, bill.id, was.state.status, saved.state.status);
    assert tx.db.bills[bill.id] == Saved(row, bill.state, bill.suggestion, tx.confirmed, event);
    r := Success(saved);
  }

  lemma StoredColumns(db: Db, id: Id)
    requires Core(db) && id in db.bills
    ensures StatusColumns(db.bills[id].state) && TreatmentsOk(db.treatments) && LinksOk(db)
  {
    assert RowOk(db, db.bills[id]);
  }

  method SelectPaymentCandidate(tx: Transaction, id: Id, v: int, t: Id, now: Instant) returns (r: Result<Bill, Error>)
    requires Core(tx.db) && tx.confirmed == None
    modifies tx`db
    ensures Outcome(SelectEffect(old(tx.db), id, v, t, now), tx.db, r)
  {
    hide Core, LoadBill, TreatmentsOk, LinksOk, LoadTransaction, ValidDebit, Saved, ChosenByAnother;
    var bill :- GetVersion(tx, id, v);
    StoredColumns(tx.db, id);
    LoadedFields(id, tx.db.bills[id]);
    if bill.state.status != Review || t !in bill.ambiguous { return Failure(Validation); }
    var candidate :- LoadTransaction(tx.db, t);
    LoadsItself(tx.db, t);
    if !ValidDebit(bill.state.header, candidate) { return Failure(Validation); }
    var chosen := bill.(suggestion := Some(candidate.id), selected := true, ambiguous := {},
                        state := bill.state.(status := Unpaid));
    SavedShape(tx.db.bills[id], chosen.state, chosen.suggestion, None, Happened(PaymentSelected, ""));
    r := FinishDecided(tx, bill, chosen, Happened(PaymentSelected, ""));
  }

  lemma SavedShape(row: Row, state: State, suggestion: Option<Id>, confirmed: Option<Id>, event: Event)
    ensures var saved := Saved(row, state, suggestion, confirmed, event);
            saved.origin == row.origin && saved.state == state.(version := row.state.version + 1)
  {
  }

  method VoidBill(tx: Transaction, id: Id, v: int, note: string, reason: string, now: Instant)
    returns (r: Result<Bill, Error>)
    requires Core(tx.db) && tx.confirmed == None && BoundedReason(note) == Success(reason)
    modifies tx`db
    ensures Outcome(VoidEffect(old(tx.db), id, v, note, now), tx.db, r)
  {
    hide Core, LoadBill, TreatmentsOk, LinksOk, Saved, ChosenByAnother, BoundedReason;
    var bill :- GetVersion(tx, id, v);
    StoredColumns(tx.db, id);
    LoadedFields(id, tx.db.bills[id]);
    if bill.state.status != Unpaid { return Failure(Validation); }
    var voided := bill.(suggestion := None, selected := false, ambiguous := {},
                        state := bill.state.(status := Void, voidReason := Some(reason)));
    SavedShape(tx.db.bills[id], voided.state, None, None, Happened(Voided, reason));
    r := FinishDecided(tx, bill, voided, Happened(Voided, reason));
  }

  lemma FreshIsFree(db: Db, link: Id)
    requires Core(db) && db.next <= link
    ensures forall b :: b in db.bills ==> db.bills[b].state.payoff != Some(link)
  {
    forall b | b in db.bills
      ensures db.bills[b].state.payoff != Some(link)
    {
      assert RowOk(db, db.bills[b]);
    }
  }

  lemma SuggestedIsOpen(id: Id, row: Row, t: Id)
    requires LoadBill(id, row).suggestion == Some(t)
    ensures t in Open(row.candidates) && t in row.candidates
  {
    assert Chosen(row.candidates) <= Open(row.candidates);
  }

  lemma SameBillsSameChoices(db: Db, db': Db, id: Id, t: Id)
    requires db'.bills == db.bills
    ensures ChosenByAnother(db', id, t) == ChosenByAnother(db, id, t)
  {
  }

  /** Freeze both legs, mark the bill paid, save it and log: how both kinds of payoff end. */
  method FinishPayoff(tx: Transaction, bill: Bill, link: Id, event: Event, now: Instant, ghost before: Db)
    returns (r: Result<Bill, Error>)
    requires bill.id in tx.db.bills && tx.db.bills == before.bills && link in tx.db.links
    requires bill == LoadBill(bill.id, before.bills[bill.id]) && bill.state.status == Unpaid
    requires var legs := tx.db.links[link];
             legs.debit != legs.credit && legs.debit in tx.db.txns && legs.credit in tx.db.txns
    requires TreatmentsOk(tx.db.treatments) && forall b :: b in before.bills ==> before.bills[b].state.payoff != Some(link)
    requires tx.confirmed.Some? ==> tx.confirmed.value in before.bills[bill.id].candidates
    modifies tx`db
    ensures var row, legs := before.bills[bill.id], old(tx.db).links[link];
            var saved := Saved(row, PaidState(row.state, link, now), None, tx.confirmed, event);
            if tx.confirmed.Some? && ChosenByAnother(before, bill.id, tx.confirmed.value) then r == Failure(Constraint)
            else && r.Success? && Some(r.value) == Answer(bill.id, row, saved, None)
                 && tx.db == old(tx.db).(bills := before.bills[bill.id := saved],
                                         treatments := LockedTreatments(old(tx.db).treatments, {legs.debit, legs.credit}, now))
  {
    hide LoadBill, TreatmentsOk, LockedTreatments, Saved, ChosenByAnother;
    ghost var row := before.bills[bill.id];
    LoadedFields(bill.id, row);
    var locked := LockPayoffTreatments(tx, tx.db.links[link].debit, tx.db.links[link].credit, now);
    var paid := MarkPaid(bill, link, now);
    SavedShape(row, paid.state, None, tx.confirmed, event);
    if tx.confirmed.Some? {
      SameBillsSameChoices(before, tx.db, bill.id, tx.confirmed.value);
    }
    r := FinishDecided(tx, bill, paid, event);
  }

  method ConfirmPaymentCandidate(tx: Transaction, id: Id, v: int, t: Id, now: Instant) returns (r: Result<Bill, Error>)
    requires Core(tx.db) && tx.confirmed == None
    modifies tx
    ensures Outcome(ConfirmEffect(old(tx.db), id, v, t, now), tx.db, r)
  {
    hide Core, LoadBill, TreatmentsOk, LoadTransaction, Saved, ChosenByAnother, LockedTreatments, StatusColumns, Open;
    ghost var before := tx.db;
    var bill :- GetVersion(tx, id, v);
    StoredColumns(before, id);
    LoadedFields(id, before.bills[id]);
    if bill.state.status != Unpaid || bill.suggestion != Some(t) { return Failure(Validation); }
    SuggestedIsOpen(id, before.bills[id], t);
    var candidate :- LoadTransaction(tx.db, t);
    LoadedIsStored(before, t);
    if !ValidDebit(bill.state.header, candidate) { return Failure(Validation); }
    FreshIsFree(before, before.next + 1);
    var link :- tx.CreateMissingCardLegAndTransfer(bill, t);
    r := FinishPayoff(tx, bill, link, Happened(PaymentConfirmed, ""), now, before);
  }

  lemma LoadedIsStored(db: Db, t: Id)
    requires LoadTransaction(db, t).Success?
    ensures t in db.txns
  {
  }

  method PayInFull(tx: Transaction, id: Id, v: int, bank: Id, now: Instant) returns (r: Result<Bill, Error>)
    requires Core(tx.db) && tx.confirmed == None && bank != 0
    modifies tx
    ensures Outcome(PayInFullEffect(old(tx.db), id, v, bank, now), tx.db, r)
  {
    hide Core, LoadBill, TreatmentsOk, Saved, ChosenByAnother, LockedTreatments, StatusColumns, LinksOk;
    ghost var before := tx.db;
    var bill :- GetVersion(tx, id, v);
    StoredColumns(before, id);
    LoadedFields(id, before.bills[id]);
    if bill.state.status != Unpaid || !Complete(bill.state.header) { return Failure(Validation); }
    FreshIsFree(before, before.next + 2);
    var h := bill.state.header;
    var link :- tx.CreateFullPayoffTransfer(bank, bill.origin.account, h.currency.value, h.amount.value, now);
    r := FinishPayoff(tx, bill, link, Happened(PayoffCreated, ""), now, before);
  }

  method DiscardReviewBill(tx: Transaction, id: Id, v: int) returns (r: Result<(), Error>)
    modifies tx`db
    ensures match DiscardEffect(old(tx.db), id, v)
            case Success(e) => r == Success(()) && tx.db == e.db && e.bill == None
            case Failure(error) => r == Failure(error)
  {
    var bill :- GetReview(tx, id, v);
    r := tx.DeleteReviewBill(id, v);
  }

  // ---- projection ---------------------------------------------------------------------------

  /** The unique keys already rule out repeated indexes and candidates. */
  lemma InsertableFollows(db: Db, lines: seq<Line>)
    requires Insertable(db, lines)
    ensures (forall i :: 0 <= i < |lines| ==> Follows(lines, i)) <==> (forall i :: 0 <= i < |lines| ==> WellFormedLine(lines[i]))
  {
    forall i | 0 <= i < |lines|
      ensures Follows(lines, i) == WellFormedLine(lines[i])
    {
      assert InsertableAfter(db, lines[..i], lines[i]);
      assert forall k :: 0 <= k < i ==> lines[..i][k] == lines[k];
    }
  }

  /** Save and log a bill whose projection had failures: it stays in Review without a search. */
  method FinishUnresolved(tx: Transaction, bill: Bill, event: Event, now: Instant) returns (r: Result<Bill, Error>)
    requires Working(tx.db, bill) && tx.confirmed == None && bill.origin.unresolved > 0
    requires bill.lines == tx.db.bills[bill.id].lines && bill.state.version == tx.db.bills[bill.id].state.version
    requires bill.events == tx.db.bills[bill.id].events
    requires bill.suggestion == None && !bill.selected && bill.ambiguous == {}
    modifies tx`db
    ensures var done := Settle(old(tx.db), bill.id, RowOf(old(tx.db), bill), event, now);
            tx.db == done.db && r == Success(done.bill.value.(failures := bill.failures))
  {
    hide Synced, Suggesting, LockedTreatments, TreatmentsOk, LinksOk, Settles, Taken, ChoiceTaken;
    ghost var before := tx.db;
    SuggestingNone(before.bills[bill.id].candidates);
    var kept := bill.(state := bill.state.(status := Review, payoff := None, paidAt := None));
    SaveIsLetIn(before, tx.db, bill, Unready, now);
    var result := SaveMutatedBill(tx, kept, bill.state.version);
    var saved := result.value;
    tx.AppendBillEvent(bill.id, event);
    AppendPaymentResolutionEvents(tx, bill.id, bill.state.status, saved.state.status, PaymentResolution(false, 0, 0, None), Unready);
    TailAdds(before, bill, Unready, event, now);
    assert tx.db.bills[bill.id] == SettledRow(RowOf(before, bill), Unready, event, now);
    assert tx.db.bills == before.bills[bill.id := tx.db.bills[bill.id]];
    r := Success(saved);
  }

  lemma FreshIsWorkable(db: Db, id: Id, next: Id, row: Row, bill: Bill)
    requires Core(db) && id == db.next && id < next && row.state.payoff == None && row.state.status == Review
    requires bill.id == id && bill.origin == row.origin && bill.state == row.state
    ensures id !in db.bills && Working(PutRow(db.(next := next), id, row), bill)
  {
    assert forall b :: b in db.bills ==> b < db.next;
  }

  lemma CoreRows(db: Db)
    requires Core(db)
    ensures RowsOk(db)
  {
  }

  method ProjectBulkBill(tx: Transaction, document: Id, generation: int, now: Instant) returns (r: Result<Bill, Error>)
    requires Core(tx.db) && tx.confirmed == None && document != 0 && generation >= 1
    modifies tx`db
    ensures Outcome(ProjectEffect(old(tx.db), document, generation, now), tx.db, r)
  {
    hide Core, RowsOk, Settle, LoadBill, Projectable, ProjectedRow, Insertable, Working, WellFormedLine, Follows;
    ghost var before := tx.db;
    CoreRows(before);
    var projection :- tx.ProjectBillFromBulk(document, generation);
    var bill, created := projection.0, projection.1;
    if !created {
      return Success(bill);
    }
    ghost var id, row := before.next, ProjectedRow(before, document, generation);
    ghost var grown := before.(next := id + 1 + |row.lines|);
    ProjectedShape(before, document, generation);
    InsertableFollows(before, row.lines);
    var valid :- ValidateProjectedLines(bill.lines);
    FreshIsWorkable(before, id, id + 1 + |row.lines|, row, bill);
    if bill.origin.unresolved > 0 || bill.failures {
      r := FinishUnresolved(tx, bill, Happened(Imported, ""), now);
    } else {
      r := FinishReview(tx, bill, Happened(Imported, ""), now);
    }
    assert RowOf(PutRow(grown, id, row), bill) == row;
    SettleIgnoresOwnRow(grown, id, row, row, Happened(Imported, ""), now);
    SettleAnswers(grown, id, row, Happened(Imported, ""), now);
  }

  lemma ProjectedShape(db: Db, document: Id, generation: int)
    requires document in db.documents
    ensures var row := ProjectedRow(db, document, generation);
            row.state.payoff == None && row.state.status == Review && row.events == [] && row.candidates == map[]
  {
  }
}
