/** What no request ever takes back: one lemma per kind of request. */
module BillLater {
  import opened Prelude
  import opened BillModel
  import opened BillSpec
  import opened BillInvariant
  import opened BillPreservation

  /** How a later state of one bill relates to an earlier one. */
  predicate RowAdvances(db': Db, b: Id, row: Row) {
    if b in db'.bills then
      var row' := db'.bills[b];
      && row'.origin == row.origin && row.state.version <= row'.state.version
      && (row.state.version == row'.state.version ==> row' == row)
      && (row.state.status == Paid || row.state.status == Void ==> row' == row)
      && (row.state.status != Review ==> row'.state.status != Review)
    else
      row.state.status == Review
  }

  /** Transfers stay, and so do the system exclusions on their legs. */
  predicate LedgerKept(db: Db, db': Db) {
    && (forall l :: l in db.links ==> l in db'.links && db'.links[l] == db.links[l])
    && (forall l, t :: l in db.links && LegOf(db.links[l], t) && t in db.treatments &&
                       db.treatments[t].source == System ==>
          t in db'.treatments && db'.treatments[t] == db.treatments[t])
    && db'.isoCodes == db.isoCodes && db.next <= db'.next
  }

  predicate Later(db: Db, db': Db) {
    && LedgerKept(db, db')
    && (forall b :: b in db.bills ==> RowAdvances(db', b, db.bills[b]))
    && (forall b :: b < db.next && b !in db.bills ==> b !in db'.bills)
  }

  lemma LedgerKeptTransitive(a: Db, b: Db, c: Db)
    requires LedgerKept(a, b) && LedgerKept(b, c)
    ensures LedgerKept(a, c)
  {
    forall l, t | l in a.links && LegOf(a.links[l], t) && t in a.treatments && a.treatments[t].source == System
      ensures t in c.treatments && c.treatments[t] == a.treatments[t]
    {
      assert LegOf(b.links[l], t);
    }
  }

  lemma RowAdvancesTransitive(a: Db, b: Db, c: Db, x: Id)
    requires Later(a, b) && Later(b, c) && x in a.bills && x < a.next
    ensures RowAdvances(c, x, a.bills[x])
  {
    hide LedgerKept;
    assert a.next <= b.next by { assert LedgerKept(a, b); NextGrows(a, b); }
    assert RowAdvances(b, x, a.bills[x]);
    if x in b.bills {
      assert RowAdvances(c, x, b.bills[x]);
    }
  }

  lemma NextGrows(a: Db, b: Db)
    requires LedgerKept(a, b)
    ensures a.next <= b.next
  {
  }

  lemma LaterTransitive(a: Db, b: Db, c: Db)
    requires Later(a, b) && Later(b, c)
    requires forall x :: x in a.bills ==> x < a.next
    ensures Later(a, c)
  {
    hide LedgerKept, RowAdvances;
    LedgerKeptTransitive(a, b, c);
    NextGrows(a, b);
    forall x | x in a.bills
      ensures RowAdvances(c, x, a.bills[x])
    {
      RowAdvancesTransitive(a, b, c, x);
    }
  }

  lemma LaterReflexive(db: Db)
    ensures Later(db, db)
  {
  }

  lemma GrowsKeepsLedger(db: Db, db': Db)
    requires Grows(db, db')
    ensures LedgerKept(db, db')
  {
  }

  lemma AllBillsAllocated(db: Db)
    requires Inv(db)
    ensures forall b :: b in db.bills ==> b < db.next
  {
  }

  lemma BillMoves(db: Db, db': Db, id: Id, row: Row)
    requires Grows(db, db') && db'.bills == db.bills[id := row]
    requires if id in db.bills then
               && row.origin == db.bills[id].origin && row.state.version == db.bills[id].state.version + 1
               && (db.bills[id].state.status == Review || db.bills[id].state.status == Unpaid)
               && (db.bills[id].state.status == Unpaid ==> row.state.status != Review)
             else id >= db.next
    ensures Later(db, db')
  {
    GrowsKeepsLedger(db, db');
    hide Grows, LedgerKept;
  }

  lemma LedgerMoves(db: Db, db': Db)
    requires LedgerKept(db, db') && db'.bills == db.bills
    ensures Later(db, db')
  {
    hide LedgerKept;
  }

  // ---- the Review operations -------------------------------------------------------

  lemma SettleGrows(db: Db, id: Id, row: Row, event: Event, now: Instant)
    requires TreatmentsOk(db.treatments)
    ensures Grows(db, Settle(db, id, row, event, now).db)
  {
    var res := Resolve(db, row);
    ResolutionIsSavable(db, row);
    hide Resolve;
    if res.AutoPaid? {
      LockingExcludes(db, db.links[res.link], now);
    }
  }

  lemma SettleLater(db: Db, id: Id, row: Row, event: Event, now: Instant)
    requires TreatmentsOk(db.treatments)
    requires if id in db.bills then
               row.origin == db.bills[id].origin && row.state.version == db.bills[id].state.version &&
               db.bills[id].state.status == Review
             else id >= db.next
    ensures Later(db, Settle(db, id, row, event, now).db)
  {
    SettleGrows(db, id, row, event, now);
    hide Resolve, Synced, Grows, LockedTreatments, Later, RowAdvances;
    BillMoves(db, Settle(db, id, row, event, now).db, id, SettledRow(row, Resolve(db, row), event, now));
  }

  /** What a Review operation may rely on. */
  lemma ReviewBill(db: Db, id: Id, v: int)
    requires Inv(db) && InReview(db, id, v).Success?
    ensures id in db.bills && InReview(db, id, v).value == db.bills[id] && db.bills[id].state.status == Review
    ensures TreatmentsOk(db.treatments)
  {
    hide RowsOk, LinesDistinct, BillsDistinct, LinesOk, LinksOk, TreatmentsOk, RecordsOk;
  }

  lemma CorrectLater(db: Db, id: Id, v: int, c: Correction, now: Instant)
    requires Inv(db) && CorrectEffect(db, id, v, c, now).Success?
    ensures Later(db, CorrectEffect(db, id, v, c, now).value.db)
  {
    hide Inv, Settle, Later, TreatmentsOk;
    ReviewBill(db, id, v);
    var row := db.bills[id];
    SettleLater(db, id, row.(state := row.state.(header := Corrected(row.state.header, c))),
                Happened(HeaderCorrected, BoundedReason(c.reason).value), now);
  }

  lemma AttachLater(db: Db, id: Id, v: int, line: Id, txn: Id, exception: Option<string>, now: Instant)
    requires Inv(db) && AttachEffect(db, id, v, line, txn, exception, now).Success?
    ensures Later(db, AttachEffect(db, id, v, line, txn, exception, now).value.db)
  {
    hide Inv, Settle, Later, TreatmentsOk, CheckLink, LinkedElsewhere, LoadTransaction;
    ReviewBill(db, id, v);
    var row := db.bills[id];
    var k := MutableLine(row, line).value;
    var t := LoadTransaction(db, txn).value;
    var why := CheckLink(row.origin.account, row.state.header, row.lines[k], t, exception).value;
    SettleLater(db, id, row.(lines := row.lines[k := LinkedLine(row.lines[k], txn, why)]), Happened(LineLinked, ""), now);
  }

  lemma IgnoreLater(db: Db, id: Id, v: int, line: Id, reason: string, now: Instant)
    requires Inv(db) && IgnoreEffect(db, id, v, line, reason, now).Success?
    ensures Later(db, IgnoreEffect(db, id, v, line, reason, now).value.db)
  {
    hide Inv, Settle, Later, TreatmentsOk;
    var why := BoundedReason(reason).value;
    ReviewBill(db, id, v);
    var row := db.bills[id];
    var k := MutableLine(row, line).value;
    var ignored := row.lines[k].(status := Ignored, reason := Some(why));
    SettleLater(db, id, row.(lines := row.lines[k := ignored]), Happened(LineIgnored, why), now);
  }

  lemma CreateLater(db: Db, id: Id, v: int, line: Id, category: Id, now: Instant)
    requires Inv(db) && CreateLineEffect(db, id, v, line, category, now).Success?
    ensures Later(db, CreateLineEffect(db, id, v, line, category, now).value.db)
  {
    hide Inv, Settle, Later, TreatmentsOk, CheckLink, LoadTransaction, CreateFromCandidate;
    ReviewBill(db, id, v);
    var row := db.bills[id];
    var k := MutableLine(row, line).value;
    var made := CreateFromCandidate(db, row, row.lines[k], category).value;
    CreatedTransactionIsNew(db, row, row.lines[k], category);
    CandidateLater(db, row, row.lines[k], category);
    var linked := row.(lines := row.lines[k := LinkedLine(row.lines[k], db.next, row.lines[k].exception)]);
    SettleLater(made, id, linked, Happened(LineTransactionCreated, ""), now);
    AllBillsAllocated(db);
    LaterTransitive(db, made, Settle(made, id, linked, Happened(LineTransactionCreated, ""), now).db);
  }

  lemma CandidateLater(db: Db, row: Row, line: Line, category: Id)
    requires CreateFromCandidate(db, row, line, category).Success?
    ensures Later(db, CreateFromCandidate(db, row, line, category).value)
    ensures CreateFromCandidate(db, row, line, category).value.treatments == db.treatments
  {
    LedgerMoves(db, CreateFromCandidate(db, row, line, category).value);
  }

  lemma GrowsFromEarlier(db: Db, grown: Db, after: Db)
    requires grown == db.(next := grown.next) && db.next <= grown.next && Grows(grown, after)
    ensures Grows(db, after)
  {
  }

  lemma FreshBillLater(db: Db, row: Row, now: Instant)
    requires TreatmentsOk(db.treatments) && forall b :: b in db.bills ==> b < db.next
    ensures Later(db, FirstSettlement(db, row, now).db)
  {
    hide Resolve, SettledRow, ResolvedTreatments, Grows, Later, TreatmentsOk;
    var grown := db.(next := db.next + 1 + |row.lines|);
    var event := Happened(Imported, "");
    var after := Settle(grown, db.next, row, event, now).db;
    SettleGrows(grown, db.next, row, event, now);
    GrowsFromEarlier(db, grown, after);
    BillMoves(db, after, db.next, after.bills[db.next]);
  }

  lemma ProjectLater(db: Db, document: Id, generation: int, now: Instant)
    requires Inv(db) && ProjectEffect(db, document, generation, now).Success?
    ensures Later(db, ProjectEffect(db, document, generation, now).value.db)
  {
    AllBillsAllocated(db);
    hide RowsOk, LinesDistinct, BillsDistinct, LinesOk, LinksOk, RecordsOk, TreatmentsOk, FirstSettlement, Later,
      Projectable, LoadBill;
    if BillsOf(db, document) == {} {
      FreshBillLater(db, Projectable(db, document, generation).value, now);
    } else {
      LaterReflexive(db);
    }
  }

  // ---- choosing, paying, voiding and discarding --------------------------------------

  lemma SavedLater(db: Db, id: Id, state: State, suggestion: Option<Id>, event: Event)
    requires id in db.bills && state.status != Review
    requires db.bills[id].state.status == Review || db.bills[id].state.status == Unpaid
    ensures Later(db, db.(bills := db.bills[id := Saved(db.bills[id], state, suggestion, None, event)]))
  {
    hide Synced, Later;
    var saved := Saved(db.bills[id], state, suggestion, None, event);
    BillMoves(db, db.(bills := db.bills[id := saved]), id, saved);
  }

  lemma SelectLater(db: Db, id: Id, v: int, t: Id, now: Instant)
    requires SelectEffect(db, id, v, t, now).Success?
    ensures Later(db, SelectEffect(db, id, v, t, now).value.db)
  {
    hide LoadTransaction, ValidDebit, ChosenByAnother, LoadBill, Later, Saved;
    SavedLater(db, id, db.bills[id].state.(status := Unpaid), Some(t), Happened(PaymentSelected, ""));
  }

  lemma VoidLater(db: Db, id: Id, v: int, reason: string, now: Instant)
    requires VoidEffect(db, id, v, reason, now).Success?
    ensures Later(db, VoidEffect(db, id, v, reason, now).value.db)
  {
    hide Later, Saved;
    var why := BoundedReason(reason).value;
    SavedLater(db, id, db.bills[id].state.(status := Void, voidReason := Some(why)), None, Happened(Voided, why));
  }

  lemma DiscardLater(db: Db, id: Id, v: int)
    requires DiscardEffect(db, id, v).Success?
    ensures Later(db, DiscardEffect(db, id, v).value.db)
  {
  }

  lemma PayoffLater(
    db: Db, id: Id, link: Id, legs: Link, txns: map<Id, Txn>, confirmed: Option<Id>, event: Event, now: Instant)
    requires Inv(db) && id in db.bills && db.bills[id].state.status == Unpaid
    requires FreshLegs(db, link, legs, txns)
    ensures Later(db, Payoff(db, id, db.bills[id], link, legs, txns, confirmed, event, now).db)
  {
    hide Inv, Grows, LockedTreatments, LinksOk, Synced, Later, KeepsTransactions, TreatmentsOk, LegsExcluded, Answer;
    var row := db.bills[id];
    FreshLinkSettlesNothing(db, link);
    PayoffLedger(db, id, row, link, legs, txns, confirmed, event, now);
    BillMoves(db, Payoff(db, id, row, link, legs, txns, confirmed, event, now).db, id,
              Saved(row, PaidState(row.state, link, now), None, confirmed, event));
  }

  lemma ConfirmLater(db: Db, id: Id, v: int, t: Id, now: Instant)
    requires Inv(db) && ConfirmEffect(db, id, v, t, now).Success?
    ensures Later(db, ConfirmEffect(db, id, v, t, now).value.db)
  {
    hide Inv, Payoff, PayableWith, Later;
    var row := db.bills[id];
    PayableDebit(db, id, row, t);
    var at := LoadTransaction(db, t).value.at;
    PayoffLater(
      db, id, db.next + 1, Link(t, db.next), map[db.next := Leg(row.origin.account, Credit, row.state.header, at)],
      Some(t), Happened(PaymentConfirmed, ""), now);
  }

  lemma PayInFullLater(db: Db, id: Id, v: int, bank: Id, now: Instant)
    requires Inv(db) && PayInFullEffect(db, id, v, bank, now).Success?
    ensures Later(db, PayInFullEffect(db, id, v, bank, now).value.db)
  {
    hide Inv, Payoff, Later;
    var row := db.bills[id];
    var n, card, h := db.next, row.origin.account, row.state.header;
    PayoffLater(db, id, n + 2, Link(n, n + 1), map[n := Leg(bank, Debit, h, now), n + 1 := Leg(card, Credit, h, now)],
                None, Happened(PayoffCreated, ""), now);
  }

  // ---- the other writers -----------------------------------------------------------------

  /** A transaction that is a leg of a transfer cannot be deleted, so its exclusion stays. */
  lemma DeletionKeepsLedger(db: Db, t: Id)
    requires LinksOf(db, t) == {}
    ensures LedgerKept(db, db.(txns := db.txns - {t}, treatments := db.treatments - {t}))
  {
    forall l | l in db.links
      ensures !LegOf(db.links[l], t)
    {
      assert l !in LinksOf(db, t);
    }
  }

  lemma OthersLater(db: Db, cmd: Command, now: Instant)
    requires Inv(db) && EffectOf(db, cmd, now).Success? && !cmd.Project? && !Mutates(cmd)
    ensures Later(db, EffectOf(db, cmd, now).value.db)
  {
    hide RowsOk, LinesDistinct, BillsDistinct, LinesOk, RecordsOk, TreatmentsOk, RowAdvances, Later;
    if cmd.DeleteTransaction? {
      DeletionKeepsLedger(db, cmd.target);
    }
    LedgerMoves(db, EffectOf(db, cmd, now).value.db);
  }

  lemma EffectLater(db: Db, cmd: Command, now: Instant)
    requires Inv(db) && EffectOf(db, cmd, now).Success?
    ensures Later(db, EffectOf(db, cmd, now).value.db)
  {
    hide Inv, Later, ProjectEffect, CorrectEffect, AttachEffect, IgnoreEffect, CreateLineEffect, SelectEffect,
      ConfirmEffect, PayInFullEffect, VoidEffect, DiscardEffect, PutTreatmentEffect;
    match cmd
    case Project(d, g) => ProjectLater(db, d, g, now);
    case CorrectHeader(b, v, c) => CorrectLater(db, b, v, c, now);
    case AttachLine(b, v, l, t, e) => AttachLater(db, b, v, l, t, e, now);
    case IgnoreLine(b, v, l, r) => IgnoreLater(db, b, v, l, r, now);
    case CreateLine(b, v, l, c, _) => CreateLater(db, b, v, l, c, now);
    case SelectPayment(b, v, t, _) => SelectLater(db, b, v, t, now);
    case ConfirmPayment(b, v, t, _) => ConfirmLater(db, b, v, t, now);
    case PayInFull(b, v, a, _) => PayInFullLater(db, b, v, a, now);
    case VoidBill(b, v, r, _) => VoidLater(db, b, v, r, now);
    case DiscardBill(b, v, _) => DiscardLater(db, b, v);
    case _ => OthersLater(db, cmd, now);
  }

  lemma RecordingLater(a: Db, b: Db, records: map<Slot, Record>)
    requires Later(a, b)
    ensures Later(a, b.(records := records))
  {
  }

  lemma StepLater(db: Db, cmd: Command, now: Instant)
    requires Inv(db)
    ensures Later(db, Exec(db, cmd, now).0)
  {
    hide EffectOf, Inv, Later;
    LaterReflexive(db);
    if EffectOf(db, cmd, now).Success? {
      EffectLater(db, cmd, now);
      if Keyed(cmd) {
        RecordingLater(db, EffectOf(db, cmd, now).value.db, Exec(db, cmd, now).0.records);
      }
    }
  }
}
