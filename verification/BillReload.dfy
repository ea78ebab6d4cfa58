/** What a request answers is what the next reader loads, although dismissed candidate rows stay in the table. */
module BillReload {
  import opened Prelude
  import opened BillModel
  import opened BillSpec
  import opened BillInvariant
  import opened BillPreservation
  import opened BillLater

  /** Two bills agree on everything but the events, which the answer carries as they were loaded. */
  predicate Reloads(answer: Bill, loaded: Bill) {
    && answer.id == loaded.id && answer.origin == loaded.origin && answer.state == loaded.state && answer.lines == loaded.lines
    && answer.suggestion == loaded.suggestion && answer.selected == loaded.selected && answer.ambiguous == loaded.ambiguous
  }

  predicate AnswerStored(e: Effect, id: Id) {
    e.bill.Some? && id in e.db.bills && Reloads(e.bill.value, LoadBill(id, e.db.bills[id]))
  }

  lemma LoadsTheChoice(id: Id, row: Row, suggestion: Option<Id>, selected: bool, ambiguous: set<Id>)
    requires Savable(suggestion, selected, ambiguous, None)
    requires Open(row.candidates) == (if suggestion.Some? then {suggestion.value} else ambiguous)
    requires Chosen(row.candidates) == (if selected then {suggestion.value} else {})
    ensures var bill := LoadBill(id, row);
            bill.suggestion == suggestion && bill.selected == selected && bill.ambiguous == ambiguous
  {
  }

  lemma SettleReloads(db: Db, id: Id, row: Row, event: Event, now: Instant)
    ensures AnswerStored(Settle(db, id, row, event, now), id)
  {
    var res := Resolve(db, row);
    ResolutionIsSavable(db, row);
    hide Resolve, Synced, LockedTreatments;
    OpenAfterSync(row.candidates, Suggestion(res), false, Ambiguous(res), None);
    LoadsTheChoice(id, SettledRow(row, res, event, now), Suggestion(res), false, Ambiguous(res));
  }

  lemma SavedReloads(id: Id, row: Row, state: State, suggestion: Option<Id>, confirmed: Option<Id>, event: Event)
    requires confirmed.Some? ==> suggestion == None
    ensures var saved := Saved(row, state, suggestion, confirmed, event);
            Answer(id, row, saved, suggestion).Some? &&
            Reloads(Answer(id, row, saved, suggestion).value, LoadBill(id, saved))
  {
    hide Synced;
    OpenAfterSync(row.candidates, suggestion, suggestion.Some?, {}, confirmed);
    LoadsTheChoice(id, Saved(row, state, suggestion, confirmed, event), suggestion, suggestion.Some?, {});
  }

  lemma ReviewReloads(db: Db, cmd: Command, now: Instant)
    requires Inv(db) && EffectOf(db, cmd, now).Success?
    requires cmd.CorrectHeader? || cmd.AttachLine? || cmd.IgnoreLine? || cmd.CreateLine?
    ensures AnswerStored(EffectOf(db, cmd, now).value, cmd.bill)
  {
    hide Inv, Settle, AnswerStored, TreatmentsOk, CheckLink, LinkedElsewhere, LoadTransaction, CreateFromCandidate;
    ReviewBill(db, cmd.bill, cmd.version);
    var row := db.bills[cmd.bill];
    match cmd
    case CorrectHeader(b, v, c) =>
      SettleReloads(db, b, row.(state := row.state.(header := Corrected(row.state.header, c))),
                    Happened(HeaderCorrected, BoundedReason(c.reason).value), now);
    case AttachLine(b, v, l, t, e) =>
      var k := MutableLine(row, l).value;
      var why := CheckLink(row.origin.account, row.state.header, row.lines[k], LoadTransaction(db, t).value, e).value;
      SettleReloads(db, b, row.(lines := row.lines[k := LinkedLine(row.lines[k], t, why)]), Happened(LineLinked, ""), now);
    case IgnoreLine(b, v, l, r) =>
      var k, why := MutableLine(row, l).value, BoundedReason(r).value;
      SettleReloads(db, b, row.(lines := row.lines[k := row.lines[k].(status := Ignored, reason := Some(why))]),
                    Happened(LineIgnored, why), now);
    case CreateLine(b, v, l, c, _) =>
      var k := MutableLine(row, l).value;
      var made := CreateFromCandidate(db, row, row.lines[k], c).value;
      var linked := row.(lines := row.lines[k := LinkedLine(row.lines[k], db.next, row.lines[k].exception)]);
      SettleReloads(made, b, linked, Happened(LineTransactionCreated, ""), now);
  }

  lemma DecidedReloads(db: Db, cmd: Command, now: Instant)
    requires EffectOf(db, cmd, now).Success?
    requires cmd.SelectPayment? || cmd.ConfirmPayment? || cmd.PayInFull? || cmd.VoidBill?
    ensures AnswerStored(EffectOf(db, cmd, now).value, cmd.bill)
  {
    hide LoadTransaction, ValidDebit, ChosenByAnother, LoadBill, Saved, Answer, LockedTreatments, Reloads;
    var row := db.bills[cmd.bill];
    match cmd
    case SelectPayment(b, v, t, _) =>
      SavedReloads(b, row, row.state.(status := Unpaid), Some(t), None, Happened(PaymentSelected, ""));
    case ConfirmPayment(b, v, t, _) =>
      SavedReloads(b, row, PaidState(row.state, db.next + 1, now), None, Some(t), Happened(PaymentConfirmed, ""));
    case PayInFull(b, v, _, _) =>
      SavedReloads(b, row, PaidState(row.state, db.next + 2, now), None, None, Happened(PayoffCreated, ""));
    case VoidBill(b, v, r, _) =>
      var why := BoundedReason(r).value;
      SavedReloads(b, row, row.state.(status := Void, voidReason := Some(why)), None, None, Happened(Voided, why));
  }

  /** Every request that leaves a bill behind answers with what a reader of the committed tables loads. */
  lemma AnswerIsWhatIsStored(db: Db, cmd: Command, now: Instant)
    requires Inv(db) && Mutates(cmd) && !cmd.DiscardBill? && EffectOf(db, cmd, now).Success?
    ensures AnswerStored(EffectOf(db, cmd, now).value, cmd.bill)
  {
    hide Inv, EffectOf, AnswerStored;
    if cmd.CorrectHeader? || cmd.AttachLine? || cmd.IgnoreLine? || cmd.CreateLine? {
      ReviewReloads(db, cmd, now);
    } else {
      DecidedReloads(db, cmd, now);
    }
  }
}
