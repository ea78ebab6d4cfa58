/** Why a request on a bill is refused, in terms of the stored columns, in the order the checks are made. */
module BillRefusals {
  import opened Prelude
  import opened Text
  import opened BillModel
  import opened BillSpec
  import opened BillInvariant
  import opened BillPreservation
  import opened BillContracts
  import opened BillReview

  /** What is checked of a request before the bill is looked at. */
  predicate SaysEnough(cmd: Command)
    requires Mutates(cmd)
  {
    match cmd
    case CorrectHeader(_, _, c) => SaysSomething(c) && Explains(c.reason, TrimSpace(c.reason))
    case IgnoreLine(_, _, _, reason) => Explains(reason, TrimSpace(reason))
    case VoidBill(_, _, reason, _) => Explains(reason, TrimSpace(reason))
    case PayInFull(_, _, bank, _) => bank != 0
    case _ => true
  }

  /** Confirming, paying and voiding want an Unpaid bill, everything else one in Review. */
  function WantedStatus(cmd: Command): Status
    requires Mutates(cmd)
  {
    if cmd.ConfirmPayment? || cmd.PayInFull? || cmd.VoidBill? then Unpaid else Review
  }

  /** Too little said is invalid, no bill is not found, another version is a conflict, another status is invalid. */
  lemma RefusedForItsBill(db: Db, cmd: Command, now: Instant)
    requires Mutates(cmd)
    ensures var e := EffectOf(db, cmd, now);
            if !SaysEnough(cmd) then e == Failure(Validation)
            else if cmd.bill !in db.bills then e == Failure(NotFound)
            else if !StoredAt(db, cmd.bill, cmd.version) then e == Failure(VersionConflict)
            else db.bills[cmd.bill].state.status != WantedStatus(cmd) ==> e == Failure(Validation)
  {
    match cmd {
      case CorrectHeader(_, _, c) =>
        ExplainsExactly(c.reason);
        CorrectionExactly(db.isoCodes, BLANK_HEADER, c);
      case IgnoreLine(_, _, _, reason) => ExplainsExactly(reason);
      case VoidBill(_, _, reason, _) => ExplainsExactly(reason);
      case _ =>
    }
    hide LoadTransaction, CheckLink, Settle, ValidDebit, ChosenByAnother, LoadBill, FindCandidate, ValidFields, MutableLine,
      BoundedReason, Explains, TrimSpace, LinkedElsewhere, Payoff, Saved, Merged, Corrected, SaysSomething, CorrectsNothing;
  }

  /** On the right bill, no such line is not found, a resolved or summary line is invalid, a used transaction a duplicate. */
  lemma RefusedForItsLine(db: Db, cmd: Command, now: Instant)
    requires Inv(db) && (cmd.AttachLine? || cmd.IgnoreLine? || cmd.CreateLine?)
    requires SaysEnough(cmd) && InReviewAt(db, cmd.bill, cmd.version)
    ensures var e, lines := EffectOf(db, cmd, now), db.bills[cmd.bill].lines;
            && ((forall k :: 0 <= k < |lines| ==> lines[k].id != cmd.line) ==> e == Failure(NotFound))
            && (forall k :: 0 <= k < |lines| && lines[k].id == cmd.line && !PendingLineAt(db.bills[cmd.bill], cmd.line, k) ==>
                  e == Failure(Validation))
            && (forall k :: cmd.AttachLine? && PendingLineAt(db.bills[cmd.bill], cmd.line, k) ==>
                  && (!(cmd.txn in db.txns) ==> e == Failure(NotFound))
                  && (cmd.txn in db.txns && !LineFree(db, cmd.txn, cmd.line) ==> e == Failure(DuplicateTransaction)))
  {
    InReviewExactly(db, cmd.bill, cmd.version);
    PendingLineExactly(db, cmd.bill, cmd.line);
    if cmd.IgnoreLine? {
      ExplainsExactly(cmd.reason);
    }
    var row := db.bills[cmd.bill];
    forall k | 0 <= k < |row.lines| && row.lines[k].id == cmd.line
      ensures FindLine(row.lines, cmd.line) == k
    {
      LinesHaveTheirIds(db, cmd.bill, FindLine(row.lines, cmd.line), k);
    }
    if cmd.AttachLine? && cmd.txn in db.txns {
      Loadable(db, cmd.txn);
    }
    hide Inv, InReview, LoadTransaction, CheckLink, Settle, BoundedReason, Explains, TrimSpace, FindCandidate, CreateFromCandidate;
  }

  lemma Loadable(db: Db, t: Id)
    requires Inv(db) && t in db.txns
    ensures LoadTransaction(db, t).Success?
  {
  }

  /** An unknown transaction is not found, a system treatment immutable, and anything but the row the user saw a conflict. */
  lemma TreatmentRefusals(db: Db, t: Id, basis: Basis, note: string, expected: Option<Instant>, now: Instant)
    ensures var e := PutTreatmentEffect(db, t, basis, note, expected, now);
            if t !in db.txns then e == Failure(NotFound)
            else if t in db.treatments && db.treatments[t].source == System then e == Failure(Immutable)
            else expected != (if t in db.treatments then Some(db.treatments[t].updatedAt) else None) ==>
                   e == Failure(VersionConflict)
  {
  }
}
