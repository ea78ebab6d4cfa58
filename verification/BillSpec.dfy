/**
 * What one committed request does to the tables, in a single step. The imperative
 * service is proved to do exactly this; the run theorems are about `Exec`.
 */
module BillSpec {
  import opened Prelude
  import opened Text
  import opened BillModel

  // ---- payment resolution ---------------------------------------------------

  datatype Resolution =
    | Unready
    | AutoPaid(link: Id)
    | ManyTransfers(count: nat)
    | NoDebit
    | OneDebit(debit: Id)
    | ManyDebits(debits: set<Id>)

  predicate Ready(codes: set<string>, row: Row) {
    && row.origin.unresolved == 0 && Complete(row.state.header)
    && ValidFields(codes, row.state.header) && !HasPending(row.lines)
  }

  function Resolve(db: Db, row: Row): Resolution {
    if !Ready(db.isoCodes, row) then Unready else
    var transfers := ExactPayoffTransfers(db, row.origin.account, row.state.header);
    var debits := BankDebitCandidates(db, row.origin.account, row.state.header);
    if |transfers| == 1 then AutoPaid(Least(transfers))
    else if transfers != {} then ManyTransfers(|transfers|)
    else if debits == {} then NoDebit
    else if |debits| == 1 then OneDebit(Least(debits))
    else ManyDebits(debits)
  }

  function PaidState(s: State, link: Id, now: Instant): State {
    s.(status := Paid, payoff := Some(link), voidReason := None, paidAt := Some(now))
  }

  function ResolvedState(s: State, res: Resolution, now: Instant): State {
    match res
    case AutoPaid(link) => PaidState(s, link, now)
    case NoDebit => s.(status := Unpaid, payoff := None, paidAt := None)
    case OneDebit(_) => s.(status := Unpaid, payoff := None, paidAt := None)
    case _ => s.(status := Review, payoff := None, paidAt := None)
  }

  function Suggestion(res: Resolution): Option<Id> {
    if res.OneDebit? then Some(res.debit) else None
  }

  function Ambiguous(res: Resolution): set<Id> {
    if res.ManyDebits? then res.debits else {}
  }

  // ---- events -----------------------------------------------------------------

  function Happened(kind: EventKind, reason: string): Event { Event(kind, reason, None, None) }

  function StatusChange(from: Status, to: Status): seq<Event> {
    if from == to then [] else [Event(StatusChanged, "", Some(from), Some(to))]
  }

  function ResolutionEvents(res: Resolution): seq<Event> {
    if res.Unready? then []
    else if res.AutoPaid? then [Happened(PaymentCandidatesFound, ""), Happened(PaymentConfirmed, "")]
    else [Happened(PaymentCandidatesFound, "")]
  }

  // ---- treatments ---------------------------------------------------------------

  function SystemExclusion(now: Instant): Treatment { Treatment(Exclude, System, PAYOFF_REASON, now) }

  /** Both legs end with a system exclusion; a system row already there is left alone. */
  function LockedTreatments(ts: map<Id, Treatment>, legs: set<Id>, now: Instant): map<Id, Treatment> {
    ts + map t | t in legs && (t !in ts || ts[t].source == User) :: SystemExclusion(now)
  }

  // ---- effects ------------------------------------------------------------------

  datatype Effect = Effect(db: Db, bill: Option<Bill>)

  function Versioned(db: Db, id: Id, expected: int): Result<Row, Error> {
    if id !in db.bills then Failure(NotFound)
    else if expected < 1 || expected != db.bills[id].state.version then Failure(VersionConflict)
    else Success(db.bills[id])
  }

  function InReview(db: Db, id: Id, expected: int): Result<Row, Error> {
    var row :- Versioned(db, id, expected);
    if row.state.status != Review then Failure(Validation) else Success(row)
  }

  /** The position of the pending line a line operation works on. */
  function MutableLine(row: Row, line: Id): Result<int, Error> {
    var k := FindLine(row.lines, line);
    if k < 0 then Failure(NotFound)
    else if row.lines[k].status != Pending || row.lines[k].kind == Summary then Failure(Validation)
    else Success(k)
  }

  /** The row a Review operation stores once its payment resolution is known. */
  function SettledRow(row: Row, res: Resolution, event: Event, now: Instant): Row {
    var state := ResolvedState(row.state, res, now).(version := row.state.version + 1);
    Row(row.origin, state, row.lines,
        Synced(row.candidates, Suggestion(res), false, Ambiguous(res), None),
        row.events + ([event] + ResolutionEvents(res)) + StatusChange(row.state.status, state.status))
  }

  function ResolvedTreatments(db: Db, res: Resolution, now: Instant): map<Id, Treatment>
    requires res.AutoPaid? ==> res.link in db.links
  {
    if !res.AutoPaid? then db.treatments
    else LockedTreatments(db.treatments, {db.links[res.link].debit, db.links[res.link].credit}, now)
  }

  /** Re-resolve the payment of a Review bill and save it: the tail every Review operation shares. */
  function Settle(db: Db, id: Id, row: Row, event: Event, now: Instant): Effect {
    var res := Resolve(db, row);
    var saved := SettledRow(row, res, event, now);
    Effect(
      db.(bills := db.bills[id := saved], treatments := ResolvedTreatments(db, res, now)),
      Some(Bill(id, row.origin, saved.state, Suggestion(res), false, Ambiguous(res), false, row.lines, row.events)))
  }

  // projection

  predicate IncludedStatus(s: BulkStatus) { s == Created || s == Attached || s == ReviewRequired }

  function Included(cs: seq<BulkCandidate>): seq<BulkCandidate> {
    if cs == [] then []
    else Included(cs[..|cs| - 1]) + if IncludedStatus(cs[|cs| - 1].status) then [cs[|cs| - 1]] else []
  }

  function CountFailed(cs: seq<BulkCandidate>): nat {
    if cs == [] then 0
    else CountFailed(cs[..|cs| - 1]) + if cs[|cs| - 1].status == Failed then 1 else 0
  }

  function NewLine(c: BulkCandidate, id: Id): Line {
    var linked := c.txn.Some? && (c.status == Created || c.status == Attached);
    Line(
      id, c.index, c.kind, if linked then Linked else Pending, Some(c.id), TrimSpace(c.title), c.on, NoonOf(c.on),
      c.amount, c.currency, None, None, if linked then c.txn else None)
  }

  function NewLines(cs: seq<BulkCandidate>, first: Id): (lines: seq<Line>)
    ensures |lines| == |cs|
  {
    seq(|cs|, k requires 0 <= k < |cs| => NewLine(cs[k], first + k))
  }

  /** The unique keys over statement lines, within one statement and over all of them. */
  predicate LinesApart(a: Line, b: Line) {
    && a.id != b.id
    && (a.candidate.Some? ==> a.candidate != b.candidate)
    && (a.txn.Some? ==> a.txn != b.txn)
  }

  predicate ApartFromStored(db: Db, line: Line) {
    forall b, i :: b in db.bills && 0 <= i < |db.bills[b].lines| ==> LinesApart(line, db.bills[b].lines[i])
  }

  predicate InsertableAfter(db: Db, earlier: seq<Line>, line: Line) {
    && line.index > 0 && line.amount > 0 && (line.txn.Some? ==> line.txn.value in db.txns)
    && (forall i :: 0 <= i < |earlier| ==> earlier[i].index != line.index && LinesApart(line, earlier[i]))
    && ApartFromStored(db, line)
  }

  predicate Insertable(db: Db, lines: seq<Line>) {
    forall k :: 0 <= k < |lines| ==> InsertableAfter(db, lines[..k], lines[k])
  }

  predicate WellFormedLine(line: Line) {
    && line.id != 0 && line.index >= 1 && 1 <= |TrimSpace(line.description)| && |line.description| <= 500
    && (line.kind == Summary ==> line.status == Ignored && line.txn == None)
    && (line.kind != Summary ==> line.candidate.Some?)
  }

  function BillsOf(db: Db, document: Id): set<Id> {
    set b | b in db.bills && db.bills[b].origin.document == document
  }

  predicate ActiveCard(db: Db, account: Id) {
    account in db.accounts && db.accounts[account].kind == CreditCard && !db.accounts[account].deleted
  }

  /** A summary naming another account is never allowed to fill the header. */
  function ProjectedHeader(d: Document): Header {
    if d.summaryRef.Some? && d.summaryRef.value != d.accountRef then BLANK_HEADER else d.summaryHeader
  }

  function OutputOf(db: Db, document: Id, generation: int): seq<BulkCandidate> {
    if (document, generation) in db.outputs then db.outputs[(document, generation)] else []
  }

  /** The row as inserted, before its payment is resolved. */
  function ProjectedRow(db: Db, document: Id, generation: int): Row
    requires document in db.documents
  {
    var d, output := db.documents[document], OutputOf(db, document, generation);
    Row(
      Origin(d.account, document, generation, CountFailed(output) + d.failedChunks),
      State(ProjectedHeader(d), Review, None, 1, None, None), NewLines(Included(output), db.next + 1), map[], [])
  }

  /** The first row of a document's bill, or why none can be made. */
  function Projectable(db: Db, document: Id, generation: int): Result<Row, Error>
    requires document in db.documents
  {
    var d, output := db.documents[document], OutputOf(db, document, generation);
    if d.generation != generation || !d.isCardBill || d.accountType != CreditCard then Failure(Validation)
    else if !ActiveCard(db, d.account) then Failure(Constraint)
    else if exists i :: 0 <= i < |output| && output[i].status == PendingReconciliation then Failure(Validation) else
    var row := ProjectedRow(db, document, generation);
    if !Insertable(db, row.lines) then Failure(Constraint)
    else if exists i :: 0 <= i < |row.lines| && !WellFormedLine(row.lines[i]) then Failure(Validation)
    else Success(row)
  }

  function FirstSettlement(db: Db, row: Row, now: Instant): Effect {
    var e := Settle(db.(next := db.next + 1 + |row.lines|), db.next, row, Happened(Imported, ""), now);
    e.(bill := Some(e.bill.value.(failures := row.origin.unresolved > 0)))
  }

  function ProjectEffect(db: Db, document: Id, generation: int, now: Instant): Result<Effect, Error> {
    if document == 0 || generation < 1 then Failure(Validation)
    else if document !in db.documents then Failure(NotFound) else
    var known := BillsOf(db, document);
    if known == {} then
      var row :- Projectable(db, document, generation);
      Success(FirstSettlement(db, row, now))
    else if db.bills[Least(known)].origin.generation != generation then Failure(Validation)
    else Success(Effect(db, Some(LoadBill(Least(known), db.bills[Least(known)]))))
  }

  // header and line operations

  datatype Correction = Correction(
    periodStart: Option<Day>, periodEnd: Option<Day>, statementDate: Option<Day>, dueDate: Option<Day>,
    currency: Option<string>, amount: Option<int>, reason: string)

  function Else<T>(a: Option<T>, b: Option<T>): Option<T> { if a.Some? then a else b }

  function Corrected(h: Header, c: Correction): Header {
    Header(
      Else(c.periodStart, h.periodStart), Else(c.periodEnd, h.periodEnd),
      Else(c.statementDate, h.statementDate), Else(c.dueDate, h.dueDate),
      if c.currency.Some? then Some(Upper(TrimSpace(c.currency.value))) else h.currency,
      Else(c.amount, h.amount))
  }

  predicate CorrectsNothing(c: Correction) {
    && c.periodStart == None && c.periodEnd == None && c.statementDate == None
    && c.dueDate == None && c.currency == None && c.amount == None
  }

  function CorrectEffect(db: Db, id: Id, v: int, c: Correction, now: Instant): Result<Effect, Error> {
    if CorrectsNothing(c) then Failure(Validation) else
    var reason :- BoundedReason(c.reason);
    var row :- InReview(db, id, v);
    var header := Corrected(row.state.header, c);
    if !ValidFields(db.isoCodes, header) then Failure(Validation)
    else Success(Settle(db, id, row.(state := row.state.(header := header)), Happened(HeaderCorrected, reason), now))
  }

  function LinkedLine(line: Line, txn: Id, exception: Option<string>): Line {
    line.(status := Linked, txn := Some(txn), exception := exception)
  }

  function AttachEffect(db: Db, id: Id, v: int, line: Id, txn: Id, exception: Option<string>, now: Instant)
    : Result<Effect, Error>
  {
    var row :- InReview(db, id, v);
    var k :- MutableLine(row, line);
    var t :- LoadTransaction(db, txn);
    if LinkedElsewhere(db, txn, line) then Failure(DuplicateTransaction) else
    var why :- CheckLink(row.origin.account, row.state.header, row.lines[k], t, exception);
    Success(Settle(db, id, row.(lines := row.lines[k := LinkedLine(row.lines[k], txn, why)]),
                   Happened(LineLinked, ""), now))
  }

  function IgnoreEffect(db: Db, id: Id, v: int, line: Id, reason: string, now: Instant): Result<Effect, Error> {
    var why :- BoundedReason(reason);
    var row :- InReview(db, id, v);
    var k :- MutableLine(row, line);
    Success(Settle(db, id, row.(lines := row.lines[k := row.lines[k].(status := Ignored, reason := Some(why))]),
                   Happened(LineIgnored, why), now))
  }

  // creating a transaction from the pinned candidate of a line

  function FindCandidate(cs: seq<BulkCandidate>, id: Id): (k: int)
    ensures -1 <= k < |cs|
    ensures k >= 0 ==> cs[k].id == id
  {
    if cs == [] then -1
    else if cs[|cs| - 1].id == id then |cs| - 1
    else FindCandidate(cs[..|cs| - 1], id)
  }

  predicate CreatableKind(kind: LineKind) {
    kind == Activity || kind == Refund || kind == Fee || kind == Interest
  }

  /** The new ledger row and the finished candidate, or why there is none. */
  function CreateFromCandidate(db: Db, row: Row, line: Line, category: Id): Result<Db, Error> {
    if !CreatableKind(line.kind) || line.candidate == None then Failure(Validation) else
    var at := (row.origin.document, row.origin.generation);
    var k := FindCandidate(OutputOf(db, at.0, at.1), line.candidate.value);
    if k < 0 then Failure(NotFound) else
    var c := db.outputs[at][k];
    if c.status != ReviewRequired || category !in db.categories then Failure(Validation)
    else if c.kind != line.kind || c.index < 1 || c.amount <= 0 then Failure(Validation)
    else if row.origin.account !in db.accounts || db.accounts[row.origin.account].deleted then Failure(Constraint)
    else if c.txn.Some? then Failure(DuplicateTransaction) else
    var txn := Txn(row.origin.account, WantedDirection(line.kind), c.currency, c.amount, NoonOf(c.on), true, {});
    Success(db.(
            txns := db.txns[db.next := txn], next := db.next + 1,
            outputs := db.outputs[at := db.outputs[at][k := c.(status := Created, txn := Some(db.next))]]))
  }

  function CreateLineEffect(db: Db, id: Id, v: int, line: Id, category: Id, now: Instant): Result<Effect, Error> {
    var row :- InReview(db, id, v);
    var k :- MutableLine(row, line);
    if category == 0 || row.lines[k].candidate == None || !CreatableKind(row.lines[k].kind) then Failure(Validation) else
    var made :- CreateFromCandidate(db, row, row.lines[k], category);
    var t :- LoadTransaction(made, db.next);
    var why :- CheckLink(row.origin.account, row.state.header, row.lines[k], t, None);
    Success(Settle(made, id, row.(lines := row.lines[k := LinkedLine(row.lines[k], db.next, row.lines[k].exception)]),
                   Happened(LineTransactionCreated, ""), now))
  }

  // choosing, confirming and paying

  predicate ChosenByAnother(db: Db, id: Id, t: Id) {
    exists b :: b in db.bills && b != id && t in db.bills[b].candidates &&
      (db.bills[b].candidates[t] == Selected || db.bills[b].candidates[t] == Confirmed)
  }

  /** Save a row whose state, suggestion and events are already decided. */
  function Saved(
    row: Row, state: State, suggestion: Option<Id>, confirmed: Option<Id>, event: Event): Row
  {
    Row(row.origin, state.(version := row.state.version + 1), row.lines,
        Synced(row.candidates, suggestion, suggestion.Some?, {}, confirmed),
        row.events + [event] + StatusChange(row.state.status, state.status))
  }

  function Answer(id: Id, row: Row, saved: Row, suggestion: Option<Id>): Option<Bill> {
    Some(Bill(id, saved.origin, saved.state, suggestion, suggestion.Some?, {}, false, row.lines, row.events))
  }

  /** Whether one of the ambiguous debits of a Review bill can be chosen. */
  function Selectable(db: Db, id: Id, row: Row, t: Id): Result<CanonicalTransaction, Error> {
    if row.state.status != Review || t !in LoadBill(id, row).ambiguous then Failure(Validation) else
    var txn :- LoadTransaction(db, t);
    if !ValidDebit(row.state.header, txn) then Failure(Validation)
    else if ChosenByAnother(db, id, t) then Failure(Constraint)
    else Success(txn)
  }

  function SelectEffect(db: Db, id: Id, v: int, t: Id, now: Instant): Result<Effect, Error> {
    var row :- Versioned(db, id, v);
    var txn :- Selectable(db, id, row, t);
    var saved := Saved(row, row.state.(status := Unpaid), Some(t), None, Happened(PaymentSelected, ""));
    Success(Effect(db.(bills := db.bills[id := saved]), Answer(id, row, saved, Some(t))))
  }

  /** The tables after a bill is paid by a transfer over the given legs, new ledger rows included. */
  function Payoff(
    db: Db, id: Id, row: Row, link: Id, legs: Link, txns: map<Id, Txn>, confirmed: Option<Id>, event: Event,
    now: Instant): Effect
  {
    var saved := Saved(row, PaidState(row.state, link, now), None, confirmed, event);
    Effect(
      db.(bills := db.bills[id := saved], txns := db.txns + txns, links := db.links[link := legs],
          treatments := LockedTreatments(db.treatments, {legs.debit, legs.credit}, now), next := link + 1),
      Answer(id, row, saved, None))
  }

  function Leg(account: Id, direction: Direction, h: Header, at: Instant): Txn
    requires Complete(h)
  {
    Txn(account, direction, h.currency.value, h.amount.value, at, true, {})
  }

  /** The suggested debit of an Unpaid bill, if the bill can be paid with it. */
  function PayableWith(db: Db, id: Id, row: Row, t: Id): Result<CanonicalTransaction, Error> {
    if row.state.status != Unpaid || LoadBill(id, row).suggestion != Some(t) then Failure(Validation) else
    var txn :- LoadTransaction(db, t);
    var card := row.origin.account;
    if !ValidDebit(row.state.header, txn) then Failure(Validation)
    else if card !in db.accounts || db.accounts[card].deleted then Failure(Constraint)
    else if ChosenByAnother(db, id, t) then Failure(Constraint)
    else Success(txn)
  }

  function ConfirmedPayoff(db: Db, id: Id, row: Row, t: Id, at: Instant, now: Instant): Effect
    requires Complete(row.state.header)
  {
    Payoff(db, id, row, db.next + 1, Link(t, db.next),
           map[db.next := Leg(row.origin.account, Credit, row.state.header, at)], Some(t),
           Happened(PaymentConfirmed, ""), now)
  }

  function ConfirmEffect(db: Db, id: Id, v: int, t: Id, now: Instant): Result<Effect, Error> {
    var row :- Versioned(db, id, v);
    var txn :- PayableWith(db, id, row, t);
    Success(ConfirmedPayoff(db, id, row, t, txn.at, now))
  }

  /** The stored bill, if `bank` may pay it in full. */
  function PayableFrom(db: Db, id: Id, v: int, bank: Id): Result<Row, Error> {
    if bank == 0 then Failure(Validation) else
    var row :- Versioned(db, id, v);
    var card, h := row.origin.account, row.state.header;
    if row.state.status != Unpaid || !Complete(h) then Failure(Validation)
    else if bank !in db.accounts || card !in db.accounts || db.accounts[bank] != Account(BankAccount, false)
            || db.accounts[card].kind != CreditCard || h.amount.value <= 0 then Failure(Validation)
    else if db.accounts[card].deleted then Failure(Constraint)
    else Success(row)
  }

  function FullPayoff(db: Db, id: Id, row: Row, bank: Id, now: Instant): Effect
    requires Complete(row.state.header)
  {
    var n, card, h := db.next, row.origin.account, row.state.header;
    Payoff(db, id, row, n + 2, Link(n, n + 1),
           map[n := Leg(bank, Debit, h, now), n + 1 := Leg(card, Credit, h, now)], None,
           Happened(PayoffCreated, ""), now)
  }

  function PayInFullEffect(db: Db, id: Id, v: int, bank: Id, now: Instant): Result<Effect, Error> {
    var row :- PayableFrom(db, id, v, bank);
    Success(FullPayoff(db, id, row, bank, now))
  }

  function VoidEffect(db: Db, id: Id, v: int, reason: string, now: Instant): Result<Effect, Error> {
    var why :- BoundedReason(reason);
    var row :- Versioned(db, id, v);
    if row.state.status != Unpaid then Failure(Validation) else
    var saved := Saved(row, row.state.(status := Void, voidReason := Some(why)), None, None, Happened(Voided, why));
    Success(Effect(db.(bills := db.bills[id := saved]), Answer(id, row, saved, None)))
  }

  function DiscardEffect(db: Db, id: Id, v: int): Result<Effect, Error> {
    var row :- InReview(db, id, v);
    Success(Effect(db.(bills := db.bills - {id}), None))
  }

  // ---- the rest of the system, as far as it touches these tables ---------------

  function PutTreatmentEffect(
    db: Db, t: Id, basis: Basis, reason: string, expected: Option<Instant>, now: Instant): Result<Effect, Error>
  {
    if t !in db.txns then Failure(NotFound)
    else if t !in db.treatments && expected.Some? then Failure(VersionConflict)
    else if t in db.treatments && db.treatments[t].source == System then Failure(Immutable)
    else if t in db.treatments && expected != Some(db.treatments[t].updatedAt) then Failure(VersionConflict)
    else Success(Effect(db.(treatments := db.treatments[t := Treatment(basis, User, reason, now)]), None))
  }

  predicate Referenced(db: Db, t: Id) {
    || LinksOf(db, t) != {}
    || (exists b :: b in db.bills && t in db.bills[b].candidates)
    || (exists b, i :: b in db.bills && 0 <= i < |db.bills[b].lines| && db.bills[b].lines[i].txn == Some(t))
  }

  datatype Command =
    | Project(document: Id, generation: int)
    | CorrectHeader(bill: Id, version: int, correction: Correction)
    | AttachLine(bill: Id, version: int, line: Id, txn: Id, exception: Option<string>)
    | IgnoreLine(bill: Id, version: int, line: Id, reason: string)
    | CreateLine(bill: Id, version: int, line: Id, category: Id, key: string)
    | SelectPayment(bill: Id, version: int, txn: Id, key: string)
    | ConfirmPayment(bill: Id, version: int, txn: Id, key: string)
    | PayInFull(bill: Id, version: int, bank: Id, key: string)
    | VoidBill(bill: Id, version: int, reason: string, key: string)
    | DiscardBill(bill: Id, version: int, key: string)
    // other writers of the shared tables
    | PutTreatment(target: Id, basis: Basis, note: string, expected: Option<Instant>)
    | AddTransaction(entry: Txn)
    | AddTransfer(debitLeg: Txn, creditLeg: Txn)
    | PatchTransaction(target: Id, patched: Txn)
    | DeleteTransaction(target: Id)
    | PutAccount(account: Id, details: Account)
    | PutDocument(document: Id, contents: Document, generation: int, output: seq<BulkCandidate>)

  predicate Keyed(cmd: Command) {
    cmd.CreateLine? || cmd.SelectPayment? || cmd.ConfirmPayment? || cmd.PayInFull? || cmd.VoidBill? || cmd.DiscardBill?
  }

  /** A write of a bill that already exists, at an expected version. */
  predicate Mutates(cmd: Command) {
    Keyed(cmd) || cmd.CorrectHeader? || cmd.AttachLine? || cmd.IgnoreLine?
  }

  function EffectOf(db: Db, cmd: Command, now: Instant): Result<Effect, Error> {
    match cmd
    case Project(d, g) => ProjectEffect(db, d, g, now)
    case CorrectHeader(b, v, c) => CorrectEffect(db, b, v, c, now)
    case AttachLine(b, v, l, t, e) => AttachEffect(db, b, v, l, t, e, now)
    case IgnoreLine(b, v, l, r) => IgnoreEffect(db, b, v, l, r, now)
    case CreateLine(b, v, l, c, _) => CreateLineEffect(db, b, v, l, c, now)
    case SelectPayment(b, v, t, _) => SelectEffect(db, b, v, t, now)
    case ConfirmPayment(b, v, t, _) => ConfirmEffect(db, b, v, t, now)
    case PayInFull(b, v, a, _) => PayInFullEffect(db, b, v, a, now)
    case VoidBill(b, v, r, _) => VoidEffect(db, b, v, r, now)
    case DiscardBill(b, v, _) => DiscardEffect(db, b, v)
    case PutTreatment(t, basis, note, e) => PutTreatmentEffect(db, t, basis, note, e, now)
    case AddTransaction(t) =>
      if t.account !in db.accounts then Failure(Constraint)
      else Success(Effect(db.(txns := db.txns[db.next := t], next := db.next + 1), None))
    case AddTransfer(d, c) =>
      if d.account !in db.accounts || c.account !in db.accounts then Failure(Constraint) else
      var n := db.next;
      Success(Effect(
                db.(txns := db.txns[n := d.(direction := Debit)][n + 1 := c.(direction := Credit)],
                    links := db.links[n + 2 := Link(n, n + 1)], next := n + 3), None))
    case PatchTransaction(t, x) =>
      if t !in db.txns || x.account !in db.accounts then Failure(NotFound)
      else Success(Effect(db.(txns := db.txns[t := x.(direction := db.txns[t].direction)]), None))
    case DeleteTransaction(t) =>
      if t !in db.txns then Failure(NotFound)
      else if Referenced(db, t) then Failure(Constraint)
      else Success(Effect(db.(txns := db.txns - {t}, treatments := db.treatments - {t}), None))
    case PutAccount(a, x) =>
      Success(Effect(db.(accounts := db.accounts[a := x]), None))
    case PutDocument(d, x, g, output) =>
      Success(Effect(db.(documents := db.documents[d := x], outputs := db.outputs[(d, g) := output]), None))
  }

  // ---- idempotency ------------------------------------------------------------------

  function SlotOf(cmd: Command): Slot
    requires Keyed(cmd)
  {
    Slot(HashOf(cmd).action, cmd.key)
  }

  function HashOf(cmd: Command): Fingerprint
    requires Keyed(cmd)
  {
    match cmd
    case CreateLine(b, v, l, c, _) => Fingerprint(CreateLineTransaction, b, v, [l, c], "")
    case SelectPayment(b, v, t, _) => Fingerprint(SelectPaymentCandidate, b, v, [t], "")
    case ConfirmPayment(b, v, t, _) => Fingerprint(ConfirmPaymentCandidate, b, v, [t], "")
    case PayInFull(b, v, a, _) => Fingerprint(PayOff, b, v, [a], "")
    case VoidBill(b, v, r, _) => Fingerprint(VoidIt, b, v, [], TrimSpace(r))
    case DiscardBill(b, v, _) => Fingerprint(Discard, b, v, [], "")
  }

  /** Refusals made before the transaction starts, so before the key is looked at. */
  predicate Malformed(cmd: Command)
    requires Keyed(cmd)
  {
    || !ValidKey(cmd.key)
    || (cmd.VoidBill? && BoundedReason(cmd.reason).Failure?)
    || (cmd.PayInFull? && cmd.bank == 0)
  }

  datatype Claim = Acquired | Replay(record: Record) | Conflict | Busy

  function ClaimOf(records: map<Slot, Record>, slot: Slot, hash: Fingerprint, resource: Id, now: Instant): Claim {
    if slot !in records then Acquired else
    var r := records[slot];
    if r.expiresAt <= now || r.status == FailedRecord then Acquired
    else if r.hash != hash || r.resource != resource then Conflict
    else if r.status == Processing then Busy
    else Replay(r)
  }

  function CompletedRecord(cmd: Command, bill: Option<Bill>, now: Instant): Record
    requires Keyed(cmd)
  {
    Record(HashOf(cmd), cmd.bill, Completed, Some(if bill.Some? then 200 else 204), bill, now + RETENTION)
  }

  datatype Reply = Done(bill: Option<Bill>) | Replayed(bill: Option<Bill>) | Refused(error: Error)

  /** One committed request: the new tables and the answer. */
  function Exec(db: Db, cmd: Command, now: Instant): (Db, Reply) {
    if !Keyed(cmd) then
      match EffectOf(db, cmd, now)
      case Success(e) => (e.db, Done(e.bill))
      case Failure(error) => (db, Refused(error))
    else if Malformed(cmd) then (db, Refused(Validation))
    else
      match ClaimOf(db.records, SlotOf(cmd), HashOf(cmd), cmd.bill, now)
      case Replay(r) => (db, Replayed(r.response))
      case Conflict => (db, Refused(IdempotencyConflict))
      case Busy => (db, Refused(InFlight))
      case Acquired =>
        match EffectOf(db, cmd, now)
        case Success(e) =>
          (e.db.(records := e.db.records[SlotOf(cmd) := CompletedRecord(cmd, e.bill, now)]), Done(e.bill))
        case Failure(error) => (db, Refused(error))
  }
}
