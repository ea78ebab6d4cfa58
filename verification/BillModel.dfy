/**
 * The rows behind Credit Card bills, for one user: every statement of the code
 * filters by the user, so one user's rows never meet another's.
 */
module BillModel {
  import opened Prelude
  import opened Text

  datatype Status = Review | Unpaid | Paid | Void
  datatype LineKind = Activity | Refund | Fee | Interest | Payment | Summary
  datatype LineStatus = Pending | Linked | Ignored
  datatype Direction = Debit | Credit
  datatype AccountType = BankAccount | CreditCard | OtherAccount
  datatype CandidateStatus = Suggested | Selected | Confirmed | Dismissed

  datatype Error =
    | NotFound
    | Validation
    | VersionConflict
    | IdempotencyConflict
    | InFlight
    | DuplicateTransaction
    | Immutable
    | Constraint // a unique key of the database refuses the write

  // ---- the shared ledger --------------------------------------------------

  datatype Account = Account(kind: AccountType, deleted: bool)

  /** `evidenceFor`: the cards whose payoff the free text of the row speaks of. */
  datatype Txn = Txn(
    account: Id, direction: Direction, currency: string, amount: int, at: Instant,
    confirmed: bool, evidenceFor: set<Id>)

  datatype Link = Link(debit: Id, credit: Id)

  datatype Basis = TransactionTotal | LineItems | Exclude
  datatype Source = System | User
  datatype Treatment = Treatment(basis: Basis, source: Source, reason: string, updatedAt: Instant)

  const PAYOFF_REASON := "credit_card_payoff"

  // ---- bulk documents a bill is projected from -----------------------------

  datatype BulkStatus =
    | Created | Attached | ReviewRequired | Duplicate | Cancelled | Superseded | Failed | PendingReconciliation

  datatype BulkCandidate = BulkCandidate(
    id: Id, status: BulkStatus, txn: Option<Id>, index: int, kind: LineKind, title: string,
    on: Day, amount: int, currency: string)

  datatype Document = Document(
    generation: int, isCardBill: bool, account: Id, accountType: AccountType, accountRef: string,
    summaryRef: Option<string>, summaryHeader: Header, failedChunks: nat)

  // ---- bills ----------------------------------------------------------------

  datatype Header = Header(
    periodStart: Option<Day>, periodEnd: Option<Day>, statementDate: Option<Day>, dueDate: Option<Day>,
    currency: Option<string>, amount: Option<int>)

  const BLANK_HEADER := Header(None, None, None, None, None, None)

  datatype Line = Line(
    id: Id, index: int, kind: LineKind, status: LineStatus, candidate: Option<Id>, description: string,
    on: Day, at: Instant, amount: int, currency: string, reason: Option<string>, exception: Option<string>,
    txn: Option<Id>)

  datatype EventKind =
    | Imported | HeaderCorrected | LineLinked | LineTransactionCreated | LineIgnored | PaymentCandidatesFound
    | PaymentSelected | PaymentConfirmed | PayoffCreated | StatusChanged | Voided

  datatype Event = Event(kind: EventKind, reason: string, from: Option<Status>, to: Option<Status>)

  /** Columns written once, by the projection. */
  datatype Origin = Origin(account: Id, document: Id, generation: int, unresolved: nat)

  /** Columns every later save writes. */
  datatype State = State(
    header: Header, status: Status, payoff: Option<Id>, version: int, voidReason: Option<string>,
    paidAt: Option<Instant>)

  /** A statement row with its line, payment-candidate and event rows. */
  datatype Row = Row(
    origin: Origin, state: State, lines: seq<Line>, candidates: map<Id, CandidateStatus>, events: seq<Event>)

  /** The bill the service works on in memory. */
  datatype Bill = Bill(
    id: Id, origin: Origin, state: State, suggestion: Option<Id>, selected: bool, ambiguous: set<Id>,
    failures: bool, lines: seq<Line>, events: seq<Event>)

  // ---- idempotency ledger -----------------------------------------------------

  datatype Action =
    | CreateLineTransaction | SelectPaymentCandidate | ConfirmPaymentCandidate | PayOff | VoidIt | Discard

  /** What SHA-256, taken as injective, digests: action, bill, version and arguments. */
  datatype Fingerprint = Fingerprint(action: Action, bill: Id, version: int, args: seq<Id>, text: string)

  datatype Slot = Slot(action: Action, key: string)

  datatype RecordStatus = Processing | Completed | FailedRecord

  datatype Record = Record(
    hash: Fingerprint, resource: Id, status: RecordStatus, code: Option<int>, response: Option<Bill>,
    expiresAt: Instant)

  const RETENTION := 24 * 3600 * SECOND

  datatype Db = Db(
    bills: map<Id, Row>,
    accounts: map<Id, Account>,
    txns: map<Id, Txn>,
    links: map<Id, Link>,
    treatments: map<Id, Treatment>,
    records: map<Slot, Record>,
    documents: map<Id, Document>,
    outputs: map<(Id, int), seq<BulkCandidate>>,
    categories: set<Id>,
    isoCodes: set<string>,
    next: Id)

  // ---- pure validators ---------------------------------------------------------

  predicate Complete(h: Header) {
    && h.periodStart.Some? && h.periodEnd.Some? && h.statementDate.Some?
    && h.dueDate.Some? && h.currency.Some? && h.amount.Some?
  }

  predicate IsIso4217(codes: set<string>, value: string) {
    var trimmed := TrimSpace(value);
    trimmed == Upper(trimmed) && trimmed in codes
  }

  predicate ValidFields(codes: set<string>, h: Header) {
    && (h.periodStart.Some? && h.periodEnd.Some? ==> h.periodStart.value <= h.periodEnd.value)
    && (h.statementDate.Some? && h.dueDate.Some? ==> h.statementDate.value <= h.dueDate.value)
    && (h.currency.Some? ==> IsIso4217(codes, h.currency.value) && h.currency.value == Upper(h.currency.value))
    && (h.amount.Some? ==> h.amount.value > 0)
  }

  predicate HasPending(lines: seq<Line>) {
    exists i :: 0 <= i < |lines| && lines[i].status == Pending
  }

  predicate ValidKey(key: string) {
    32 <= |key| <= 128 && forall i :: 0 <= i < |key| ==> '!' <= key[i] <= '~'
  }

  function BoundedReason(value: string): Result<string, Error> {
    var trimmed := TrimSpace(value);
    if 1 <= |trimmed| <= 500 then Success(trimmed) else Failure(Validation)
  }

  // ---- queries -------------------------------------------------------------------

  predicate LegOf(l: Link, t: Id) { t == l.debit || t == l.credit }

  function LinksOf(db: Db, t: Id): set<Id> {
    set l | l in db.links && LegOf(db.links[l], t)
  }

  datatype Transfer = Transfer(
    id: Id, debit: Id, credit: Id, debitAccount: Id, debitAccountType: AccountType, creditAccount: Id,
    currency: string, amount: int, at: Instant)

  datatype CanonicalTransaction = CanonicalTransaction(
    id: Id, account: Id, accountType: AccountType, direction: Direction, currency: string, amount: int,
    at: Instant, transfer: Option<Transfer>)

  predicate Joined(db: Db, l: Link) {
    && l.debit in db.txns && l.credit in db.txns
    && db.txns[l.debit].account in db.accounts && db.txns[l.credit].account in db.accounts
  }

  function TransferOf(db: Db, id: Id): Transfer
    requires id in db.links && Joined(db, db.links[id])
  {
    var l := db.links[id];
    var debit, credit := db.txns[l.debit], db.txns[l.credit];
    Transfer(id, l.debit, l.credit, debit.account, db.accounts[debit.account].kind, credit.account,
             debit.currency, debit.amount, debit.at)
  }

  function LoadTransaction(db: Db, id: Id): Result<CanonicalTransaction, Error> {
    if id !in db.txns || db.txns[id].account !in db.accounts then Failure(NotFound) else
    var t := db.txns[id];
    var links := LinksOf(db, id);
    var transfer :=
      if links == {} || !Joined(db, db.links[Least(links)]) then None else Some(TransferOf(db, Least(links)));
    Success(CanonicalTransaction(
              id, t.account, db.accounts[t.account].kind, t.direction, t.currency, t.amount, t.at, transfer))
  }

  /** The structural part of the payoff query: an exact Bank-to-Card transfer inside the window. */
  predicate ExactTransfer(db: Db, link: Link, card: Id, h: Header)
    requires Complete(h)
  {
    && Joined(db, link)
    && var debit, credit := db.txns[link.debit], db.txns[link.credit];
       && db.accounts[debit.account].kind == BankAccount && !db.accounts[debit.account].deleted
       && debit.direction == Debit && credit.direction == Credit && credit.account == card
       && debit.currency == h.currency.value && credit.currency == h.currency.value
       && debit.amount == h.amount.value && credit.amount == h.amount.value
       && Within(h.statementDate, DayOf(debit.at), h.dueDate)
       && Within(h.statementDate, DayOf(credit.at), h.dueDate)
       && Abs(credit.at - debit.at) <= 600 * SECOND
  }

  predicate Settles(db: Db, link: Id) {
    exists b :: b in db.bills && db.bills[b].state.payoff == Some(link)
  }

  function ExactPayoffTransfers(db: Db, card: Id, h: Header): set<Id>
    requires Complete(h)
  {
    set l | l in db.links && ExactTransfer(db, db.links[l], card, h) && !Settles(db, l)
  }

  predicate ExactDebit(db: Db, t: Id, card: Id, h: Header)
    requires Complete(h)
  {
    && t in db.txns && db.txns[t].account in db.accounts
    && var txn := db.txns[t];
       && db.accounts[txn.account].kind == BankAccount && !db.accounts[txn.account].deleted
       && txn.direction == Debit && txn.confirmed
       && txn.currency == h.currency.value && txn.amount == h.amount.value
       && Within(h.statementDate, DayOf(txn.at), h.dueDate)
       && LinksOf(db, t) == {}
       && card in txn.evidenceFor
  }

  function BankDebitCandidates(db: Db, card: Id, h: Header): set<Id>
    requires Complete(h)
  {
    set t | t in db.txns && ExactDebit(db, t, card, h)
  }

  /** `validateBankDebitCandidate`. */
  predicate ValidDebit(h: Header, t: CanonicalTransaction) {
    && Complete(h) && t.accountType == BankAccount && t.direction == Debit
    && t.currency == h.currency.value && t.amount == h.amount.value
    && Within(h.statementDate, DayOf(t.at), h.dueDate) && t.transfer == None
  }

  predicate LinkedElsewhere(db: Db, txn: Id, line: Id) {
    exists b, i :: b in db.bills && 0 <= i < |db.bills[b].lines| &&
      db.bills[b].lines[i].txn == Some(txn) && db.bills[b].lines[i].id != line
  }

  function WantedDirection(kind: LineKind): Direction {
    if kind == Refund || kind == Payment then Credit else Debit
  }

  /** A Card payment must be the credit leg of a Bank-to-Card transfer. */
  predicate QualifyingPayment(card: Id, t: CanonicalTransaction) {
    && t.transfer.Some?
    && var x := t.transfer.value;
       x.credit == t.id && x.creditAccount == card && x.debitAccountType == BankAccount &&
       x.currency == t.currency && x.amount == t.amount
  }

  predicate InLineWindow(h: Header, kind: LineKind, day: Day) {
    if kind == Payment then Within(h.statementDate, day, h.dueDate) else Within(h.periodStart, day, h.periodEnd)
  }

  /** The part of a non-exact match that compares the line itself with the transaction. */
  predicate Differs(line: Line, t: CanonicalTransaction) {
    t.amount != line.amount || t.currency != line.currency || DayOf(t.at) != DayOf(line.at)
  }

  /** `validateLineTransaction`: the exception reason to store, or a refusal. */
  function CheckLink(card: Id, h: Header, line: Line, t: CanonicalTransaction, exception: Option<string>)
    : Result<Option<string>, Error>
  {
    if t.account != card || t.accountType != CreditCard then Failure(Validation)
    else if t.direction != WantedDirection(line.kind) then Failure(Validation)
    else if line.kind == Payment && !QualifyingPayment(card, t) then Failure(Validation)
    else if Differs(line, t) || !InLineWindow(h, line.kind, DayOf(t.at)) then
      if exception == None then Failure(Validation)
      else
        var reason :- BoundedReason(exception.value);
        Success(Some(reason))
    else if exception.Some? then Failure(Validation)
    else Success(None)
  }

  function FindLine(lines: seq<Line>, id: Id): (k: int)
    ensures -1 <= k < |lines|
    ensures k >= 0 ==> lines[k].id == id
    ensures k < 0 <==> forall i :: 0 <= i < |lines| ==> lines[i].id != id
  {
    if lines == [] then -1
    else if lines[|lines| - 1].id == id then |lines| - 1
    else FindLine(lines[..|lines| - 1], id)
  }

  // ---- loading and saving payment candidates ---------------------------------------

  function Open(rows: map<Id, CandidateStatus>): set<Id> {
    set t | t in rows && (rows[t] == Suggested || rows[t] == Selected)
  }

  function Chosen(rows: map<Id, CandidateStatus>): set<Id> {
    set t | t in rows && rows[t] == Selected
  }

  function LoadBill(id: Id, row: Row): Bill {
    var open, chosen := Open(row.candidates), Chosen(row.candidates);
    Bill(
      id, row.origin, row.state,
      if chosen != {} then Some(Least(chosen)) else if |open| == 1 then Some(Least(open)) else None,
      chosen != {},
      if chosen == {} && |open| != 1 then open else {},
      false, row.lines, row.events)
  }

  /** The status one candidate row ends with when a bill with this choice is saved. */
  function SyncedStatus(
    was: Option<CandidateStatus>, t: Id, suggestion: Option<Id>, selected: bool, ambiguous: set<Id>,
    confirmed: Option<Id>): Option<CandidateStatus>
  {
    if confirmed == Some(t) && (was.Some? || t in ambiguous || suggestion == Some(t)) then Some(Confirmed)
    else if suggestion == Some(t) then Some(if selected then Selected else Suggested)
    else if t in ambiguous then Some(Suggested)
    else if was.Some? && was.value != Confirmed then Some(Dismissed)
    else was
  }

  function Lookup<K, V>(m: map<K, V>, k: K): Option<V> {
    if k in m then Some(m[k]) else None
  }

  function Synced(
    rows: map<Id, CandidateStatus>, suggestion: Option<Id>, selected: bool, ambiguous: set<Id>,
    confirmed: Option<Id>): map<Id, CandidateStatus>
  {
    map t | t in rows.Keys + ambiguous + (if suggestion.Some? then {suggestion.value} else {}) ::
      SyncedStatus(Lookup(rows, t), t, suggestion, selected, ambiguous, confirmed).value
  }
}
