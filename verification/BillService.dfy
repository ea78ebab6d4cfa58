/** The bill service: each request, run over the store, does exactly what `Exec` says and keeps the invariant. */
module BillService {
  import opened Prelude
  import opened Text
  import opened BillModel
  import opened BillSpec
  import opened BillInvariant
  import opened BillPreservation
  import opened BillRuns
  import opened BillStore
  import W = BillWorkflow

  // ---- a claimed key changes no effect ---------------------------------------------------

  function WithRecords(db: Db, records: map<Slot, Record>): Db { db.(records := records) }

  function EffectWithRecords(e: Result<Effect, Error>, records: map<Slot, Record>): Result<Effect, Error> {
    match e
    case Success(x) => Success(Effect(WithRecords(x.db, records), x.bill))
    case Failure(error) => Failure(error)
  }

  lemma SettleIgnoresRecords(db: Db, records: map<Slot, Record>, id: Id, row: Row, event: Event, now: Instant)
    ensures var e := Settle(db, id, row, event, now);
            Settle(WithRecords(db, records), id, row, event, now) == Effect(WithRecords(e.db, records), e.bill)
  {
    assert forall l :: Settles(WithRecords(db, records), l) == Settles(db, l);
    W.SameResolve(db, WithRecords(db, records), row);
    ResolutionIsSavable(db, row);
    hide Resolve, Synced, LockedTreatments;
  }

  lemma CreateLineIgnoresRecords(
    db: Db, records: map<Slot, Record>, id: Id, v: int, line: Id, category: Id, now: Instant)
    ensures CreateLineEffect(WithRecords(db, records), id, v, line, category, now)
            == EffectWithRecords(CreateLineEffect(db, id, v, line, category, now), records)
  {
    hide Settle, LoadTransaction, CheckLink;
    var db' := WithRecords(db, records);
    assert InReview(db', id, v) == InReview(db, id, v);
    if InReview(db, id, v).Success? && MutableLine(db.bills[id], line).Success? {
      var row := db.bills[id];
      var k := MutableLine(row, line).value;
      var made, made' := CreateFromCandidate(db, row, row.lines[k], category), CreateFromCandidate(db', row, row.lines[k], category);
      if made.Success? {
        assert made'.Success? && made'.value == WithRecords(made.value, records);
        SameLedgerSameLoad(made.value, made'.value, db.next);
        SettleIgnoresRecords(
          made.value, records, id, row.(lines := row.lines[k := LinkedLine(row.lines[k], db.next, row.lines[k].exception)]),
          Happened(LineTransactionCreated, ""), now);
      }
    }
  }

  lemma PayableIgnoresRecords(db: Db, records: map<Slot, Record>, id: Id, row: Row, t: Id)
    ensures PayableWith(WithRecords(db, records), id, row, t) == PayableWith(db, id, row, t)
    ensures Selectable(WithRecords(db, records), id, row, t) == Selectable(db, id, row, t)
  {
    SameLedgerSameLoad(db, WithRecords(db, records), t);
    W.SameBillsSameChoices(db, WithRecords(db, records), id, t);
    hide LoadTransaction, ChosenByAnother, LoadBill, ValidDebit;
  }

  lemma PayoffIgnoresRecords(
    db: Db, records: map<Slot, Record>, id: Id, row: Row, link: Id, legs: Link, txns: map<Id, Txn>, confirmed: Option<Id>,
    event: Event, now: Instant)
    ensures var e := Payoff(db, id, row, link, legs, txns, confirmed, event, now);
            Payoff(WithRecords(db, records), id, row, link, legs, txns, confirmed, event, now)
            == Effect(WithRecords(e.db, records), e.bill)
  {
    hide Saved, LockedTreatments, Answer;
  }

  lemma ConfirmIgnoresRecords(db: Db, records: map<Slot, Record>, id: Id, v: int, t: Id, now: Instant)
    ensures ConfirmEffect(WithRecords(db, records), id, v, t, now)
            == EffectWithRecords(ConfirmEffect(db, id, v, t, now), records)
  {
    if Versioned(db, id, v).Success? {
      var row := db.bills[id];
      PayableIgnoresRecords(db, records, id, row, t);
      if PayableWith(db, id, row, t).Success? {
        var leg := Leg(row.origin.account, Credit, row.state.header, PayableWith(db, id, row, t).value.at);
        PayoffIgnoresRecords(db, records, id, row, db.next + 1, Link(t, db.next), map[db.next := leg], Some(t),
                             Happened(PaymentConfirmed, ""), now);
      }
    }
    hide Payoff, LoadTransaction, LoadBill, ChosenByAnother;
  }

  lemma FullPayoffIgnoresRecords(db: Db, records: map<Slot, Record>, id: Id, row: Row, bank: Id, now: Instant)
    requires Complete(row.state.header)
    ensures var e := FullPayoff(db, id, row, bank, now);
            FullPayoff(WithRecords(db, records), id, row, bank, now) == Effect(WithRecords(e.db, records), e.bill)
  {
    hide Payoff;
    var n, h := db.next, row.state.header;
    PayoffIgnoresRecords(
      db, records, id, row, n + 2, Link(n, n + 1),
      map[n := Leg(bank, Debit, h, now), n + 1 := Leg(row.origin.account, Credit, h, now)], None,
      Happened(PayoffCreated, ""), now);
  }

  lemma PayableFromIgnoresRecords(db: Db, records: map<Slot, Record>, id: Id, v: int, bank: Id)
    ensures PayableFrom(WithRecords(db, records), id, v, bank) == PayableFrom(db, id, v, bank)
    ensures var r := PayableFrom(db, id, v, bank); r.Success? ==> Complete(r.value.state.header)
  {
  }

  lemma PayInFullIgnoresRecords(db: Db, records: map<Slot, Record>, id: Id, v: int, bank: Id, now: Instant)
    ensures PayInFullEffect(WithRecords(db, records), id, v, bank, now)
            == EffectWithRecords(PayInFullEffect(db, id, v, bank, now), records)
  {
    hide FullPayoff, PayableFrom;
    PayableFromIgnoresRecords(db, records, id, v, bank);
    var row := PayableFrom(db, id, v, bank);
    if row.Success? {
      FullPayoffIgnoresRecords(db, records, id, row.value, bank, now);
    }
  }

  lemma SelectIgnoresRecords(db: Db, records: map<Slot, Record>, id: Id, v: int, t: Id, now: Instant)
    ensures SelectEffect(WithRecords(db, records), id, v, t, now)
            == EffectWithRecords(SelectEffect(db, id, v, t, now), records)
  {
    if id in db.bills {
      PayableIgnoresRecords(db, records, id, db.bills[id], t);
    }
    hide Selectable, Saved, Answer;
  }

  lemma VoidIgnoresRecords(db: Db, records: map<Slot, Record>, id: Id, v: int, reason: string, now: Instant)
    ensures VoidEffect(WithRecords(db, records), id, v, reason, now)
            == EffectWithRecords(VoidEffect(db, id, v, reason, now), records)
  {
    hide Saved, Answer, BoundedReason;
  }

  lemma DiscardIgnoresRecords(db: Db, records: map<Slot, Record>, id: Id, v: int)
    ensures DiscardEffect(WithRecords(db, records), id, v) == EffectWithRecords(DiscardEffect(db, id, v), records)
  {
  }

  lemma EffectIgnoresRecords(db: Db, records: map<Slot, Record>, cmd: Command, now: Instant)
    requires Keyed(cmd)
    ensures EffectOf(WithRecords(db, records), cmd, now) == EffectWithRecords(EffectOf(db, cmd, now), records)
  {
    match cmd
    case CreateLine(b, v, l, c, _) => CreateLineIgnoresRecords(db, records, b, v, l, c, now);
    case ConfirmPayment(b, v, t, _) => ConfirmIgnoresRecords(db, records, b, v, t, now);
    case PayInFull(b, v, a, _) => PayInFullIgnoresRecords(db, records, b, v, a, now);
    case SelectPayment(b, v, t, _) => SelectIgnoresRecords(db, records, b, v, t, now);
    case VoidBill(b, v, r, _) => VoidIgnoresRecords(db, records, b, v, r, now);
    case DiscardBill(b, v, _) => DiscardIgnoresRecords(db, records, b, v);
    hide WithRecords, EffectWithRecords, CreateLineEffect, ConfirmEffect, PayInFullEffect, SelectEffect, VoidEffect,
      DiscardEffect;
  }

  // ---- the service ----------------------------------------------------------------------------

  function ClaimedRecords(records: map<Slot, Record>, cmd: Command, now: Instant): map<Slot, Record>
    requires Keyed(cmd)
  {
    records[SlotOf(cmd) := Record(HashOf(cmd), cmd.bill, Processing, None, None, now + RETENTION)]
  }

  lemma CoreIgnoresRecords(db: Db, records: map<Slot, Record>)
    requires Core(db)
    ensures Core(WithRecords(db, records))
  {
    hide Chain, Ready, ChoiceMatchesStatus, StatusColumns, LinesDistinct, BillsDistinct;
    forall b | b in db.bills
      ensures RowOk(WithRecords(db, records), db.bills[b])
    {
      assert RowOk(db, db.bills[b]);
    }
  }

  /** What a keyed callback returns and leaves, against its effect; only a discard returns no bill. */
  predicate KeyedOutcome(spec: Result<Effect, Error>, db: Db, r: Result<Option<Bill>, Error>) {
    match spec
    case Success(e) => r == Success(e.bill) && db == e.db
    case Failure(error) => r == Failure(error)
  }

  lemma SetTwice<K, V>(m: map<K, V>, k: K, v: V, v': V)
    ensures m[k := v][k := v'] == m[k := v']
  {
  }

  /** Completing the claimed record of a successful effect leaves what the specification leaves. */
  lemma CompletesTheClaim(db: Db, cmd: Command, now: Instant)
    requires Keyed(cmd) && EffectOf(db, cmd, now).Success?
    ensures var e := EffectOf(db, cmd, now).value;
            var claimed := ClaimedRecords(db.records, cmd, now);
            && e.db.records == db.records
            && (e.bill == None <==> cmd.DiscardBill?)
            && WithRecords(WithRecords(e.db, claimed), claimed[SlotOf(cmd) := CompletedRecord(cmd, e.bill, now)])
               == WithRecords(e.db, e.db.records[SlotOf(cmd) := CompletedRecord(cmd, e.bill, now)])
  {
    hide EffectOf, HashOf, CompletedRecord;
    EffectKeepsRecords(db, cmd, now);
    AnswerNamesTheBill(db, cmd, now);
    SetTwice(db.records, SlotOf(cmd), Record(HashOf(cmd), cmd.bill, Processing, None, None, now + RETENTION),
             CompletedRecord(cmd, EffectOf(db, cmd, now).value.bill, now));
  }

  /** The committed tables; a transaction becomes visible only when its callback succeeds. */
  class Store {
    var db: Db

    constructor (initial: Db)
      ensures db == initial
    {
      db := initial;
    }
  }

  class Service {
    const repository: Store

    constructor (store: Store)
      ensures repository == store
    {
      repository := store;
    }

    method Commit(tx: Transaction, r: Result<Bill, Error>, ghost cmd: Command, now: Instant) returns (reply: Reply)
      requires !Keyed(cmd) && W.Outcome(EffectOf(repository.db, cmd, now), tx.db, r) && Inv(repository.db)
      modifies repository
      ensures (repository.db, reply) == Exec(old(repository.db), cmd, now) && Inv(repository.db)
    {
      hide EffectOf, Inv;
      StepKeepsInv(repository.db, cmd, now);
      if r.Failure? { return Refused(r.error); }
      repository.db := tx.db;
      reply := Done(Some(r.value));
    }

    /** Claim the key of a request: work to do, or the answer recorded for it. */
    method Claim(tx: Transaction, cmd: Command, now: Instant) returns (r: Result<Option<Reply>, Error>)
      requires Keyed(cmd) && Inv(tx.db)
      modifies tx`db
      ensures match ClaimOf(old(tx.db).records, SlotOf(cmd), HashOf(cmd), cmd.bill, now)
              case Acquired => r == Success(None) && tx.db == WithRecords(old(tx.db), ClaimedRecords(old(tx.db).records, cmd, now))
              case Replay(record) => r == Success(Some(Replayed(record.response)))
              case Conflict => r == Failure(IdempotencyConflict)
              case Busy => r == Failure(InFlight)
    {
      hide Core, HashOf;
      var claim :- tx.ClaimIdempotency(SlotOf(cmd), HashOf(cmd), cmd.bill, now + RETENTION, now);
      match claim
      case Acquired => r := Success(None);
      case Busy => r := Failure(InFlight);
      case Replay(record) =>
        assert RecordOk(SlotOf(cmd), record);
        r := Success(Some(Replayed(record.response)));
    }

    /** Complete the claimed key and commit, or roll the claim back with everything else. */
    method CommitKeyed(
      tx: Transaction, r: Result<Option<Bill>, Error>, cmd: Command, now: Instant) returns (reply: Reply)
      requires Keyed(cmd) && !Malformed(cmd) && Inv(repository.db)
      requires ClaimOf(repository.db.records, SlotOf(cmd), HashOf(cmd), cmd.bill, now) == Acquired
      requires KeyedOutcome(
                 EffectOf(WithRecords(repository.db, ClaimedRecords(repository.db.records, cmd, now)), cmd, now), tx.db, r)
      modifies tx, repository
      ensures (repository.db, reply) == Exec(old(repository.db), cmd, now) && Inv(repository.db)
    {
      hide EffectOf, Inv, HashOf, Malformed;
      ghost var before := repository.db;
      EffectIgnoresRecords(before, ClaimedRecords(before.records, cmd, now), cmd, now);
      StepKeepsInv(before, cmd, now);
      if r.Failure? { return Refused(r.error); }
      CompletesTheClaim(before, cmd, now);
      var code := if cmd.DiscardBill? then 204 else 200;
      var done := tx.CompleteIdempotency(SlotOf(cmd), HashOf(cmd), cmd.bill, r.value, code);
      repository.db := tx.db;
      reply := Done(r.value);
    }

    /** A user's own treatment of a transaction; a frozen one and a stale version are refused. */
    method PutUserTreatment(
      t: Id, basis: Basis, note: string, expected: Option<Instant>, now: Instant) returns (reply: Reply)
      requires Inv(repository.db)
      modifies repository
      ensures (repository.db, reply) == Exec(old(repository.db), PutTreatment(t, basis, note, expected), now)
      ensures Inv(repository.db)
    {
      hide Inv;
      var db := repository.db;
      StepKeepsInv(db, PutTreatment(t, basis, note, expected), now);
      if t !in db.txns { return Refused(NotFound); }
      if t !in db.treatments {
        if expected.Some? { return Refused(VersionConflict); }
      } else if db.treatments[t].source == System {
        return Refused(Immutable);
      } else if expected == None || db.treatments[t].updatedAt != expected.value {
        return Refused(VersionConflict);
      }
      repository.db := db.(treatments := db.treatments[t := Treatment(basis, User, note, now)]);
      reply := Done(None);
    }

    method ProjectBulkBill(document: Id, generation: int, now: Instant) returns (reply: Reply)
      requires Inv(repository.db)
      modifies repository
      ensures (repository.db, reply) == Exec(old(repository.db), Project(document, generation), now) && Inv(repository.db)
    {
      if document == 0 || generation < 1 { return Refused(Validation); }
      hide Core;
      var tx := new Transaction(repository.db);
      var r := W.ProjectBulkBill(tx, document, generation, now);
      reply := Commit(tx, r, Project(document, generation), now);
    }

    method CorrectHeader(bill: Id, version: int, c: Correction, now: Instant) returns (reply: Reply)
      requires Inv(repository.db)
      modifies repository
      ensures (repository.db, reply) == Exec(old(repository.db), Command.CorrectHeader(bill, version, c), now)
      ensures Inv(repository.db)
    {
      hide Core;
      if CorrectsNothing(c) { return Refused(Validation); }
      var reason := BoundedReason(c.reason);
      if reason.Failure? { return Refused(reason.error); }
      var tx := new Transaction(repository.db);
      var r := W.CorrectHeader(tx, bill, version, c, reason.value, now);
      reply := Commit(tx, r, Command.CorrectHeader(bill, version, c), now);
    }

    method AttachLine(bill: Id, version: int, line: Id, txn: Id, exception: Option<string>, now: Instant)
      returns (reply: Reply)
      requires Inv(repository.db)
      modifies repository
      ensures (repository.db, reply)
              == Exec(old(repository.db), Command.AttachLine(bill, version, line, txn, exception), now)
      ensures Inv(repository.db)
    {
      hide Core;
      var tx := new Transaction(repository.db);
      var r := W.AttachLine(tx, bill, version, line, txn, exception, now);
      reply := Commit(tx, r, Command.AttachLine(bill, version, line, txn, exception), now);
    }

    method IgnoreLine(bill: Id, version: int, line: Id, note: string, now: Instant) returns (reply: Reply)
      requires Inv(repository.db)
      modifies repository
      ensures (repository.db, reply) == Exec(old(repository.db), Command.IgnoreLine(bill, version, line, note), now)
      ensures Inv(repository.db)
    {
      hide Core;
      var reason := BoundedReason(note);
      if reason.Failure? { return Refused(reason.error); }
      var tx := new Transaction(repository.db);
      var r := W.IgnoreLine(tx, bill, version, line, note, reason.value, now);
      reply := Commit(tx, r, Command.IgnoreLine(bill, version, line, note), now);
    }

    method CreateLineTransaction(bill: Id, version: int, line: Id, category: Id, key: string, now: Instant)
      returns (reply: Reply)
      requires Inv(repository.db)
      modifies repository
      ensures (repository.db, reply) == Exec(old(repository.db), CreateLine(bill, version, line, category, key), now)
      ensures Inv(repository.db)
    {
      hide Core;
      if !ValidKey(key) { return Refused(Validation); }
      var cmd := CreateLine(bill, version, line, category, key);
      var tx := new Transaction(repository.db);
      var claim := Claim(tx, cmd, now);
      if claim.Failure? { return Refused(claim.error); }
      if claim.value.Some? { return claim.value.value; }
      CoreIgnoresRecords(repository.db, tx.db.records);
      var r := W.CreateLineTransaction(tx, bill, version, line, category, now);
      reply := CommitKeyed(tx, Optional(r), cmd, now);
    }

    method SelectPaymentCandidate(bill: Id, version: int, txn: Id, key: string, now: Instant) returns (reply: Reply)
      requires Inv(repository.db)
      modifies repository
      ensures (repository.db, reply) == Exec(old(repository.db), SelectPayment(bill, version, txn, key), now)
      ensures Inv(repository.db)
    {
      hide Core;
      if !ValidKey(key) { return Refused(Validation); }
      var cmd := SelectPayment(bill, version, txn, key);
      var tx := new Transaction(repository.db);
      var claim := Claim(tx, cmd, now);
      if claim.Failure? { return Refused(claim.error); }
      if claim.value.Some? { return claim.value.value; }
      CoreIgnoresRecords(repository.db, tx.db.records);
      var r := W.SelectPaymentCandidate(tx, bill, version, txn, now);
      reply := CommitKeyed(tx, Optional(r), cmd, now);
    }

    method ConfirmPaymentCandidate(bill: Id, version: int, txn: Id, key: string, now: Instant) returns (reply: Reply)
      requires Inv(repository.db)
      modifies repository
      ensures (repository.db, reply) == Exec(old(repository.db), ConfirmPayment(bill, version, txn, key), now)
      ensures Inv(repository.db)
    {
      hide Core;
      if !ValidKey(key) { return Refused(Validation); }
      var cmd := ConfirmPayment(bill, version, txn, key);
      var tx := new Transaction(repository.db);
      var claim := Claim(tx, cmd, now);
      if claim.Failure? { return Refused(claim.error); }
      if claim.value.Some? { return claim.value.value; }
      CoreIgnoresRecords(repository.db, tx.db.records);
      var r := W.ConfirmPaymentCandidate(tx, bill, version, txn, now);
      reply := CommitKeyed(tx, Optional(r), cmd, now);
    }

    method PayInFull(bill: Id, version: int, bank: Id, key: string, now: Instant) returns (reply: Reply)
      requires Inv(repository.db)
      modifies repository
      ensures (repository.db, reply) == Exec(old(repository.db), Command.PayInFull(bill, version, bank, key), now)
      ensures Inv(repository.db)
    {
      hide Core;
      if bank == 0 { return Refused(Validation); }
      if !ValidKey(key) { return Refused(Validation); }
      var cmd := Command.PayInFull(bill, version, bank, key);
      var tx := new Transaction(repository.db);
      var claim := Claim(tx, cmd, now);
      if claim.Failure? { return Refused(claim.error); }
      if claim.value.Some? { return claim.value.value; }
      CoreIgnoresRecords(repository.db, tx.db.records);
      var r := W.PayInFull(tx, bill, version, bank, now);
      reply := CommitKeyed(tx, Optional(r), cmd, now);
    }

    method VoidBill(bill: Id, version: int, note: string, key: string, now: Instant) returns (reply: Reply)
      requires Inv(repository.db)
      modifies repository
      ensures (repository.db, reply) == Exec(old(repository.db), Command.VoidBill(bill, version, note, key), now)
      ensures Inv(repository.db)
    {
      hide Core;
      if !ValidKey(key) { return Refused(Validation); }
      var reason := BoundedReason(note);
      if reason.Failure? { return Refused(reason.error); }
      var cmd := Command.VoidBill(bill, version, note, key);
      var tx := new Transaction(repository.db);
      var claim := Claim(tx, cmd, now);
      if claim.Failure? { return Refused(claim.error); }
      if claim.value.Some? { return claim.value.value; }
      CoreIgnoresRecords(repository.db, tx.db.records);
      var r := W.VoidBill(tx, bill, version, note, reason.value, now);
      reply := CommitKeyed(tx, Optional(r), cmd, now);
    }

    method DiscardReviewBill(bill: Id, version: int, key: string, now: Instant) returns (reply: Reply)
      requires Inv(repository.db)
      modifies repository
      ensures (repository.db, reply) == Exec(old(repository.db), DiscardBill(bill, version, key), now)
      ensures Inv(repository.db)
    {
      hide Core;
      if !ValidKey(key) { return Refused(Validation); }
      var cmd := DiscardBill(bill, version, key);
      var tx := new Transaction(repository.db);
      var claim := Claim(tx, cmd, now);
      if claim.Failure? { return Refused(claim.error); }
      if claim.value.Some? { return claim.value.value; }
      CoreIgnoresRecords(repository.db, tx.db.records);
      var r := W.DiscardReviewBill(tx, bill, version);
      reply := CommitKeyed(tx, if r.Failure? then Failure(r.error) else Success(None), cmd, now);
    }
  }

  function Optional(r: Result<Bill, Error>): Result<Option<Bill>, Error> {
    match r
    case Success(bill) => Success(Some(bill))
    case Failure(error) => Failure(error)
  }
}
