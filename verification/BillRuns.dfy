/** Safety over whole runs of the bill service, however the requests of users and workers interleave. */
module BillRuns {
  import opened Prelude
  import opened Text
  import opened BillModel
  import opened BillSpec
  import opened BillInvariant
  import opened BillPreservation
  import opened BillLater

  datatype Request = Request(cmd: Command, now: Instant)

  function Run(db: Db, rs: seq<Request>): Db {
    if rs == [] then db
    else Exec(Run(db, rs[..|rs| - 1]), rs[|rs| - 1].cmd, rs[|rs| - 1].now).0
  }

  /** The state request `i` meets. */
  function Before(db: Db, rs: seq<Request>, i: nat): Db
    requires i <= |rs|
  {
    Run(db, rs[..i])
  }

  predicate Initial(db: Db) {
    && db.bills == map[] && db.accounts == map[] && db.txns == map[] && db.links == map[] && db.treatments == map[]
    && db.records == map[] && db.next > 0
  }

  lemma {:induction false} RunKeepsInv(db: Db, rs: seq<Request>)
    requires Inv(db)
    ensures Inv(Run(db, rs))
  {
    if rs != [] {
      RunKeepsInv(db, rs[..|rs| - 1]);
      StepKeepsInv(Run(db, rs[..|rs| - 1]), rs[|rs| - 1].cmd, rs[|rs| - 1].now);
    }
  }

  // ---- what every reachable state satisfies ------------------------------------------

  ghost predicate Reachable(db: Db) { exists start, rs :: Initial(start) && db == Run(start, rs) }

  /** The invariant holds in every reachable state. */
  lemma ReachableIsGood(db: Db)
    requires Reachable(db)
    ensures Inv(db)
  {
    var start, rs :| Initial(start) && db == Run(start, rs);
    RunKeepsInv(start, rs);
  }

  lemma GoodBefore(db: Db, rs: seq<Request>, i: nat)
    requires Initial(db) && i <= |rs|
    ensures Inv(Before(db, rs, i)) && Reachable(Before(db, rs, i))
  {
    RunKeepsInv(db, rs[..i]);
    hide Run, Inv;
    assert Before(db, rs, i) == Run(db, rs[..i]);
  }

  /** The four statuses and what each implies, for every bill of every reachable state. */
  lemma StatusMeaning(db: Db, b: Id)
    requires Reachable(db) && b in db.bills
    ensures var row := db.bills[b];
            && (row.state.status == Paid <==> row.state.payoff.Some?)
            && (row.state.status == Paid <==> row.state.paidAt.Some?)
            && (row.state.status == Void <==> row.state.voidReason.Some?)
            && (row.state.status != Review || LoadBill(b, row).ambiguous != {} ==>
                  && Complete(row.state.header) && ValidFields(db.isoCodes, row.state.header)
                  && row.origin.unresolved == 0 && !HasPending(row.lines))
            && Chain(row.events, Review, row.state.status)
  {
    ReachableIsGood(db);
    StoredRowOk(db, b);
    LoadedChoice(db.bills[b]);
  }

  lemma SharedLeg(db: Db, k: Id, l: Id, t: Id)
    requires LinksOk(db) && k in db.links && l in db.links && LegOf(db.links[k], t) && LegOf(db.links[l], t)
    ensures k == l
  {
    assert k != l ==> Disjoint(db.links[k], db.links[l]);
  }

  /** No transfer settles two bills, and no ledger transaction is a leg of two transfers. */
  lemma OneTransferPerBillAndLeg(db: Db)
    requires Reachable(db)
    ensures forall b, c :: b in db.bills && c in db.bills && b != c && db.bills[b].state.payoff.Some? ==>
              db.bills[b].state.payoff != db.bills[c].state.payoff
    ensures forall k, l, t :: k in db.links && l in db.links && LegOf(db.links[k], t) && LegOf(db.links[l], t) ==> k == l
    ensures forall l :: l in db.links ==> db.links[l].debit != db.links[l].credit
  {
    ReachableIsGood(db);
    forall k, l, t | k in db.links && l in db.links && LegOf(db.links[k], t) && LegOf(db.links[l], t)
      ensures k == l
    {
      SharedLeg(db, k, l, t);
    }
  }

  // ---- whole runs --------------------------------------------------------------------

  lemma PrefixStep(db: Db, rs: seq<Request>, j: nat)
    requires j < |rs|
    ensures Before(db, rs, j + 1) == Exec(Before(db, rs, j), rs[j].cmd, rs[j].now).0
  {
    assert rs[..j + 1][..j] == rs[..j];
  }

  lemma {:induction false} RunLater(db: Db, rs: seq<Request>, i: nat, j: nat)
    requires Initial(db) && i <= j <= |rs|
    ensures Later(Before(db, rs, i), Before(db, rs, j))
    decreases j
  {
    hide Later, Exec, Inv;
    if i == j {
      LaterReflexive(Before(db, rs, i));
    } else {
      RunLater(db, rs, i, j - 1);
      PrefixStep(db, rs, j - 1);
      GoodBefore(db, rs, i);
      GoodBefore(db, rs, j - 1);
      AllBillsAllocated(Before(db, rs, i));
      StepLater(Before(db, rs, j - 1), rs[j - 1].cmd, rs[j - 1].now);
      LaterTransitive(Before(db, rs, i), Before(db, rs, j - 1), Before(db, rs, j));
    }
  }

  /** Paid and Void are final, row and all, and no bill re-enters Review. */
  lemma SettledForever(db: Db, rs: seq<Request>, i: nat, j: nat, b: Id)
    requires Initial(db) && i <= j <= |rs| && b in Before(db, rs, i).bills
    ensures var was, now := Before(db, rs, i).bills[b], Before(db, rs, j).bills;
            && (was.state.status == Paid || was.state.status == Void ==> b in now && now[b] == was)
            && (was.state.status != Review ==> b in now && now[b].state.status != Review)
  {
    RunLater(db, rs, i, j);
    assert RowAdvances(Before(db, rs, j), b, Before(db, rs, i).bills[b]);
  }

  /** A bill with something unresolved leaves Review only by being discarded. */
  lemma UnresolvedNeverSettles(db: Db, rs: seq<Request>, i: nat, j: nat, b: Id)
    requires Initial(db) && i <= j <= |rs| && b in Before(db, rs, i).bills
    requires Before(db, rs, i).bills[b].origin.unresolved > 0
    ensures b in Before(db, rs, j).bills ==> Before(db, rs, j).bills[b].state.status == Review
  {
    RunLater(db, rs, i, j);
    assert RowAdvances(Before(db, rs, j), b, Before(db, rs, i).bills[b]);
    if b in Before(db, rs, j).bills {
      GoodBefore(db, rs, j);
      StatusMeaning(Before(db, rs, j), b);
    }
  }

  /** Both legs carry the system exclusion, and neither the transfer nor its exclusions change from `was` to `now`. */
  predicate Frozen(was: Db, now: Db, link: Id) {
    && link in was.links && link in now.links && now.links[link] == was.links[link]
    && forall t :: t in {was.links[link].debit, was.links[link].credit} ==>
         && t in was.treatments && was.treatments[t].basis == Exclude && was.treatments[t].source == System
         && t in now.treatments && now.treatments[t] == was.treatments[t]
  }

  lemma ExcludedLegsFreeze(was: Db, now: Db, link: Id)
    requires link in was.links && LegsExcluded(was, was.links[link]) && TreatmentsOk(was.treatments)
    requires LedgerKept(was, now)
    ensures Frozen(was, now, link)
  {
  }

  lemma PaidRow(db: Db, b: Id)
    requires Inv(db) && b in db.bills && db.bills[b].state.status == Paid
    ensures var payoff := db.bills[b].state.payoff;
            payoff.Some? && payoff.value in db.links && LegsExcluded(db, db.links[payoff.value])
    ensures TreatmentsOk(db.treatments)
  {
    assert RowOk(db, db.bills[b]);
  }

  /** From the moment a bill is Paid, its transfer and the exclusions of both legs never change again. */
  lemma PaidLegsStayExcluded(db: Db, rs: seq<Request>, i: nat, j: nat, b: Id)
    requires Initial(db) && i <= j <= |rs|
    requires b in Before(db, rs, i).bills && Before(db, rs, i).bills[b].state.status == Paid
    ensures var payoff := Before(db, rs, i).bills[b].state.payoff;
            payoff.Some? && Frozen(Before(db, rs, i), Before(db, rs, j), payoff.value)
  {
    hide Inv, LedgerKept, TreatmentsOk, LegsExcluded, RowAdvances, Frozen;
    GoodBefore(db, rs, i);
    PaidRow(Before(db, rs, i), b);
    RunLater(db, rs, i, j);
    ExcludedLegsFreeze(Before(db, rs, i), Before(db, rs, j), Before(db, rs, i).bills[b].state.payoff.value);
  }

  /** A user edit of a frozen exclusion is refused and a later payoff lock leaves it as it is. */
  lemma SystemTreatmentsAreFrozen(
    db: Db, t: Id, basis: Basis, note: string, expected: Option<Instant>, legs: set<Id>, now: Instant)
    requires t in db.txns && t in db.treatments && db.treatments[t].source == System
    ensures Exec(db, PutTreatment(t, basis, note, expected), now) == (db, Refused(Immutable))
    ensures t in LockedTreatments(db.treatments, legs, now)
    ensures LockedTreatments(db.treatments, legs, now)[t] == db.treatments[t]
  {
  }

  // ---- a bill becomes Paid -------------------------------------------------------------

  /** The transfer `link` moves exactly what the bill asks for, from a bank account to the bill's card. */
  predicate SettlesExactly(db: Db, row: Row, link: Id) {
    && Complete(row.state.header) && link in db.links && Joined(db, db.links[link])
    && var debit, credit := db.txns[db.links[link].debit], db.txns[db.links[link].credit];
       && db.accounts[debit.account].kind == BankAccount && debit.direction == Debit
       && credit.account == row.origin.account && credit.direction == Credit
       && debit.currency == row.state.header.currency.value && debit.amount == row.state.header.amount.value
       && credit.currency == row.state.header.currency.value && credit.amount == row.state.header.amount.value
       && LegsExcluded(db, db.links[link])
  }

  /** No bill but `id` is touched, and if `id` ends Paid its transfer is exact. */
  predicate PaysExactly(db: Db, db': Db, id: Id) {
    && (forall b :: b in db'.bills && b != id ==> b in db.bills && db'.bills[b] == db.bills[b])
    && (id in db'.bills && db'.bills[id].state.status == Paid ==>
          db'.bills[id].state.payoff.Some? && SettlesExactly(db', db'.bills[id], db'.bills[id].state.payoff.value))
  }

  lemma SettlePaysExactly(db: Db, id: Id, row: Row, event: Event, now: Instant)
    requires TreatmentsOk(db.treatments) && row.state.status == Review
    ensures PaysExactly(db, Settle(db, id, row, event, now).db, id)
  {
    var res := Resolve(db, row);
    ResolutionIsSavable(db, row);
    hide Resolve, Synced, LockedTreatments;
    if res.AutoPaid? {
      LockingExcludes(db, db.links[res.link], now);
    }
  }

  lemma ReviewPaysExactly(db: Db, cmd: Command, now: Instant)
    requires Inv(db) && EffectOf(db, cmd, now).Success?
    requires cmd.CorrectHeader? || cmd.AttachLine? || cmd.IgnoreLine?
    ensures PaysExactly(db, EffectOf(db, cmd, now).value.db, cmd.bill)
  {
    hide Inv, Settle, PaysExactly, TreatmentsOk, CheckLink, LinkedElsewhere, LoadTransaction;
    ReviewBill(db, cmd.bill, cmd.version);
    var row := db.bills[cmd.bill];
    match cmd
    case CorrectHeader(b, v, c) =>
      SettlePaysExactly(db, b, row.(state := row.state.(header := Corrected(row.state.header, c))),
                        Happened(HeaderCorrected, BoundedReason(c.reason).value), now);
    case AttachLine(b, v, l, t, e) =>
      var k := MutableLine(row, l).value;
      var why := CheckLink(row.origin.account, row.state.header, row.lines[k], LoadTransaction(db, t).value, e).value;
      SettlePaysExactly(db, b, row.(lines := row.lines[k := LinkedLine(row.lines[k], t, why)]), Happened(LineLinked, ""), now);
    case IgnoreLine(b, v, l, r) =>
      var k, why := MutableLine(row, l).value, BoundedReason(r).value;
      SettlePaysExactly(db, b, row.(lines := row.lines[k := row.lines[k].(status := Ignored, reason := Some(why))]),
                        Happened(LineIgnored, why), now);
  }

  lemma CreatePaysExactly(db: Db, id: Id, v: int, line: Id, category: Id, now: Instant)
    requires Inv(db) && CreateLineEffect(db, id, v, line, category, now).Success?
    ensures PaysExactly(db, CreateLineEffect(db, id, v, line, category, now).value.db, id)
  {
    hide Inv, Settle, TreatmentsOk, CheckLink, LoadTransaction, CreateFromCandidate, SettlesExactly;
    ReviewBill(db, id, v);
    var row := db.bills[id];
    var k := MutableLine(row, line).value;
    var made := CreateFromCandidate(db, row, row.lines[k], category).value;
    CreatedTransactionIsNew(db, row, row.lines[k], category);
    CandidateLater(db, row, row.lines[k], category);
    var linked := row.(lines := row.lines[k := LinkedLine(row.lines[k], db.next, row.lines[k].exception)]);
    SettlePaysExactly(made, id, linked, Happened(LineTransactionCreated, ""), now);
  }

  lemma PayoffPaysExactly(
    db: Db, id: Id, link: Id, legs: Link, txns: map<Id, Txn>, confirmed: Option<Id>, event: Event, now: Instant)
    requires TreatmentsOk(db.treatments) && id in db.bills && link !in db.links
    requires var row, all := db.bills[id], db.txns + txns;
             && Complete(row.state.header) && legs.debit in all && legs.credit in all
             && all[legs.debit].account in db.accounts && all[legs.credit].account in db.accounts
             && db.accounts[all[legs.debit].account].kind == BankAccount && all[legs.debit].direction == Debit
             && all[legs.credit].account == row.origin.account && all[legs.credit].direction == Credit
             && all[legs.debit].currency == row.state.header.currency.value
             && all[legs.debit].amount == row.state.header.amount.value
             && all[legs.credit].currency == row.state.header.currency.value
             && all[legs.credit].amount == row.state.header.amount.value
    ensures PaysExactly(db, Payoff(db, id, db.bills[id], link, legs, txns, confirmed, event, now).db, id)
  {
    hide Synced;
    LockingExcludes(db, legs, now);
  }

  lemma ConfirmPaysExactly(db: Db, id: Id, v: int, t: Id, now: Instant)
    requires Inv(db) && ConfirmEffect(db, id, v, t, now).Success?
    ensures PaysExactly(db, ConfirmEffect(db, id, v, t, now).value.db, id)
  {
    hide RowsOk, LinesDistinct, BillsDistinct, LinesOk, RecordsOk, TreatmentsOk, Payoff, PayableWith, PaysExactly;
    var row := db.bills[id];
    PayableDebit(db, id, row, t);
    FreshLinkSettlesNothing(db, db.next + 1);
    var at := LoadTransaction(db, t).value.at;
    PayoffPaysExactly(
      db, id, db.next + 1, Link(t, db.next), map[db.next := Leg(row.origin.account, Credit, row.state.header, at)],
      Some(t), Happened(PaymentConfirmed, ""), now);
  }

  lemma PayInFullPaysExactly(db: Db, id: Id, v: int, bank: Id, now: Instant)
    requires Inv(db) && PayInFullEffect(db, id, v, bank, now).Success?
    ensures PaysExactly(db, PayInFullEffect(db, id, v, bank, now).value.db, id)
  {
    hide RowsOk, LinesDistinct, BillsDistinct, LinesOk, RecordsOk, TreatmentsOk, Payoff, PaysExactly;
    var row := db.bills[id];
    var n, card, h := db.next, row.origin.account, row.state.header;
    FreshLinkSettlesNothing(db, n + 2);
    PayoffPaysExactly(db, id, n + 2, Link(n, n + 1), map[n := Leg(bank, Debit, h, now), n + 1 := Leg(card, Credit, h, now)],
                      None, Happened(PayoffCreated, ""), now);
  }

  lemma ProjectPaysExactly(db: Db, document: Id, generation: int, now: Instant)
    requires Inv(db) && ProjectEffect(db, document, generation, now).Success?
    ensures var db' := ProjectEffect(db, document, generation, now).value.db;
            PaysExactly(db, db', db.next) || db' == db
  {
    hide RowsOk, LinesDistinct, BillsDistinct, LinesOk, LinksOk, RecordsOk, TreatmentsOk, Settle, SettlesExactly, Insertable,
      NewLines, LoadBill;
    if BillsOf(db, document) == {} {
      var row := Projectable(db, document, generation).value;
      SettlePaysExactly(db.(next := db.next + 1 + |row.lines|), db.next, row, Happened(Imported, ""), now);
    }
  }

  lemma OthersPayNothing(db: Db, cmd: Command, now: Instant, b: Id)
    requires EffectOf(db, cmd, now).Success? && !cmd.Project?
    requires Mutates(cmd) ==> cmd.SelectPayment? || cmd.VoidBill? || cmd.DiscardBill?
    requires var after := EffectOf(db, cmd, now).value.db; b in after.bills && after.bills[b].state.status == Paid
    ensures b in db.bills && db.bills[b].state.status == Paid
  {
    hide LoadTransaction, ValidDebit, ChosenByAnother, LoadBill, Synced, Referenced;
  }

  lemma EffectPaysExactly(db: Db, cmd: Command, now: Instant, b: Id)
    requires Inv(db) && EffectOf(db, cmd, now).Success?
    requires var after := EffectOf(db, cmd, now).value.db;
             && b in after.bills && after.bills[b].state.status == Paid
             && !(b in db.bills && db.bills[b].state.status == Paid)
    ensures var after := EffectOf(db, cmd, now).value.db;
            after.bills[b].state.payoff.Some? && SettlesExactly(after, after.bills[b], after.bills[b].state.payoff.value)
  {
    hide Inv, SettlesExactly, ProjectEffect, CorrectEffect, AttachEffect, IgnoreEffect, CreateLineEffect,
      ConfirmEffect, PayInFullEffect, SelectEffect, VoidEffect, DiscardEffect, PutTreatmentEffect;
    match cmd
    case Project(d, g) => ProjectPaysExactly(db, d, g, now);
    case CreateLine(i, v, l, c, _) => CreatePaysExactly(db, i, v, l, c, now);
    case ConfirmPayment(i, v, t, _) => ConfirmPaysExactly(db, i, v, t, now);
    case PayInFull(i, v, a, _) => PayInFullPaysExactly(db, i, v, a, now);
    case CorrectHeader(_, _, _) => ReviewPaysExactly(db, cmd, now);
    case AttachLine(_, _, _, _, _) => ReviewPaysExactly(db, cmd, now);
    case IgnoreLine(_, _, _, _) => ReviewPaysExactly(db, cmd, now);
    case _ => OthersPayNothing(db, cmd, now, b);
  }

  lemma RecordsDoNotMatter(db: Db, records: map<Slot, Record>, row: Row, link: Id)
    requires SettlesExactly(db, row, link)
    ensures SettlesExactly(db.(records := records), row, link)
  {
  }

  /** However a bill becomes Paid, its transfer is exact at that step. */
  lemma BecomesPaidExactly(db: Db, rs: seq<Request>, i: nat, b: Id)
    requires Initial(db) && i < |rs|
    requires var before, after := Before(db, rs, i), Before(db, rs, i + 1);
             && b in after.bills && after.bills[b].state.status == Paid
             && !(b in before.bills && before.bills[b].state.status == Paid)
    ensures var after := Before(db, rs, i + 1);
            after.bills[b].state.payoff.Some? && SettlesExactly(after, after.bills[b], after.bills[b].state.payoff.value)
  {
    hide Inv, EffectOf, SettlesExactly, Run;
    var before, after, cmd, now := Before(db, rs, i), Before(db, rs, i + 1), rs[i].cmd, rs[i].now;
    PrefixStep(db, rs, i);
    GoodBefore(db, rs, i);
    EffectPaysExactly(before, cmd, now, b);
    RecordsDoNotMatter(EffectOf(before, cmd, now).value.db, after.records, after.bills[b],
                       after.bills[b].state.payoff.value);
  }

  // ---- idempotency -----------------------------------------------------------------------

  /** The request changed a bill; a replay or a refusal did not. */
  predicate Effective(db: Db, r: Request) { Mutates(r.cmd) && Exec(db, r.cmd, r.now).1.Done? }

  lemma EffectTakesTheVersion(db: Db, cmd: Command, now: Instant)
    requires Mutates(cmd) && EffectOf(db, cmd, now).Success?
    ensures cmd.bill in db.bills && db.bills[cmd.bill].state.version == cmd.version
    ensures var after := EffectOf(db, cmd, now).value.db;
            cmd.bill in after.bills ==> after.bills[cmd.bill].state.version == cmd.version + 1
  {
    hide LoadTransaction, CheckLink, Resolve, Synced, LockedTreatments, LinkedElsewhere, ValidDebit, ChosenByAnother,
      LoadBill, FindCandidate, ValidFields;
  }

  /** Refused and replayed requests leave no trace. */
  lemma OnlyDoneChanges(db: Db, cmd: Command, now: Instant)
    ensures !Exec(db, cmd, now).1.Done? ==> Exec(db, cmd, now).0 == db
  {
    hide EffectOf;
  }

  /** Each version of a bill is consumed by at most one request of the whole run, whatever its key. */
  lemma AtMostOnce(db: Db, rs: seq<Request>, i: nat, j: nat)
    requires Initial(db) && i < j < |rs| && Mutates(rs[i].cmd) && Mutates(rs[j].cmd)
    requires rs[i].cmd.bill == rs[j].cmd.bill
    requires Effective(Before(db, rs, i), rs[i]) && Effective(Before(db, rs, j), rs[j])
    ensures rs[i].cmd.version < rs[j].cmd.version
  {
    hide EffectOf;
    var b := rs[i].cmd.bill;
    EffectTakesTheVersion(Before(db, rs, i), rs[i].cmd, rs[i].now);
    EffectTakesTheVersion(Before(db, rs, j), rs[j].cmd, rs[j].now);
    PrefixStep(db, rs, i);
    hide Exec;
    GoodBefore(db, rs, i);
    AllBillsAllocated(Before(db, rs, i));
    RunLater(db, rs, i, i + 1);
    NextGrows(Before(db, rs, i), Before(db, rs, i + 1));
    RunLater(db, rs, i + 1, j);
    var mid := Before(db, rs, i + 1);
    assert b in mid.bills;
    assert RowAdvances(Before(db, rs, j), b, mid.bills[b]);
  }

  lemma ReviewKeepsRecords(db: Db, cmd: Command, now: Instant)
    requires EffectOf(db, cmd, now).Success?
    requires cmd.Project? || cmd.CorrectHeader? || cmd.AttachLine? || cmd.IgnoreLine? || cmd.CreateLine?
    ensures EffectOf(db, cmd, now).value.db.records == db.records
  {
    hide LoadTransaction, CheckLink, Resolve, SettledRow, LockedTreatments, LinkedElsewhere, FindCandidate, ValidFields,
      Projectable, LoadBill, MutableLine;
  }

  lemma EffectKeepsRecords(db: Db, cmd: Command, now: Instant)
    requires EffectOf(db, cmd, now).Success?
    ensures EffectOf(db, cmd, now).value.db.records == db.records
  {
    if cmd.Project? || cmd.CorrectHeader? || cmd.AttachLine? || cmd.IgnoreLine? || cmd.CreateLine? {
      ReviewKeepsRecords(db, cmd, now);
    } else {
      hide ProjectEffect, CorrectEffect, AttachEffect, IgnoreEffect, CreateLineEffect, LoadTransaction, Synced,
        LockedTreatments, ValidDebit, ChosenByAnother, LoadBill, Referenced;
    }
  }

  /** No record is ever left in processing, so no request is ever told that another is in flight. */
  lemma NothingLeftInProcessing(db: Db, cmd: Command, now: Instant)
    requires Reachable(db)
    ensures forall s :: s in db.records ==> db.records[s].status == Completed
    ensures Keyed(cmd) ==> !ClaimOf(db.records, SlotOf(cmd), HashOf(cmd), cmd.bill, now).Busy?
  {
    ReachableIsGood(db);
    assert forall s :: s in db.records ==> RecordOk(s, db.records[s]);
  }

  predicate Ordered(rs: seq<Request>) { forall i, j :: 0 <= i < j < |rs| ==> rs[i].now <= rs[j].now }

  lemma LiveRecordStays(db: Db, cmd: Command, now: Instant, slot: Slot)
    requires slot in db.records && db.records[slot].status == Completed && now < db.records[slot].expiresAt
    ensures slot in Exec(db, cmd, now).0.records && Exec(db, cmd, now).0.records[slot] == db.records[slot]
  {
    hide EffectOf, HashOf;
    if EffectOf(db, cmd, now).Success? {
      EffectKeepsRecords(db, cmd, now);
    }
  }

  /** The same keyed operation. */
  predicate SameOperation(a: Command, b: Command) {
    match a
    case CreateLine(_, _, _, _, _) => b.CreateLine?
    case SelectPayment(_, _, _, _) => b.SelectPayment?
    case ConfirmPayment(_, _, _, _) => b.ConfirmPayment?
    case PayInFull(_, _, _, _) => b.PayInFull?
    case VoidBill(_, _, _, _) => b.VoidBill?
    case DiscardBill(_, _, _) => b.DiscardBill?
    case _ => false
  }

  /** Equal in everything but the key; the reason of a void counts without its outer spaces. */
  predicate SameRequest(a: Command, b: Command) {
    match a
    case CreateLine(bill, version, line, category, _) =>
      b.CreateLine? && b.bill == bill && b.version == version && b.line == line && b.category == category
    case SelectPayment(bill, version, txn, _) =>
      b.SelectPayment? && b.bill == bill && b.version == version && b.txn == txn
    case ConfirmPayment(bill, version, txn, _) =>
      b.ConfirmPayment? && b.bill == bill && b.version == version && b.txn == txn
    case PayInFull(bill, version, bank, _) =>
      b.PayInFull? && b.bill == bill && b.version == version && b.bank == bank
    case VoidBill(bill, version, reason, _) =>
      b.VoidBill? && b.bill == bill && b.version == version && TrimSpace(b.reason) == TrimSpace(reason)
    case DiscardBill(bill, version, _) => b.DiscardBill? && b.bill == bill && b.version == version
    case _ => false
  }

  /** The fingerprint tells any two requests apart, and only those. */
  lemma FingerprintsAgreeExactly(a: Command, b: Command)
    requires Keyed(a) && Keyed(b)
    ensures HashOf(a) == HashOf(b) <==> SameRequest(a, b)
  {
    hide TrimSpace;
    match a
    case CreateLine(_, _, l, c, _) =>
      assert b.CreateLine? ==> ([l, c] == [b.line, b.category] <==> l == b.line && c == b.category);
    case SelectPayment(_, _, t, _) => assert b.SelectPayment? ==> ([t] == [b.txn] <==> t == b.txn);
    case ConfirmPayment(_, _, t, _) => assert b.ConfirmPayment? ==> ([t] == [b.txn] <==> t == b.txn);
    case PayInFull(_, _, k, _) => assert b.PayInFull? ==> ([k] == [b.bank] <==> k == b.bank);
    case _ =>
  }

  /** Keys are told apart per operation: two requests compete for one record iff operation and key are the same. */
  lemma SlotsAgreeExactly(a: Command, b: Command)
    requires Keyed(a) && Keyed(b)
    ensures SlotOf(a) == SlotOf(b) <==> SameOperation(a, b) && a.key == b.key
  {
  }

  lemma {:induction false} RecordSurvives(db: Db, rs: seq<Request>, i: nat, j: nat)
    requires i < j <= |rs| && Ordered(rs) && Keyed(rs[i].cmd)
    requires Exec(Before(db, rs, i), rs[i].cmd, rs[i].now).1.Done?
    requires rs[j - 1].now < rs[i].now + RETENTION
    ensures var records, slot := Before(db, rs, j).records, SlotOf(rs[i].cmd);
            && slot in records
            && records[slot] ==
               CompletedRecord(rs[i].cmd, Exec(Before(db, rs, i), rs[i].cmd, rs[i].now).1.bill, rs[i].now)
    decreases j
  {
    hide EffectOf, HashOf;
    PrefixStep(db, rs, j - 1);
    if j > i + 1 {
      RecordSurvives(db, rs, i, j - 1);
      LiveRecordStays(Before(db, rs, j - 1), rs[j - 1].cmd, rs[j - 1].now, SlotOf(rs[i].cmd));
    }
  }

  /** A key of 32 to 128 visible ASCII characters; a void says why in 1 to 500 characters; a payment names its bank. */
  predicate WellFormedRequest(cmd: Command)
    requires Keyed(cmd)
  {
    && 32 <= |cmd.key| <= 128 && (forall i :: 0 <= i < |cmd.key| ==> 33 <= cmd.key[i] as int <= 126)
    && (cmd.VoidBill? ==> 1 <= |TrimSpace(cmd.reason)| <= 500)
    && (cmd.PayInFull? ==> cmd.bank != 0)
  }

  lemma MalformedExactly(cmd: Command)
    requires Keyed(cmd)
    ensures Malformed(cmd) <==> !WellFormedRequest(cmd)
  {
    hide TrimSpace;
  }

  /** Malformed requests are refused whatever the tables hold, and leave no trace. */
  lemma MalformedIsRefused(db: Db, cmd: Command, now: Instant)
    requires Keyed(cmd) && !WellFormedRequest(cmd)
    ensures Exec(db, cmd, now) == (db, Refused(Validation))
  {
    MalformedExactly(cmd);
    hide EffectOf, HashOf, Malformed;
  }

  /**
   * For a day a used key answers the same request with the recorded bill, and any other request of that operation
   * with a refusal, changing nothing either way.
   */
  lemma ReplayOverRun(db: Db, rs: seq<Request>, i: nat, j: nat)
    requires i < j < |rs| && Ordered(rs) && Keyed(rs[i].cmd) && Keyed(rs[j].cmd)
    requires Exec(Before(db, rs, i), rs[i].cmd, rs[i].now).1.Done?
    requires SameOperation(rs[i].cmd, rs[j].cmd) && rs[i].cmd.key == rs[j].cmd.key && WellFormedRequest(rs[j].cmd)
    requires rs[j].now < rs[i].now + 24 * 60 * 60 * 1_000_000
    ensures var before, r := Before(db, rs, j), rs[j];
            Exec(before, r.cmd, r.now) ==
            (before, if SameRequest(rs[i].cmd, r.cmd) then Replayed(Exec(Before(db, rs, i), rs[i].cmd, rs[i].now).1.bill)
                     else Refused(IdempotencyConflict))
  {
    RecordSurvives(db, rs, i, j);
    FingerprintsAgreeExactly(rs[i].cmd, rs[j].cmd);
    SlotsAgreeExactly(rs[i].cmd, rs[j].cmd);
    MalformedExactly(rs[j].cmd);
    SameRequestSameBill(rs[i].cmd, rs[j].cmd);
    hide EffectOf, HashOf, SlotOf, SameRequest, SameOperation, Malformed, WellFormedRequest;
  }

  lemma SameRequestSameBill(a: Command, b: Command)
    requires Keyed(a) && Keyed(b)
    ensures SameRequest(a, b) ==> a.bill == b.bill
  {
    hide TrimSpace;
  }

  lemma OtherKeyKeepsRecord(db: Db, done: Command, now: Instant, cmd: Command)
    requires Keyed(cmd)
    requires Keyed(done) && SameOperation(done, cmd) && done.key == cmd.key ==> !Exec(db, done, now).1.Done?
    ensures var after := Exec(db, done, now).0.records;
            (SlotOf(cmd) in after <==> SlotOf(cmd) in db.records) &&
            (SlotOf(cmd) in after ==> after[SlotOf(cmd)] == db.records[SlotOf(cmd)])
  {
    hide EffectOf, HashOf, SlotOf, SameOperation, Exec;
    RecordsMoveOnceAtMost(db, done, now);
    if Keyed(done) {
      SlotsAgreeExactly(done, cmd);
    }
  }

  lemma RecordsMoveOnceAtMost(db: Db, done: Command, now: Instant)
    ensures Exec(db, done, now).0.records == db.records ||
            (Keyed(done) && Exec(db, done, now).1.Done? &&
             Exec(db, done, now).0.records ==
             db.records[SlotOf(done) := CompletedRecord(done, Exec(db, done, now).1.bill, now)])
  {
    hide EffectOf, HashOf, SlotOf, ClaimOf, Malformed;
    if EffectOf(db, done, now).Success? {
      EffectKeepsRecords(db, done, now);
    }
  }

  /** A key never used, or last used at least a day ago, stands in nobody's way. */
  lemma IdleKeyIsFree(db: Db, rs: seq<Request>, j: nat)
    requires Initial(db) && j < |rs| && Ordered(rs) && Keyed(rs[j].cmd) && WellFormedRequest(rs[j].cmd)
    requires forall k :: 0 <= k < j && Keyed(rs[k].cmd) && SameOperation(rs[k].cmd, rs[j].cmd) &&
                         rs[k].cmd.key == rs[j].cmd.key && rs[j].now < rs[k].now + 24 * 60 * 60 * 1_000_000 ==>
               !Exec(Before(db, rs, k), rs[k].cmd, rs[k].now).1.Done?
    ensures var before, r := Before(db, rs, j), rs[j];
            var e := EffectOf(before, r.cmd, r.now);
            Exec(before, r.cmd, r.now).1 == if e.Success? then Done(e.value.bill) else Refused(e.error)
  {
    var before, r := Before(db, rs, j), rs[j];
    ExpiredOrAbsent(db, rs, j, j);
    MalformedExactly(r.cmd);
    hide EffectOf, HashOf, SlotOf, SameOperation, Malformed, WellFormedRequest;
  }

  lemma {:induction false} ExpiredOrAbsent(db: Db, rs: seq<Request>, i: nat, j: nat)
    requires Initial(db) && i <= j < |rs| && Ordered(rs) && Keyed(rs[j].cmd)
    requires forall k :: 0 <= k < j && Keyed(rs[k].cmd) && SameOperation(rs[k].cmd, rs[j].cmd) &&
                         rs[k].cmd.key == rs[j].cmd.key && rs[j].now < rs[k].now + 24 * 60 * 60 * 1_000_000 ==>
               !Exec(Before(db, rs, k), rs[k].cmd, rs[k].now).1.Done?
    ensures var records := Before(db, rs, i).records;
            SlotOf(rs[j].cmd) in records ==> records[SlotOf(rs[j].cmd)].expiresAt <= rs[j].now
    decreases i
  {
    hide EffectOf, HashOf, SlotOf, SameOperation;
    if i > 0 {
      ExpiredOrAbsent(db, rs, i - 1, j);
      PrefixStep(db, rs, i - 1);
      var before, r := Before(db, rs, i - 1), rs[i - 1];
      if Keyed(r.cmd) && SameOperation(r.cmd, rs[j].cmd) && r.cmd.key == rs[j].cmd.key && Exec(before, r.cmd, r.now).1.Done? {
        SlotsAgreeExactly(r.cmd, rs[j].cmd);
      } else {
        OtherKeyKeepsRecord(before, r.cmd, r.now, rs[j].cmd);
      }
    }
  }
}
