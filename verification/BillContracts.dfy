/**
 * When each request on a bill takes effect and what it then leaves, in terms of the stored columns. Nothing here
 * refers to the predicates and functions the service itself is specified with; times are in microseconds.
 */
module BillContracts {
  import opened Prelude
  import opened Text
  import opened BillModel
  import opened BillSpec
  import opened BillInvariant
  import opened BillPreservation
  import opened BillRuns
  import opened BillTerms

  // ---- shared clauses ---------------------------------------------------------------------

  predicate StoredAt(db: Db, b: Id, version: int) {
    b in db.bills && version >= 1 && db.bills[b].state.version == version
  }

  /** `why` is the text without its outer blanks, and neither empty nor longer than 500 characters. */
  predicate Explains(text: string, why: string) { why == TrimSpace(text) && 1 <= |why| <= 500 }

  predicate Offered(row: Row, t: Id) {
    t in row.candidates && (row.candidates[t] == Suggested || row.candidates[t] == Selected)
  }

  /** Another bill holds the debit. */
  predicate HeldByAnother(db: Db, b: Id, t: Id) {
    exists x :: x in db.bills && x != b && t in db.bills[x].candidates &&
      (db.bills[x].candidates[t] == Selected || db.bills[x].candidates[t] == Confirmed)
  }

  predicate LiveCard(db: Db, card: Id) { card in db.accounts && !db.accounts[card].deleted }

  /** The bank debit, still in no transfer, is exactly the amount due and lies between statement and due date. */
  predicate DebitStillFits(db: Db, t: Id, h: Header) {
    && FullHeader(h) && t in db.txns && db.txns[t].account in db.accounts
    && var d := db.txns[t];
       && db.accounts[d.account].kind == BankAccount && d.direction == Debit
       && d.currency == h.currency.value && d.amount == h.amount.value
       && During(h.statementDate.value, d.at, h.dueDate.value)
       && forall l :: l in db.links ==> db.links[l].debit != t && db.links[l].credit != t
  }

  /** One row is written: its payment, its version and its history; nothing else of it, and no other bill. */
  predicate Rewritten(db: Db, after: Db, b: Id, status: Status, first: Event) {
    && b in db.bills && b in after.bills && after.bills == db.bills[b := after.bills[b]]
    && var was, row := db.bills[b], after.bills[b];
       && row.origin == was.origin && row.lines == was.lines && row.state.header == was.state.header
       && row.state.version == was.state.version + 1 && row.state.status == status
       && row.events ==
          was.events + [first] +
          (if was.state.status == status then [] else [Event(StatusChanged, "", Some(was.state.status), Some(status))])
  }

  /** The offers that remain stand with `mark`; a used one stays used and every other one is dismissed. */
  predicate OffersLeft(
    was: map<Id, CandidateStatus>, now: map<Id, CandidateStatus>, open: set<Id>, mark: CandidateStatus, used: Option<Id>)
  {
    && now.Keys == was.Keys + open
    && forall t :: t in now ==>
         now[t] == if used == Some(t) then Confirmed
                   else if t in open then mark
                   else if was[t] == Confirmed then Confirmed else Dismissed
  }

  /** Both legs are excluded by the system from `at` on, or already were; no other treatment moves. */
  predicate LegsLocked(was: map<Id, Treatment>, now: map<Id, Treatment>, debit: Id, credit: Id, at: Instant) {
    && now.Keys == was.Keys + {debit, credit}
    && forall t :: t in now ==>
         now[t] == if (t == debit || t == credit) && !(t in was && was[t].source == System)
                   then Treatment(Exclude, System, "credit_card_payoff", at)
                   else was[t]
  }

  predicate SharedTablesKept(db: Db, after: Db) {
    && after.accounts == db.accounts && after.documents == db.documents && after.outputs == db.outputs
    && after.categories == db.categories && after.isoCodes == db.isoCodes && after.records == db.records
  }

  predicate LedgerUntouched(db: Db, after: Db) {
    after.txns == db.txns && after.links == db.links && after.treatments == db.treatments && after.next == db.next
  }

  lemma ExplainsExactly(text: string)
    ensures BoundedReason(text).Success? <==> Explains(text, TrimSpace(text))
    ensures BoundedReason(text).Success? ==> BoundedReason(text).value == TrimSpace(text)
    ensures BoundedReason(text).Failure? ==> BoundedReason(text).error == Validation
  {
    hide TrimSpace;
  }

  lemma SyncLeavesOffers(
    was: map<Id, CandidateStatus>, suggestion: Option<Id>, selected: bool, ambiguous: set<Id>, confirmed: Option<Id>)
    requires Savable(suggestion, selected, ambiguous, confirmed)
    requires confirmed.Some? ==> confirmed.value in was
    ensures OffersLeft(was, Synced(was, suggestion, selected, ambiguous, confirmed),
                       if suggestion.Some? then {suggestion.value} else ambiguous,
                       if selected then Selected else Suggested, confirmed)
  {
    hide Savable;
    var now := Synced(was, suggestion, selected, ambiguous, confirmed);
    var open, mark := if suggestion.Some? then {suggestion.value} else ambiguous, if selected then Selected else Suggested;
    forall t | t in now
      ensures t in open || t in was
      ensures now[t] == if confirmed == Some(t) then Confirmed
                        else if t in open then mark
                        else if was[t] == Confirmed then Confirmed else Dismissed
    {
      OfferLeft(was, suggestion, selected, ambiguous, confirmed, t);
    }
    SavableOpens(suggestion, selected, ambiguous, confirmed);
  }

  lemma SavableOpens(suggestion: Option<Id>, selected: bool, ambiguous: set<Id>, confirmed: Option<Id>)
    requires Savable(suggestion, selected, ambiguous, confirmed)
    ensures suggestion.Some? ==> ambiguous == {}
  {
  }

  lemma OfferLeft(
    was: map<Id, CandidateStatus>, suggestion: Option<Id>, selected: bool, ambiguous: set<Id>, confirmed: Option<Id>, t: Id)
    requires Savable(suggestion, selected, ambiguous, confirmed) && (confirmed.Some? ==> confirmed.value in was)
    requires t in Synced(was, suggestion, selected, ambiguous, confirmed)
    ensures var open := if suggestion.Some? then {suggestion.value} else ambiguous;
            && (t !in open ==> t in was)
            && Synced(was, suggestion, selected, ambiguous, confirmed)[t] ==
               if confirmed == Some(t) then Confirmed
               else if t in open then if selected then Selected else Suggested
               else if was[t] == Confirmed then Confirmed else Dismissed
  {
  }

  lemma SavedRewrites(
    db: Db, after: Db, b: Id, state: State, suggestion: Option<Id>, confirmed: Option<Id>, event: Event)
    requires b in db.bills && state.header == db.bills[b].state.header
    requires after.bills == db.bills[b := Saved(db.bills[b], state, suggestion, confirmed, event)]
    requires suggestion.Some? ==> confirmed == None
    requires confirmed.Some? ==> confirmed.value in db.bills[b].candidates
    ensures Rewritten(db, after, b, state.status, event)
    ensures after.bills[b].state == state.(version := db.bills[b].state.version + 1)
    ensures OffersLeft(db.bills[b].candidates, after.bills[b].candidates,
                       if suggestion.Some? then {suggestion.value} else {},
                       if suggestion.Some? then Selected else Suggested, confirmed)
  {
    SyncLeavesOffers(db.bills[b].candidates, suggestion, suggestion.Some?, {}, confirmed);
    hide Synced, OffersLeft;
  }

  lemma LockingOnTerms(ts: map<Id, Treatment>, debit: Id, credit: Id, at: Instant)
    ensures LegsLocked(ts, LockedTreatments(ts, {debit, credit}, at), debit, credit, at)
  {
  }

  lemma DebitFitsExactly(db: Db, t: Id, h: Header)
    requires LinksOk(db)
    ensures DebitStillFits(db, t, h) <==>
            LoadTransaction(db, t).Success? && ValidDebit(h, LoadTransaction(db, t).value)
  {
    if t in db.txns && db.txns[t].account in db.accounts {
      if FullHeader(h) {
        DaysAreMicroseconds(h.statementDate.value, db.txns[t].at, h.dueDate.value);
      }
      var links := LinksOf(db, t);
      if links != {} {
        assert Joined(db, db.links[Least(links)]);
      } else {
        assert forall l :: l in db.links ==> l !in links;
      }
    }
    hide During, Within;
  }

  // ---- choosing a debit ------------------------------------------------------------------------

  lemma GoodLinks(db: Db)
    requires Inv(db)
    ensures LinksOk(db)
  {
  }

  lemma OffersOfReview(db: Db, b: Id, t: Id)
    requires Inv(db) && b in db.bills && db.bills[b].state.status == Review
    ensures t in LoadBill(b, db.bills[b]).ambiguous <==>
            Offered(db.bills[b], t) && exists u :: u != t && Offered(db.bills[b], u)
  {
    var row := db.bills[b];
    assert RowOk(db, row);
    var open := Open(row.candidates);
    if Offered(row, t) {
      assert t in open && open != {t};
      assert open - {t} == {} ==> open == {t};
      var u := Pick(open - {t});
      assert Offered(row, u);
      SubsetSize({t, u}, open);
    }
  }

  lemma OfferOfUnpaid(db: Db, b: Id, t: Id)
    requires Inv(db) && b in db.bills && db.bills[b].state.status == Unpaid
    ensures LoadBill(b, db.bills[b]).suggestion == Some(t) <==> Offered(db.bills[b], t)
  {
    var row := db.bills[b];
    assert RowOk(db, row);
    var open, chosen := Open(row.candidates), Chosen(row.candidates);
    assert chosen <= open;
    if Offered(row, t) {
      assert t in open;
      SingletonOf(open);
      SubsetSize({t}, open);
    }
    if open != {} {
      SubsetSize({Least(open)}, open);
      SingletonOf(open);
    }
  }

  /** The debit can be chosen: it is one of several offers, still fits, and nobody else holds it. */
  ghost predicate MaySelect(db: Db, b: Id, version: int, t: Id) {
    && StoredAt(db, b, version) && db.bills[b].state.status == Review
    && Offered(db.bills[b], t) && (exists u :: u != t && Offered(db.bills[b], u))
    && DebitStillFits(db, t, db.bills[b].state.header) && !HeldByAnother(db, b, t)
  }

  lemma SelectsExactlyWhen(db: Db, b: Id, version: int, t: Id, now: Instant)
    requires Inv(db)
    ensures SelectEffect(db, b, version, t, now).Success? <==> MaySelect(db, b, version, t)
  {
    hide Inv, LinksOk, LoadTransaction, ValidDebit, DebitStillFits, LoadBill, Saved, Offered;
    GoodLinks(db);
    DebitFitsExactly(db, t, if b in db.bills then db.bills[b].state.header else BLANK_HEADER);
    if b in db.bills && db.bills[b].state.status == Review {
      OffersOfReview(db, b, t);
    }
  }

  /** The chosen offer stands alone, and the bill awaits its confirmation. */
  lemma SelectLeaves(db: Db, b: Id, version: int, t: Id, now: Instant)
    requires Inv(db) && SelectEffect(db, b, version, t, now).Success?
    ensures var e := SelectEffect(db, b, version, t, now).value;
            && Rewritten(db, e.db, b, Unpaid, Event(PaymentSelected, "", None, None))
            && OffersLeft(db.bills[b].candidates, e.db.bills[b].candidates, {t}, Selected, None)
            && e.db.bills[b].state.payoff == None && e.db.bills[b].state.paidAt == None
            && e.db.bills[b].state.voidReason == None
            && LedgerUntouched(db, e.db) && SharedTablesKept(db, e.db)
            && e.bill.Some? && e.bill.value.suggestion == Some(t) && e.bill.value.selected
  {
    ReviewColumns(db, b);
    var e := SelectEffect(db, b, version, t, now).value;
    SelectSaves(db, b, version, t, now);
    SavedRewrites(db, e.db, b, db.bills[b].state.(status := Unpaid), Some(t), None, Happened(PaymentSelected, ""));
    hide Inv, SelectEffect, OffersLeft, Saved;
  }

  lemma SelectSaves(db: Db, b: Id, version: int, t: Id, now: Instant)
    requires SelectEffect(db, b, version, t, now).Success?
    ensures b in db.bills && db.bills[b].state.status == Review
    ensures var e := SelectEffect(db, b, version, t, now).value;
            var saved := Saved(db.bills[b], db.bills[b].state.(status := Unpaid), Some(t), None, Happened(PaymentSelected, ""));
            && e.db == db.(bills := db.bills[b := saved])
            && e.bill.Some? && e.bill.value.suggestion == Some(t) && e.bill.value.selected
  {
    hide LoadTransaction, ValidDebit, LoadBill, ChosenByAnother, Saved;
  }

  lemma ReviewColumns(db: Db, b: Id)
    requires Inv(db)
    ensures b in db.bills && (db.bills[b].state.status == Review || db.bills[b].state.status == Unpaid) ==>
              var s := db.bills[b].state; s.payoff == None && s.paidAt == None && s.voidReason == None
  {
    if b in db.bills {
      assert RowOk(db, db.bills[b]);
    }
  }

  // ---- paying -------------------------------------------------------------------------------------

  /** The bill is paid by a new transfer from `debit` to `credit`, both excluded from spending. */
  predicate PaidBy(db: Db, after: Db, b: Id, link: Id, debit: Id, credit: Id, first: EventKind, now: Instant) {
    && Rewritten(db, after, b, Paid, Event(first, "", None, None))
    && link !in db.links && after.links == db.links[link := Link(debit, credit)]
    && after.bills[b].state.payoff == Some(link) && after.bills[b].state.paidAt == Some(now)
    && after.bills[b].state.voidReason == None
    && LegsLocked(db.treatments, after.treatments, debit, credit, now)
    && SharedTablesKept(db, after)
  }

  /** A new confirmed ledger row of exactly the amount due. */
  predicate NewLeg(db: Db, after: Db, t: Id, account: Id, direction: Direction, h: Header, at: Instant) {
    && t !in db.txns && t in after.txns
    && var x := after.txns[t];
       && x.account == account && x.direction == direction && x.at == at && x.confirmed && x.evidenceFor == {}
       && Some(x.currency) == h.currency && Some(x.amount) == h.amount
  }

  predicate MayConfirm(db: Db, b: Id, version: int, t: Id) {
    && StoredAt(db, b, version) && db.bills[b].state.status == Unpaid && Offered(db.bills[b], t)
    && DebitStillFits(db, t, db.bills[b].state.header) && LiveCard(db, db.bills[b].origin.account)
    && !HeldByAnother(db, b, t)
  }

  /** The one offer of an Unpaid bill is confirmed iff it still fits, the Card is live and nobody else holds it. */
  lemma ConfirmsExactlyWhen(db: Db, b: Id, version: int, t: Id, now: Instant)
    requires Inv(db)
    ensures ConfirmEffect(db, b, version, t, now).Success? <==> MayConfirm(db, b, version, t)
  {
    hide Inv, LinksOk, LoadTransaction, DebitStillFits, LoadBill, ConfirmedPayoff, Offered, Within;
    GoodLinks(db);
    DebitFitsExactly(db, t, if b in db.bills then db.bills[b].state.header else BLANK_HEADER);
    if b in db.bills && db.bills[b].state.status == Unpaid {
      OfferOfUnpaid(db, b, t);
    }
  }

  lemma NewIds(db: Db)
    requires Inv(db)
    ensures forall i :: i >= db.next ==> i !in db.txns && i !in db.links && i !in db.bills
  {
  }

  /** Confirming makes the missing Card leg at the very instant of the debit, and the transfer of both. */
  lemma ConfirmLeaves(db: Db, b: Id, version: int, t: Id, now: Instant)
    requires Inv(db) && ConfirmEffect(db, b, version, t, now).Success?
    ensures var e := ConfirmEffect(db, b, version, t, now).value;
            var was, credit, link := db.bills[b], db.next, db.next + 1;
            && PaidBy(db, e.db, b, link, t, credit, PaymentConfirmed, now)
            && t in db.txns && NewLeg(db, e.db, credit, was.origin.account, Credit, was.state.header, db.txns[t].at)
            && e.db.txns == db.txns[credit := e.db.txns[credit]] && e.db.next == db.next + 2
            && OffersLeft(was.candidates, e.db.bills[b].candidates, {}, Suggested, Some(t))
            && e.bill.Some? && Chose(e.bill.value, None, {})
  {
    hide Inv, ConfirmEffect, DebitStillFits, Payoff, PaidBy, OffersLeft, Chose, Offered, LiveCard, HeldByAnother, StoredAt;
    ConfirmsExactlyWhen(db, b, version, t, now);
    ConfirmIsPayoff(db, b, version, t, now);
    NewIds(db);
    var row, h := db.bills[b], db.bills[b].state.header;
    var legs := map[db.next := Leg(row.origin.account, Credit, h, db.txns[t].at)];
    PayoffLeaves(db, b, db.next + 1, Link(t, db.next), legs, Some(t), PaymentConfirmed, now);
    assert db.txns + legs == db.txns[db.next := legs[db.next]];
  }

  lemma ConfirmIsPayoff(db: Db, b: Id, version: int, t: Id, now: Instant)
    requires Inv(db) && ConfirmEffect(db, b, version, t, now).Success?
    ensures b in db.bills && t in db.txns && Complete(db.bills[b].state.header) && t in db.bills[b].candidates
    ensures var row := db.bills[b];
            ConfirmEffect(db, b, version, t, now).value ==
            Payoff(db, b, row, db.next + 1, Link(t, db.next),
                   map[db.next := Leg(row.origin.account, Credit, row.state.header, db.txns[t].at)], Some(t),
                   Happened(PaymentConfirmed, ""), now)
  {
    hide Inv, PayableWith, Payoff, LoadTransaction;
    PayableDebit(db, b, db.bills[b], t);
    LoadsAsStored(db, t);
    SuggestionIsOffered(db, b, t);
  }

  lemma SuggestionIsOffered(db: Db, b: Id, t: Id)
    requires Inv(db) && b in db.bills && PayableWith(db, b, db.bills[b], t).Success?
    ensures t in db.bills[b].candidates
  {
    hide LoadTransaction, ValidDebit, ChosenByAnother;
    OfferOfUnpaid(db, b, t);
  }

  lemma LoadsAsStored(db: Db, t: Id)
    requires LoadTransaction(db, t).Success?
    ensures t in db.txns && LoadTransaction(db, t).value.at == db.txns[t].at
  {
  }

  lemma PayoffLeaves(
    db: Db, b: Id, link: Id, legs: Link, txns: map<Id, Txn>, confirmed: Option<Id>, kind: EventKind, now: Instant)
    requires b in db.bills && link !in db.links && (confirmed.Some? ==> confirmed.value in db.bills[b].candidates)
    ensures var e := Payoff(db, b, db.bills[b], link, legs, txns, confirmed, Happened(kind, ""), now);
            && PaidBy(db, e.db, b, link, legs.debit, legs.credit, kind, now)
            && e.db.txns == db.txns + txns && e.db.next == link + 1
            && OffersLeft(db.bills[b].candidates, e.db.bills[b].candidates, {}, Suggested, confirmed)
            && e.bill.Some? && Chose(e.bill.value, None, {})
  {
    var e := Payoff(db, b, db.bills[b], link, legs, txns, confirmed, Happened(kind, ""), now);
    LockingOnTerms(db.treatments, legs.debit, legs.credit, now);
    SavedRewrites(db, e.db, b, PaidState(db.bills[b].state, link, now), None, confirmed, Happened(kind, ""));
    hide Saved, Rewritten, OffersLeft, LegsLocked, LockedTreatments;
  }

  predicate MayPayInFull(db: Db, b: Id, version: int, bank: Id) {
    && bank != 0 && StoredAt(db, b, version)
    && var row := db.bills[b];
       && row.state.status == Unpaid && FullHeader(row.state.header) && row.state.header.amount.value > 0
       && bank in db.accounts && db.accounts[bank].kind == BankAccount && !db.accounts[bank].deleted
       && LiveCard(db, row.origin.account) && db.accounts[row.origin.account].kind == CreditCard
  }

  /** An Unpaid bill is paid in full iff the bank account and the Card are live and of their kinds. */
  lemma PaysInFullExactlyWhen(db: Db, b: Id, version: int, bank: Id, now: Instant)
    requires Inv(db)
    ensures PayInFullEffect(db, b, version, bank, now).Success? <==> MayPayInFull(db, b, version, bank)
  {
    hide Inv, Payoff;
  }

  /** Paying in full makes both legs at the time of the request: out of the named bank account, into the Card. */
  lemma PayInFullLeaves(db: Db, b: Id, version: int, bank: Id, now: Instant)
    requires Inv(db) && PayInFullEffect(db, b, version, bank, now).Success?
    ensures var e := PayInFullEffect(db, b, version, bank, now).value;
            var was, debit, credit, link := db.bills[b], db.next, db.next + 1, db.next + 2;
            && PaidBy(db, e.db, b, link, debit, credit, PayoffCreated, now)
            && NewLeg(db, e.db, debit, bank, Debit, was.state.header, now)
            && NewLeg(db, e.db, credit, was.origin.account, Credit, was.state.header, now)
            && e.db.txns == db.txns[debit := e.db.txns[debit]][credit := e.db.txns[credit]] && e.db.next == db.next + 3
            && OffersLeft(was.candidates, e.db.bills[b].candidates, {}, Suggested, None)
            && e.bill.Some? && Chose(e.bill.value, None, {})
  {
    hide Inv, PayInFullEffect, Payoff, PaidBy, OffersLeft, Chose;
    NewIds(db);
    PayInFullIsPayoff(db, b, version, bank, now);
    var row, h, n := db.bills[b], db.bills[b].state.header, db.next;
    var legs := map[n := Leg(bank, Debit, h, now), n + 1 := Leg(row.origin.account, Credit, h, now)];
    PayoffLeaves(db, b, n + 2, Link(n, n + 1), legs, None, PayoffCreated, now);
    assert db.txns + legs == db.txns[n := legs[n]][n + 1 := legs[n + 1]];
  }

  lemma PayInFullIsPayoff(db: Db, b: Id, version: int, bank: Id, now: Instant)
    requires PayInFullEffect(db, b, version, bank, now).Success?
    ensures b in db.bills && Complete(db.bills[b].state.header)
    ensures PayInFullEffect(db, b, version, bank, now).value == FullPayoff(db, b, db.bills[b], bank, now)
  {
    hide Payoff;
  }

  // ---- voiding, discarding, treatments -----------------------------------------------------------------

  /** Exactly an Unpaid bill is voided, and only with a reason; its offers are dismissed and no money moves. */
  lemma VoidsOnTerms(db: Db, b: Id, version: int, reason: string, now: Instant)
    requires Inv(db)
    ensures var e := VoidEffect(db, b, version, reason, now);
            && (e.Success? <==>
                  StoredAt(db, b, version) && db.bills[b].state.status == Unpaid && Explains(reason, TrimSpace(reason)))
            && (e.Success? ==>
                  && Rewritten(db, e.value.db, b, Void, Event(Voided, TrimSpace(reason), None, None))
                  && e.value.db.bills[b].state.voidReason == Some(TrimSpace(reason))
                  && e.value.db.bills[b].state.payoff == None && e.value.db.bills[b].state.paidAt == None
                  && OffersLeft(db.bills[b].candidates, e.value.db.bills[b].candidates, {}, Suggested, None)
                  && LedgerUntouched(db, e.value.db) && SharedTablesKept(db, e.value.db))
  {
    hide Inv, TrimSpace, BoundedReason, Explains, OffersLeft, Saved, Rewritten;
    ExplainsExactly(reason);
    ReviewColumns(db, b);
    var e := VoidEffect(db, b, version, reason, now);
    if e.Success? {
      SavedRewrites(db, e.value.db, b, db.bills[b].state.(status := Void, voidReason := Some(TrimSpace(reason))), None, None,
                    Happened(Voided, TrimSpace(reason)));
    }
  }

  /** Exactly a Review bill is discarded, and nothing goes with it but its own rows. */
  lemma DiscardsOnTerms(db: Db, b: Id, version: int)
    ensures var e := DiscardEffect(db, b, version);
            && (e.Success? <==> StoredAt(db, b, version) && db.bills[b].state.status == Review)
            && (e.Success? ==>
                  && (forall x :: x in e.value.db.bills <==> x in db.bills && x != b)
                  && (forall x :: x in e.value.db.bills ==> e.value.db.bills[x] == db.bills[x])
                  && LedgerUntouched(db, e.value.db) && SharedTablesKept(db, e.value.db) && e.value.bill == None)
  {
  }

  /** A treatment is written over the row the user saw, or over none if they saw none, and never over a system one. */
  lemma TreatsOnTerms(db: Db, t: Id, basis: Basis, note: string, expected: Option<Instant>, now: Instant)
    ensures var e := PutTreatmentEffect(db, t, basis, note, expected, now);
            && (e.Success? <==>
                  && t in db.txns
                  && if t in db.treatments
                     then db.treatments[t].source == User && expected == Some(db.treatments[t].updatedAt)
                     else expected == None)
            && (e.Success? ==>
                  && e.value.db.treatments == db.treatments[t := Treatment(basis, User, note, now)]
                  && e.value.db.bills == db.bills && e.value.db.txns == db.txns && e.value.db.links == db.links
                  && e.value.db.next == db.next && SharedTablesKept(db, e.value.db))
  {
  }

  // ---- what a request leaves besides its effect --------------------------------------------------------------

  /** A request that is done leaves its effect and, under its operation and key, the answer for a day. */
  lemma DoneLeaves(db: Db, cmd: Command, now: Instant)
    requires Exec(db, cmd, now).1.Done?
    ensures var (after, reply), e := Exec(db, cmd, now), EffectOf(db, cmd, now);
            && e.Success? && reply.bill == e.value.bill && after == e.value.db.(records := after.records)
            && if !Keyed(cmd) then after.records == e.value.db.records
               else
                 && SlotOf(cmd) in after.records
                 && after.records == e.value.db.records[SlotOf(cmd) := after.records[SlotOf(cmd)]]
                 && var r := after.records[SlotOf(cmd)];
                    && r.status == Completed && r.resource == cmd.bill && r.response == reply.bill
                    && r.expiresAt == now + 86_400_000_000
                    && r.code == Some(if cmd.DiscardBill? then 204 else 200)
  {
    hide HashOf;
    hide EffectOf;
    if Keyed(cmd) {
      AnswersABill(db, cmd, now);
    }
  }

  lemma AnswersABill(db: Db, cmd: Command, now: Instant)
    requires EffectOf(db, cmd, now).Success? && Keyed(cmd)
    ensures EffectOf(db, cmd, now).value.bill.Some? <==> !cmd.DiscardBill?
  {
    hide LoadTransaction, CheckLink, Resolve, SettledRow, LockedTreatments, FindCandidate, LoadBill, MutableLine, ValidDebit,
      ChosenByAnother;
  }

  // ---- every way to become Paid ---------------------------------------------------------------------------

  /** The transfer was found: it alone is on the bill's terms and pays no other bill. */
  predicate FoundPaid(after: Db, b: Id)
    requires b in after.bills
  {
    var payoff, row := after.bills[b].state.payoff, after.bills[b];
    && payoff.Some? && payoff.value in after.links && FullHeader(row.state.header)
    && PaysOnTerms(after, after.links[payoff.value], row.origin.account, row.state.header)
    && !PaysAnother(after, b, payoff.value)
    && forall l :: l in after.links && l != payoff.value ==>
         PaysOnTerms(after, after.links[l], row.origin.account, row.state.header) ==> PaysAnother(after, b, l)
  }

  lemma DecidedPaidIsFound(db: Db, b: Id, answer: Bill, now: Instant)
    requires b in db.bills && PaymentDecided(db, b, answer, now) && db.bills[b].state.status == Paid
    ensures FoundPaid(db, b) && db.bills[b].state.paidAt == Some(now)
  {
    FullWhenSettleable(db.isoCodes, db.bills[b]);
    hide Settleable, PaysOnTerms, PaysAnother;
    var payoff := db.bills[b].state.payoff.value;
    assert payoff in PayoffsFor(db, b);
    forall l | l in db.links && l != payoff &&
               PaysOnTerms(db, db.links[l], db.bills[b].origin.account, db.bills[b].state.header)
      ensures PaysAnother(db, b, l)
    {
      assert l !in PayoffsFor(db, b);
    }
  }

  /** The bill was confirmed or paid in full, by new legs and a new transfer. */
  predicate MadePaid(before: Db, after: Db, b: Id, cmd: Command, now: Instant)
    requires cmd.ConfirmPayment? || cmd.PayInFull?
  {
    && cmd.bill == b && b in before.bills
    && var h, card, n := before.bills[b].state.header, before.bills[b].origin.account, before.next;
       match cmd
       case ConfirmPayment(_, version, t, _) =>
         && MayConfirm(before, b, version, t) && NewLeg(before, after, n, card, Credit, h, before.txns[t].at)
         && PaidBy(before, after, b, n + 1, t, n, PaymentConfirmed, now)
       case PayInFull(_, version, bank, _) =>
         && MayPayInFull(before, b, version, bank)
         && NewLeg(before, after, n, bank, Debit, h, now) && NewLeg(before, after, n + 1, card, Credit, h, now)
         && PaidBy(before, after, b, n + 2, n, n + 1, PayoffCreated, now)
  }

  lemma PayingMakesPaid(db: Db, cmd: Command, now: Instant)
    requires Inv(db) && (cmd.ConfirmPayment? || cmd.PayInFull?) && EffectOf(db, cmd, now).Success?
    ensures MadePaid(db, EffectOf(db, cmd, now).value.db, cmd.bill, cmd, now)
  {
    hide Inv, ConfirmEffect, PayInFullEffect, PaidBy, OffersLeft, Chose, HeldByAnother, Offered, LiveCard;
    match cmd
    case ConfirmPayment(b, version, t, _) =>
      ConfirmsExactlyWhen(db, b, version, t, now);
      ConfirmLeaves(db, b, version, t, now);
    case PayInFull(b, version, bank, _) =>
      PaysInFullExactlyWhen(db, b, version, bank, now);
      PayInFullLeaves(db, b, version, bank, now);
  }

  lemma OneBillIsPaid(db: Db, cmd: Command, now: Instant, b: Id)
    requires Inv(db) && EffectOf(db, cmd, now).Success?
    requires var after := EffectOf(db, cmd, now).value.db; b in after.bills && after.bills[b].state.status == Paid
    requires !(b in db.bills && db.bills[b].state.status == Paid)
    ensures cmd.Project? || ((LooksForPayment(cmd) || cmd.ConfirmPayment? || cmd.PayInFull?) && b == cmd.bill)
  {
    hide Inv, SettlesExactly, ProjectEffect, CorrectEffect, AttachEffect, IgnoreEffect, CreateLineEffect,
      ConfirmEffect, PayInFullEffect, SelectEffect, VoidEffect, DiscardEffect, PutTreatmentEffect;
    match cmd
    case Project(d, g) =>
    case CreateLine(i, v, l, c, _) => CreatePaysExactly(db, i, v, l, c, now);
    case ConfirmPayment(i, v, t, _) => ConfirmPaysExactly(db, i, v, t, now);
    case PayInFull(i, v, a, _) => PayInFullPaysExactly(db, i, v, a, now);
    case CorrectHeader(_, _, _) => ReviewPaysExactly(db, cmd, now);
    case AttachLine(_, _, _, _, _) => ReviewPaysExactly(db, cmd, now);
    case IgnoreLine(_, _, _, _) => ReviewPaysExactly(db, cmd, now);
    case _ => OthersPayNothing(db, cmd, now, b);
  }

  /**
   * However a bill becomes Paid in a run: by a transfer that alone is on its terms - exact amount, between statement
   * and due date, legs ten minutes apart at most - or by legs made for it on a request that may make them.
   */
  lemma BecomesPaidOnTerms(db: Db, rs: seq<Request>, i: nat, b: Id)
    requires Initial(db) && i < |rs|
    requires var before, after := Before(db, rs, i), Before(db, rs, i + 1);
             && b in after.bills && after.bills[b].state.status == Paid
             && !(b in before.bills && before.bills[b].state.status == Paid)
    ensures var before, after, cmd := Before(db, rs, i), Before(db, rs, i + 1), rs[i].cmd;
            && after.bills[b].state.paidAt == Some(rs[i].now)
            && if cmd.ConfirmPayment? || cmd.PayInFull?
               then MadePaid(before, after.(records := before.records), b, cmd, rs[i].now)
               else (cmd.Project? || LooksForPayment(cmd)) && FoundPaid(after, b)
  {
    hide Inv, Initial, EffectOf, Run, FoundPaid, MadePaid, PaymentDecided, FromDocument, LinesFromOutput, Failing;
    var before, after, cmd, now := Before(db, rs, i), Before(db, rs, i + 1), rs[i].cmd, rs[i].now;
    PrefixStep(db, rs, i);
    GoodBefore(db, rs, i);
    OneBillIsPaid(before, cmd, now, b);
    if cmd.ConfirmPayment? || cmd.PayInFull? {
      PayingMakesPaid(before, cmd, now);
      MadeAtNow(before, EffectOf(before, cmd, now).value.db, b, cmd, now);
      EffectKeepsRecords(before, cmd, now);
    } else if cmd.Project? {
      ProjectedPaid(db, rs, i, b);
    } else {
      EveryReviewRequestDecides(db, rs, i);
      DecidedPaidIsFound(after, b, Exec(before, cmd, now).1.bill.value, now);
    }
  }

  lemma MadeAtNow(before: Db, after: Db, b: Id, cmd: Command, now: Instant)
    requires (cmd.ConfirmPayment? || cmd.PayInFull?) && MadePaid(before, after, b, cmd, now)
    ensures b in after.bills && after.bills[b].state.paidAt == Some(now)
  {
    hide NewLeg, MayConfirm, MayPayInFull;
  }

  lemma ProjectedPaid(db: Db, rs: seq<Request>, i: nat, b: Id)
    requires Initial(db) && i < |rs| && rs[i].cmd.Project?
    requires var before, after := Before(db, rs, i), Before(db, rs, i + 1);
             && b in after.bills && after.bills[b].state.status == Paid
             && !(b in before.bills && before.bills[b].state.status == Paid)
    ensures FoundPaid(Before(db, rs, i + 1), b)
    ensures Before(db, rs, i + 1).bills[b].state.paidAt == Some(rs[i].now)
  {
    hide Inv, Initial, EffectOf, Run, FoundPaid, PaymentDecided, FromDocument, LinesFromOutput, Failing;
    var before, after, cmd, now := Before(db, rs, i), Before(db, rs, i + 1), rs[i].cmd, rs[i].now;
    GoodBefore(db, rs, i);
    PrefixStep(db, rs, i);
    ProjectIsUnkeyed(before, cmd, now);
    hide Exec;
    var e := ProjectEffect(before, cmd.document, cmd.generation, now);
    if b in before.bills {
      ProjectPaysExactly(before, cmd.document, cmd.generation, now);
      NewIds(before);
    } else {
      EveryBillIsProjected(db, rs, i, b);
      DecidedPaidIsFound(after, b, Exec(before, cmd, now).1.bill.value, now);
    }
  }
}
