/**
 * When each request on a Review bill takes effect and what it then leaves, in terms of the stored columns: header,
 * lines, history, offers and treatments. The payment it then finds is told by `BillTerms`.
 */
module BillReview {
  import opened Prelude
  import opened Text
  import opened BillModel
  import opened BillSpec
  import opened BillInvariant
  import opened BillPreservation
  import opened BillRuns
  import opened BillTerms
  import opened BillContracts

  // ---- the shared tail -------------------------------------------------------------------------

  /** What is logged after the operation's own event: the search, the payment, the change of status. */
  function SearchLogged(codes: set<string>, row: Row): seq<Event> {
    if !Settleable(codes, row) then [] else
    var found := Event(PaymentCandidatesFound, "", None, None);
    match row.state.status
    case Review => [found]
    case Unpaid => [found, Event(StatusChanged, "", Some(Review), Some(Unpaid))]
    case Paid => [found, Event(PaymentConfirmed, "", None, None), Event(StatusChanged, "", Some(Review), Some(Paid))]
    case Void => []
  }

  /** `edited`, with the payment decided, is the one row written; a payment found locks its legs and moves nothing else. */
  predicate Resettled(db: Db, after: Db, b: Id, edited: Row, first: Event, answer: Bill, now: Instant) {
    && b in after.bills && after.bills == db.bills[b := after.bills[b]]
    && PaymentDecided(after, b, answer, now)
    && var row := after.bills[b];
       && row.origin == edited.origin && row.lines == edited.lines && row.state.header == edited.state.header
       && row.state.version == edited.state.version + 1 && row.state.voidReason == None
       && row.events == edited.events + [first] + SearchLogged(db.isoCodes, row)
       && OffersLeft(edited.candidates, row.candidates,
                     if answer.suggestion.Some? then {answer.suggestion.value} else answer.ambiguous, Suggested, None)
       && after.txns == db.txns && after.links == db.links && after.next == db.next && SharedTablesKept(db, after)
       && if row.state.status == Paid then
            && row.state.payoff.Some? && row.state.payoff.value in db.links
            && LegsLocked(db.treatments, after.treatments, db.links[row.state.payoff.value].debit,
                          db.links[row.state.payoff.value].credit, now)
          else after.treatments == db.treatments
  }

  lemma SettleWrites(db: Db, id: Id, row: Row, event: Event, now: Instant)
    requires row.state.status == Review && row.state.voidReason == None
    ensures var e, res := Settle(db, id, row, event, now), Resolve(db, row);
            && id in e.db.bills && e.db.bills == db.bills[id := e.db.bills[id]] && e.bill.Some?
            && e.db == db.(bills := e.db.bills, treatments := e.db.treatments)
            && var saved := e.db.bills[id];
               && saved.origin == row.origin && saved.lines == row.lines && saved.state.header == row.state.header
               && saved.state.version == row.state.version + 1 && saved.state.voidReason == None
               && saved.state.status == ResolvedState(row.state, res, now).status
               && saved.state.payoff == ResolvedState(row.state, res, now).payoff
               && saved.events == row.events + ([event] + ResolutionEvents(res)) + StatusChange(Review, saved.state.status)
               && saved.candidates == Synced(row.candidates, Suggestion(res), false, Ambiguous(res), None)
               && e.bill.value.suggestion == Suggestion(res) && e.bill.value.ambiguous == Ambiguous(res)
               && (res.AutoPaid? ==> res.link in db.links)
               && e.db.treatments ==
                  if res.AutoPaid?
                  then LockedTreatments(db.treatments, {db.links[res.link].debit, db.links[res.link].credit}, now)
                  else db.treatments
  {
    ResolutionIsSavable(db, row);
    hide Resolve, Synced, LockedTreatments;
  }

  lemma LoggedOnTerms(codes: set<string>, row: Row, saved: Row, res: Resolution, now: Instant)
    requires row.state.status == Review && (res.Unready? <==> !Ready(codes, row))
    requires saved.origin == row.origin && saved.lines == row.lines && saved.state.header == row.state.header
    requires saved.state.status == ResolvedState(row.state, res, now).status
    ensures ResolutionEvents(res) + StatusChange(Review, saved.state.status) == SearchLogged(codes, saved)
  {
    SameReadiness(codes, row, saved);
    SettleableIsReady(codes, saved);
    hide Ready, Settleable;
  }

  lemma SettleLeaves(db: Db, id: Id, row: Row, event: Event, now: Instant)
    requires row.state.status == Review && row.state.voidReason == None
    requires id in db.bills ==> db.bills[id].state.payoff == None
    ensures var e := Settle(db, id, row, event, now);
            e.bill.Some? && Resettled(db, e.db, id, row, event, e.bill.value, now)
  {
    hide Settle, Resolve, Synced, LockedTreatments, PaymentDecided, Ready, SearchLogged, OffersLeft, LegsLocked, ResolutionEvents,
      StatusChange, ExactTransfer;
    var e, res := Settle(db, id, row, event, now), Resolve(db, row);
    SettleDecides(db, id, row, event, now);
    SettleWrites(db, id, row, event, now);
    ResolutionIsSavable(db, row);
    var saved := e.db.bills[id];
    LoggedOnTerms(db.isoCodes, row, saved, res, now);
    assert row.events + ([event] + ResolutionEvents(res)) + StatusChange(Review, saved.state.status) ==
           row.events + [event] + (ResolutionEvents(res) + StatusChange(Review, saved.state.status));
    SyncLeavesOffers(row.candidates, Suggestion(res), false, Ambiguous(res), None);
    if res.AutoPaid? {
      LockingOnTerms(db.treatments, db.links[res.link].debit, db.links[res.link].credit, now);
    }
  }

  // ---- the header -----------------------------------------------------------------------------

  predicate InReviewAt(db: Db, b: Id, version: int) { StoredAt(db, b, version) && db.bills[b].state.status == Review }

  lemma InReviewExactly(db: Db, b: Id, version: int)
    requires Inv(db)
    ensures InReview(db, b, version).Success? <==> InReviewAt(db, b, version)
    ensures InReviewAt(db, b, version) ==>
              InReview(db, b, version).value == db.bills[b] && db.bills[b].state.voidReason == None &&
              db.bills[b].state.payoff == None
  {
    ReviewColumns(db, b);
    hide Inv;
  }

  /** Every given field replaces the stored one; a currency is stored trimmed and in capitals. */
  function Merged(h: Header, c: Correction): Header {
    Header(
      periodStart := if c.periodStart.Some? then c.periodStart else h.periodStart,
      periodEnd := if c.periodEnd.Some? then c.periodEnd else h.periodEnd,
      statementDate := if c.statementDate.Some? then c.statementDate else h.statementDate,
      dueDate := if c.dueDate.Some? then c.dueDate else h.dueDate,
      currency := if c.currency.Some? then Some(Upper(TrimSpace(c.currency.value))) else h.currency,
      amount := if c.amount.Some? then c.amount else h.amount)
  }

  predicate HeaderHolds(codes: set<string>, h: Header) {
    && (h.periodStart.Some? && h.periodEnd.Some? ==> h.periodStart.value <= h.periodEnd.value)
    && (h.statementDate.Some? && h.dueDate.Some? ==> h.statementDate.value <= h.dueDate.value)
    && (h.amount.Some? ==> h.amount.value > 0)
    && (h.currency.Some? ==>
          h.currency.value == Upper(h.currency.value) && TrimSpace(h.currency.value) in codes &&
          TrimSpace(h.currency.value) == Upper(TrimSpace(h.currency.value)))
  }

  predicate SaysSomething(c: Correction) {
    c.periodStart.Some? || c.periodEnd.Some? || c.statementDate.Some? || c.dueDate.Some? || c.currency.Some? || c.amount.Some?
  }

  lemma CorrectionExactly(codes: set<string>, h: Header, c: Correction)
    ensures Corrected(h, c) == Merged(h, c) && (CorrectsNothing(c) <==> !SaysSomething(c))
    ensures ValidFields(codes, Merged(h, c)) <==> HeaderHolds(codes, Merged(h, c))
  {
    hide TrimSpace, Upper;
  }

  /** A header is corrected iff the bill is in Review at that version, something is given with a reason, and the result holds. */
  lemma CorrectsOnTerms(db: Db, b: Id, version: int, c: Correction, now: Instant)
    requires Inv(db)
    ensures var e := CorrectEffect(db, b, version, c, now);
            && (e.Success? <==>
                  && InReviewAt(db, b, version) && SaysSomething(c) && Explains(c.reason, TrimSpace(c.reason))
                  && HeaderHolds(db.isoCodes, Merged(db.bills[b].state.header, c)))
            && (e.Success? ==>
                  && e.value.bill.Some?
                  && var row := db.bills[b];
                     Resettled(db, e.value.db, b, row.(state := row.state.(header := Merged(row.state.header, c))),
                               Event(HeaderCorrected, TrimSpace(c.reason), None, None), e.value.bill.value, now))
  {
    hide Inv, InReview, BoundedReason, Explains, Settle, TrimSpace, Upper, Resettled, ValidFields, HeaderHolds, CorrectsNothing,
      SaysSomething, Corrected, Merged;
    InReviewExactly(db, b, version);
    ExplainsExactly(c.reason);
    CorrectionExactly(db.isoCodes, if b in db.bills then db.bills[b].state.header else BLANK_HEADER, c);
    if CorrectEffect(db, b, version, c, now).Success? {
      var row := db.bills[b];
      SettleLeaves(db, b, row.(state := row.state.(header := Merged(row.state.header, c))),
                   Event(HeaderCorrected, TrimSpace(c.reason), None, None), now);
    }
  }

  // ---- the lines --------------------------------------------------------------------------------

  /** The pending line with that identifier; a summary line is never touched. */
  predicate PendingLineAt(row: Row, line: Id, k: int) {
    0 <= k < |row.lines| && row.lines[k].id == line && row.lines[k].status == Pending && row.lines[k].kind != Summary
  }

  lemma LinesHaveTheirIds(db: Db, b: Id, i: int, k: int)
    requires Inv(db) && b in db.bills && 0 <= i < |db.bills[b].lines| && 0 <= k < |db.bills[b].lines|
    ensures db.bills[b].lines[i].id == db.bills[b].lines[k].id ==> i == k
  {
    assert i != k ==> LinesApart(db.bills[b].lines[i], db.bills[b].lines[k]);
  }

  lemma PendingLineExactly(db: Db, b: Id, line: Id)
    requires Inv(db) && b in db.bills
    ensures var r := MutableLine(db.bills[b], line);
            && (r.Success? ==> PendingLineAt(db.bills[b], line, r.value))
            && forall k :: PendingLineAt(db.bills[b], line, k) ==> r == Success(k)
  {
    var row := db.bills[b];
    var f := FindLine(row.lines, line);
    hide Inv;
    forall k | PendingLineAt(row, line, k)
      ensures MutableLine(row, line) == Success(k)
    {
      LinesHaveTheirIds(db, b, f, k);
    }
  }

  /** A pending line is set aside with a reason, and nothing else of the bill moves but its payment. */
  lemma IgnoresOnTerms(db: Db, b: Id, version: int, line: Id, reason: string, now: Instant)
    requires Inv(db)
    ensures var e := IgnoreEffect(db, b, version, line, reason, now);
            && (e.Success? <==>
                  && InReviewAt(db, b, version) && Explains(reason, TrimSpace(reason))
                  && exists k :: PendingLineAt(db.bills[b], line, k))
            && forall k :: e.Success? && PendingLineAt(db.bills[b], line, k) ==>
                 && e.value.bill.Some?
                 && var row := db.bills[b];
                    Resettled(db, e.value.db, b,
                              row.(lines := row.lines[k := row.lines[k].(status := Ignored, reason := Some(TrimSpace(reason)))]),
                              Event(LineIgnored, TrimSpace(reason), None, None), e.value.bill.value, now)
  {
    InReviewExactly(db, b, version);
    ExplainsExactly(reason);
    if b in db.bills {
      PendingLineExactly(db, b, line);
    }
    hide Inv, InReview, BoundedReason, Explains, Settle, TrimSpace, Resettled, MutableLine, PendingLineAt;
    if IgnoreEffect(db, b, version, line, reason, now).Success? {
      var row := db.bills[b];
      var k := MutableLine(row, line).value;
      assert PendingLineAt(row, line, k);
      IndexInRange(row, line, k);
      SettleLeaves(db, b, row.(lines := row.lines[k := row.lines[k].(status := Ignored, reason := Some(TrimSpace(reason)))]),
                   Event(LineIgnored, TrimSpace(reason), None, None), now);
    }
  }

  lemma IndexInRange(row: Row, line: Id, k: int)
    requires PendingLineAt(row, line, k)
    ensures 0 <= k < |row.lines|
  {
  }

  predicate SameUtcDay(a: Instant, b: Instant) { a / 86_400_000_000 == b / 86_400_000_000 }

  /** The days a line's transaction should be of: a payment between statement and due date, the rest within the period. */
  predicate InWindow(h: Header, kind: LineKind, at: Instant) {
    var first := if kind == Payment then h.statementDate else h.periodStart;
    var last := if kind == Payment then h.dueDate else h.periodEnd;
    first.Some? && last.Some? && During(first.value, at, last.value)
  }

  /** The transaction is the Card's side of a transfer of the same money out of a bank account. */
  predicate CameFromABank(db: Db, t: Id)
    requires t in db.txns
  {
    exists l :: l in db.links && db.links[l].credit == t && db.links[l].debit in db.txns &&
      var d := db.txns[db.links[l].debit];
      d.account in db.accounts && db.accounts[d.account].kind == BankAccount && d.currency == db.txns[t].currency &&
      d.amount == db.txns[t].amount
  }

  /** The transaction may stand for the line at all. */
  predicate MayStandFor(db: Db, card: Id, line: Line, t: Id) {
    && t in db.txns && db.txns[t].account == card && card in db.accounts && db.accounts[card].kind == CreditCard
    && (db.txns[t].direction == Credit <==> line.kind == Refund || line.kind == Payment)
    && (line.kind == Payment ==> CameFromABank(db, t))
  }

  predicate MatchesExactly(db: Db, h: Header, line: Line, t: Id)
    requires t in db.txns
  {
    && db.txns[t].amount == line.amount && db.txns[t].currency == line.currency && SameUtcDay(db.txns[t].at, line.at)
    && InWindow(h, line.kind, db.txns[t].at)
  }

  /** An exact match is linked without a word, any other only with a reason, which is kept. */
  predicate LinksOnTerms(db: Db, card: Id, h: Header, line: Line, t: Id, exception: Option<string>) {
    && MayStandFor(db, card, line, t)
    && if MatchesExactly(db, h, line, t) then exception == None
       else exception.Some? && Explains(exception.value, TrimSpace(exception.value))
  }

  lemma WindowExactly(h: Header, kind: LineKind, at: Instant)
    ensures InLineWindow(h, kind, DayOf(at)) <==> InWindow(h, kind, at)
  {
    var first := if kind == Payment then h.statementDate else h.periodStart;
    var last := if kind == Payment then h.dueDate else h.periodEnd;
    if first.Some? && last.Some? {
      DaysAreMicroseconds(first.value, at, last.value);
    }
    hide During, DayOf;
  }

  lemma LoadedTransferExactly(db: Db, t: Id)
    requires LinksOk(db) && LoadTransaction(db, t).Success?
    ensures t in db.txns && (QualifyingPayment(db.txns[t].account, LoadTransaction(db, t).value) <==> CameFromABank(db, t))
  {
    var links := LinksOf(db, t);
    if l :| l in db.links && db.links[l].credit == t {
      assert l in links;
      SharedLeg(db, l, Least(links), t);
    }
    if links != {} {
      assert Joined(db, db.links[Least(links)]);
    }
  }

  lemma LinkExactly(db: Db, card: Id, h: Header, line: Line, t: Id, exception: Option<string>)
    requires LinksOk(db)
    ensures LoadTransaction(db, t).Success? && CheckLink(card, h, line, LoadTransaction(db, t).value, exception).Success? <==>
            LinksOnTerms(db, card, h, line, t, exception)
    ensures LinksOnTerms(db, card, h, line, t, exception) ==>
              CheckLink(card, h, line, LoadTransaction(db, t).value, exception).value ==
              if exception.Some? then Some(TrimSpace(exception.value)) else None
  {
    if LoadTransaction(db, t).Success? {
      LoadedTransferExactly(db, t);
      LoadedAsStored(db, t);
      WindowExactly(h, line.kind, db.txns[t].at);
      if exception.Some? {
        ExplainsExactly(exception.value);
      }
      hide LinksOk, LoadTransaction, InLineWindow, InWindow, QualifyingPayment, CameFromABank, BoundedReason, Explains, TrimSpace;
    }
  }

  lemma LoadedAsStored(db: Db, t: Id)
    requires LoadTransaction(db, t).Success?
    ensures t in db.txns && db.txns[t].account in db.accounts
    ensures var x, y := LoadTransaction(db, t).value, db.txns[t];
            && x.account == y.account && x.accountType == db.accounts[y.account].kind && x.direction == y.direction
            && x.currency == y.currency && x.amount == y.amount && x.at == y.at
  {
  }

  /** No line of any bill, but perhaps the one at hand, has the transaction. */
  predicate LineFree(db: Db, t: Id, line: Id) {
    forall b, i :: b in db.bills && 0 <= i < |db.bills[b].lines| && db.bills[b].lines[i].id != line ==>
      db.bills[b].lines[i].txn != Some(t)
  }

  /** A pending line gets a transaction nobody's line has, on the terms of a link; the reason for a difference is kept. */
  lemma AttachesOnTerms(db: Db, b: Id, version: int, line: Id, t: Id, exception: Option<string>, now: Instant)
    requires Inv(db)
    ensures var e := AttachEffect(db, b, version, line, t, exception, now);
            && (e.Success? <==>
                  && InReviewAt(db, b, version) && LineFree(db, t, line)
                  && exists k :: PendingLineAt(db.bills[b], line, k) &&
                       LinksOnTerms(db, db.bills[b].origin.account, db.bills[b].state.header, db.bills[b].lines[k], t, exception))
            && forall k :: e.Success? && PendingLineAt(db.bills[b], line, k) ==>
                 && e.value.bill.Some?
                 && var row := db.bills[b];
                    var why := if exception.Some? then Some(TrimSpace(exception.value)) else None;
                    Resettled(db, e.value.db, b,
                              row.(lines := row.lines[k := row.lines[k].(status := Linked, txn := Some(t), exception := why)]),
                              Event(LineLinked, "", None, None), e.value.bill.value, now)
  {
    hide Settle, TrimSpace, Resettled, CheckLink, LinksOnTerms, LoadTransaction, LineOk, RowOk;
    InReviewExactly(db, b, version);
    if b in db.bills {
      PendingLineExactly(db, b, line);
      var row := db.bills[b];
      var found := MutableLine(row, line);
      hide Inv, InReview, MutableLine, PendingLineAt;
      if found.Success? {
        var k := found.value;
        assert PendingLineAt(row, line, k);
        IndexInRange(row, line, k);
        GoodLinks(db);
        LinkExactly(db, row.origin.account, row.state.header, row.lines[k], t, exception);
        if AttachEffect(db, b, version, line, t, exception, now).Success? {
          var why := if exception.Some? then Some(TrimSpace(exception.value)) else None;
          SettleLeaves(db, b, row.(lines := row.lines[k := row.lines[k].(status := Linked, txn := Some(t), exception := why)]),
                       Event(LineLinked, "", None, None), now);
        }
      }
    }
  }


  // ---- a line's own transaction ---------------------------------------------------------------------

  /** The last candidate of that identifier. */
  predicate LastCandidate(output: seq<BulkCandidate>, id: Id, p: int) {
    && 0 <= p < |output| && output[p].id == id
    && forall q :: p < q < |output| ==> output[q].id != id
  }

  lemma {:induction false} FindsLast(output: seq<BulkCandidate>, id: Id)
    ensures var f := FindCandidate(output, id);
            (f >= 0 ==> LastCandidate(output, id, f)) && forall p :: LastCandidate(output, id, p) ==> p == f
  {
    if output != [] && output[|output| - 1].id != id {
      var n := |output| - 1;
      FindsLast(output[..n], id);
      forall p | LastCandidate(output, id, p)
        ensures LastCandidate(output[..n], id, p)
      {
      }
    }
  }

  /** The new ledger row on the Card, at noon of the candidate's day: money in for a refund, out for the rest. */
  function EntryFor(row: Row, c: BulkCandidate): Txn {
    Txn(account := row.origin.account, direction := if c.kind == Refund then Credit else Debit, currency := c.currency,
        amount := c.amount, at := c.on * 86_400_000_000 + 43_200_000_000, confirmed := true, evidenceFor := {})
  }

  /** The tables once the row is made and its candidate marked. */
  function WithEntry(db: Db, row: Row, p: int): Db
    requires (row.origin.document, row.origin.generation) in db.outputs
    requires 0 <= p < |db.outputs[(row.origin.document, row.origin.generation)]|
  {
    var at, t := (row.origin.document, row.origin.generation), db.next;
    var c := db.outputs[at][p];
    db.(txns := db.txns[t := EntryFor(row, c)], next := t + 1,
        outputs := db.outputs[at := db.outputs[at][p := c.(status := Created, txn := Some(t))]])
  }

  /** What making the row needs, the match with the line aside. */
  predicate Makeable(db: Db, row: Row, line: Line, category: Id, p: int) {
    && (line.kind == Activity || line.kind == Refund || line.kind == Fee || line.kind == Interest)
    && category in db.categories && line.candidate.Some? && (row.origin.document, row.origin.generation) in db.outputs
    && var output, card := db.outputs[(row.origin.document, row.origin.generation)], row.origin.account;
       && LastCandidate(output, line.candidate.value, p)
       && card in db.accounts && !db.accounts[card].deleted
       && var c := output[p];
          c.status == ReviewRequired && c.kind == line.kind && c.index >= 1 && c.amount > 0 && c.txn == None
  }

  lemma MakesExactly(db: Db, row: Row, line: Line, category: Id)
    ensures var r := CreateFromCandidate(db, row, line, category);
            && (r.Success? ==> exists p :: Makeable(db, row, line, category, p))
            && forall p :: Makeable(db, row, line, category, p) ==> r == Success(WithEntry(db, row, p))
  {
    if line.candidate.Some? {
      var output := OutputOf(db, row.origin.document, row.origin.generation);
      var f := FindCandidate(output, line.candidate.value);
      FindsLast(output, line.candidate.value);
      hide LastCandidate, FindCandidate;
      if CreateFromCandidate(db, row, line, category).Success? {
        assert Makeable(db, row, line, category, f);
      }
      forall p | Makeable(db, row, line, category, p)
        ensures CreateFromCandidate(db, row, line, category) == Success(WithEntry(db, row, p))
      {
        assert p == f;
      }
    }
  }

  /** The row the candidate becomes is an exact match of the line. */
  predicate SaysTheSame(db: Db, row: Row, line: Line, c: BulkCandidate) {
    var noon := c.on * 86_400_000_000 + 43_200_000_000;
    && row.origin.account in db.accounts && db.accounts[row.origin.account].kind == CreditCard
    && c.amount == line.amount && c.currency == line.currency && SameUtcDay(noon, line.at)
    && InWindow(row.state.header, line.kind, noon)
  }

  predicate Creatable(db: Db, row: Row, line: Line, category: Id, p: int) {
    && category != 0 && Makeable(db, row, line, category, p)
    && SaysTheSame(db, row, line, db.outputs[(row.origin.document, row.origin.generation)][p])
  }

  lemma EntryMatchesLine(db: Db, row: Row, line: Line, category: Id, p: int)
    requires Makeable(db, row, line, category, p)
    ensures LinksOnTerms(WithEntry(db, row, p), row.origin.account, row.state.header, line, db.next, None) <==>
            SaysTheSame(db, row, line, db.outputs[(row.origin.document, row.origin.generation)][p])
  {
    hide LastCandidate, InWindow;
  }

  lemma CreatesLineExactly(db: Db, b: Id, version: int, line: Id, category: Id, now: Instant, k: int, p: int)
    requires Inv(db) && InReviewAt(db, b, version) && PendingLineAt(db.bills[b], line, k)
    requires Makeable(db, db.bills[b], db.bills[b].lines[k], category, p)
    ensures var row, e := db.bills[b], CreateLineEffect(db, b, version, line, category, now);
            && (e.Success? <==> Creatable(db, row, row.lines[k], category, p))
            && (e.Success? ==>
                  e.value == Settle(WithEntry(db, row, p), b,
                                    row.(lines := row.lines[k := row.lines[k].(status := Linked, txn := Some(db.next))]),
                                    Event(LineTransactionCreated, "", None, None), now))
  {
    hide Settle, CheckLink, LinksOnTerms, LoadTransaction, SaysTheSame, CreateFromCandidate, LineOk, RowOk;
    InReviewExactly(db, b, version);
    PendingLineExactly(db, b, line);
    var row := db.bills[b];
    MakesExactly(db, row, row.lines[k], category);
    EntryMatchesLine(db, row, row.lines[k], category, p);
    CreatedTransactionIsNew(db, row, row.lines[k], category);
    GoodLinks(WithEntry(db, row, p));
    LinkExactly(WithEntry(db, row, p), row.origin.account, row.state.header, row.lines[k], db.next, None);
    hide Inv, InReview, MutableLine;
    assert row.lines[k].(status := Linked, txn := Some(db.next)) == LinkedLine(row.lines[k], db.next, row.lines[k].exception);
  }

  predicate CreatesAt(db: Db, b: Id, version: int, line: Id, category: Id, k: int, p: int) {
    && InReviewAt(db, b, version) && PendingLineAt(db.bills[b], line, k)
    && Creatable(db, db.bills[b], db.bills[b].lines[k], category, p)
  }

  lemma CreatedAt(db: Db, b: Id, version: int, line: Id, category: Id, now: Instant) returns (k: int, p: int)
    requires Inv(db) && CreateLineEffect(db, b, version, line, category, now).Success?
    ensures CreatesAt(db, b, version, line, category, k, p)
  {
    hide Settle, CheckLink, LoadTransaction, SaysTheSame, CreateFromCandidate, Inv, InReview, MutableLine, LastCandidate;
    InReviewExactly(db, b, version);
    PendingLineExactly(db, b, line);
    var row := db.bills[b];
    k := MutableLine(row, line).value;
    MakesExactly(db, row, row.lines[k], category);
    p :| Makeable(db, row, row.lines[k], category, p);
    CreatesLineExactly(db, b, version, line, category, now, k, p);
  }

  /**
   * A pending line gets a transaction of its own iff the candidate it came from awaits review, has none yet and says
   * what the line says.
   */
  lemma CreatesLineExactlyWhen(db: Db, b: Id, version: int, line: Id, category: Id, now: Instant)
    requires Inv(db)
    ensures CreateLineEffect(db, b, version, line, category, now).Success? <==>
            exists k, p :: CreatesAt(db, b, version, line, category, k, p)
  {
    if CreateLineEffect(db, b, version, line, category, now).Success? {
      var k, p := CreatedAt(db, b, version, line, category, now);
    }
    if k, p :| CreatesAt(db, b, version, line, category, k, p) {
      CreatesLineExactly(db, b, version, line, category, now, k, p);
    }
    hide CreateLineEffect, Inv, Settle;
  }

  /** The new row, the candidate's mark, the link and the search for the payment are one step. */
  lemma CreateLineLeaves(db: Db, b: Id, version: int, line: Id, category: Id, now: Instant, k: int, p: int)
    requires Inv(db) && CreatesAt(db, b, version, line, category, k, p)
    ensures var e, row := CreateLineEffect(db, b, version, line, category, now), db.bills[b];
            && e.Success? && e.value.bill.Some?
            && Resettled(WithEntry(db, row, p), e.value.db, b,
                         row.(lines := row.lines[k := row.lines[k].(status := Linked, txn := Some(db.next))]),
                         Event(LineTransactionCreated, "", None, None), e.value.bill.value, now)
  {
    InReviewExactly(db, b, version);
    CreatesLineExactly(db, b, version, line, category, now, k, p);
    hide CreateLineEffect, Inv, InReview, Settle, Resettled, SaysTheSame, LastCandidate;
    var row := db.bills[b];
    SettleLeaves(WithEntry(db, row, p), b, row.(lines := row.lines[k := row.lines[k].(status := Linked, txn := Some(db.next))]),
                 Event(LineTransactionCreated, "", None, None), now);
  }
}
