/**
 * What payment detection and projection mean, in terms of the stored rows alone. Nothing here refers to the
 * predicates the service itself searches with; days and minutes are counted in microseconds.
 */
module BillTerms {
  import opened Prelude
  import opened Text
  import opened BillModel
  import opened BillSpec
  import opened BillInvariant
  import opened BillPreservation
  import opened BillLater
  import opened BillRuns

  // ---- the terms of a bill -------------------------------------------------------------------

  /** From the first instant of one UTC day to the last of another. */
  predicate During(first: Day, at: Instant, last: Day) {
    first * 86_400_000_000 <= at < (last + 1) * 86_400_000_000
  }

  predicate FullHeader(h: Header) {
    && h.periodStart.Some? && h.periodEnd.Some? && h.statementDate.Some?
    && h.dueDate.Some? && h.currency.Some? && h.amount.Some?
  }

  /** Nothing stands in the way of looking for the payment. */
  predicate Settleable(codes: set<string>, row: Row) {
    && row.origin.unresolved == 0
    && (forall i :: 0 <= i < |row.lines| ==> row.lines[i].status == Linked || row.lines[i].status == Ignored)
    && FullHeader(row.state.header)
    && var h := row.state.header;
       && h.periodStart.value <= h.periodEnd.value && h.statementDate.value <= h.dueDate.value
       && h.amount.value > 0 && h.currency.value == Upper(h.currency.value)
       && TrimSpace(h.currency.value) in codes && TrimSpace(h.currency.value) == Upper(TrimSpace(h.currency.value))
  }

  /** A transfer of exactly the amount due, from a live bank account to the Card, between statement and due date. */
  predicate PaysOnTerms(db: Db, l: Link, card: Id, h: Header)
    requires FullHeader(h)
  {
    && l.debit in db.txns && l.credit in db.txns
    && var d, c := db.txns[l.debit], db.txns[l.credit];
       && d.account in db.accounts && c.account in db.accounts
       && db.accounts[d.account] == Account(BankAccount, false) && c.account == card
       && d.direction == Debit && c.direction == Credit
       && d.currency == h.currency.value == c.currency && d.amount == h.amount.value == c.amount
       && During(h.statementDate.value, d.at, h.dueDate.value) && During(h.statementDate.value, c.at, h.dueDate.value)
       && -600_000_000 <= c.at - d.at <= 600_000_000
  }

  /** A confirmed debit of exactly the amount due, in no transfer, that speaks of the Card. */
  predicate DebitOnTerms(db: Db, t: Id, card: Id, h: Header)
    requires FullHeader(h)
  {
    && t in db.txns && db.txns[t].account in db.accounts
    && var d := db.txns[t];
       && db.accounts[d.account] == Account(BankAccount, false) && d.direction == Debit && d.confirmed
       && d.currency == h.currency.value && d.amount == h.amount.value
       && During(h.statementDate.value, d.at, h.dueDate.value) && card in d.evidenceFor
       && forall l :: l in db.links ==> db.links[l].debit != t && db.links[l].credit != t
  }

  predicate PaysAnother(db: Db, b: Id, l: Id) {
    exists x :: x in db.bills && x != b && db.bills[x].state.payoff == Some(l)
  }

  function PayoffsFor(db: Db, b: Id): set<Id>
    requires b in db.bills && FullHeader(db.bills[b].state.header)
  {
    var row := db.bills[b];
    set l | l in db.links && PaysOnTerms(db, db.links[l], row.origin.account, row.state.header) && !PaysAnother(db, b, l)
  }

  function DebitsFor(db: Db, b: Id): set<Id>
    requires b in db.bills && FullHeader(db.bills[b].state.header)
  {
    var row := db.bills[b];
    set t | t in db.txns && DebitOnTerms(db, t, row.origin.account, row.state.header)
  }

  predicate Chose(answer: Bill, suggestion: Option<Id>, ambiguous: set<Id>) {
    answer.suggestion == suggestion && !answer.selected && answer.ambiguous == ambiguous
  }

  /** The committed bill and the answer, once the payment has been looked for. */
  predicate PaymentDecided(db: Db, b: Id, answer: Bill, now: Instant)
    requires b in db.bills
  {
    var row := db.bills[b];
    && (row.state.status != Paid ==> row.state.payoff == None && row.state.paidAt == None)
    && if !Settleable(db.isoCodes, row) then row.state.status == Review && Chose(answer, None, {})
       else
         var payoffs, debits := PayoffsFor(db, b), DebitsFor(db, b);
         if |payoffs| == 1 then
           && row.state.status == Paid && row.state.payoff.Some? && payoffs == {row.state.payoff.value}
           && row.state.paidAt == Some(now) && Chose(answer, None, {})
         else if |payoffs| > 1 then row.state.status == Review && Chose(answer, None, {})
         else if debits == {} then row.state.status == Unpaid && Chose(answer, None, {})
         else if |debits| == 1 then
           row.state.status == Unpaid && answer.suggestion.Some? && debits == {answer.suggestion.value} &&
           Chose(answer, answer.suggestion, {})
         else row.state.status == Review && Chose(answer, None, debits)
  }

  // ---- the search finds exactly that ------------------------------------------------------------

  lemma DaysAreMicroseconds(first: Day, at: Instant, last: Day)
    ensures Within(Some(first), DayOf(at), Some(last)) <==> During(first, at, last)
  {
  }

  lemma TransferTerms(db: Db, l: Link, card: Id, h: Header)
    requires FullHeader(h)
    ensures Complete(h) && (ExactTransfer(db, l, card, h) <==> PaysOnTerms(db, l, card, h))
  {
    if Joined(db, l) {
      DaysAreMicroseconds(h.statementDate.value, db.txns[l.debit].at, h.dueDate.value);
      DaysAreMicroseconds(h.statementDate.value, db.txns[l.credit].at, h.dueDate.value);
    }
    hide During, Within;
  }

  lemma DebitTerms(db: Db, t: Id, card: Id, h: Header)
    requires FullHeader(h)
    ensures Complete(h) && (ExactDebit(db, t, card, h) <==> DebitOnTerms(db, t, card, h))
  {
    if t in db.txns {
      DaysAreMicroseconds(h.statementDate.value, db.txns[t].at, h.dueDate.value);
      if LinksOf(db, t) == {} {
        assert forall l :: l in db.links ==> l !in LinksOf(db, t);
      }
    }
    hide During, Within;
  }

  lemma SettleableIsReady(codes: set<string>, row: Row)
    ensures Settleable(codes, row) <==> Ready(codes, row)
  {
  }

  /** The tables a search reads, and who is paid by what. */
  predicate SameSearch(db: Db, after: Db, b: Id) {
    && after.txns == db.txns && after.accounts == db.accounts && after.links == db.links && after.isoCodes == db.isoCodes
    && b in after.bills && (b in db.bills ==> db.bills[b].state.payoff == None)
    && after.bills - {b} == db.bills - {b}
  }

  lemma OthersSame(db: Db, after: Db, b: Id, x: Id)
    requires after.bills - {b} == db.bills - {b} && x != b
    ensures (x in after.bills <==> x in db.bills) && (x in db.bills ==> after.bills[x] == db.bills[x])
  {
    assert x in db.bills <==> x in db.bills - {b};
    assert x in after.bills <==> x in after.bills - {b};
    assert x in db.bills ==> (db.bills - {b})[x] == (after.bills - {b})[x];
  }

  lemma SettlesOrPaysAnother(db: Db, after: Db, b: Id, l: Id)
    requires SameSearch(db, after, b)
    ensures Settles(db, l) <==> PaysAnother(after, b, l)
  {
    forall x | x != b
      ensures (x in after.bills <==> x in db.bills) && (x in db.bills ==> after.bills[x] == db.bills[x])
    {
      OthersSame(db, after, b, x);
    }
  }

  lemma SearchedTransfers(db: Db, after: Db, b: Id)
    requires SameSearch(db, after, b) && FullHeader(after.bills[b].state.header)
    ensures var row := after.bills[b];
            Complete(row.state.header) &&
            ExactPayoffTransfers(db, row.origin.account, row.state.header) == PayoffsFor(after, b)
  {
    var card, h := after.bills[b].origin.account, after.bills[b].state.header;
    forall l | l in db.links
      ensures ExactTransfer(db, db.links[l], card, h) <==> PaysOnTerms(after, after.links[l], card, h)
      ensures Settles(db, l) <==> PaysAnother(after, b, l)
    {
      TransferTerms(db, db.links[l], card, h);
      SettlesOrPaysAnother(db, after, b, l);
    }
    hide ExactTransfer, PaysOnTerms, Settles, PaysAnother;
  }

  lemma SearchedDebits(db: Db, after: Db, b: Id)
    requires SameSearch(db, after, b) && FullHeader(after.bills[b].state.header)
    ensures var row := after.bills[b];
            Complete(row.state.header) &&
            BankDebitCandidates(db, row.origin.account, row.state.header) == DebitsFor(after, b)
  {
    var card, h := after.bills[b].origin.account, after.bills[b].state.header;
    forall t | t in db.txns
      ensures ExactDebit(db, t, card, h) <==> DebitOnTerms(after, t, card, h)
    {
      DebitTerms(db, t, card, h);
    }
    hide ExactDebit, DebitOnTerms;
  }

  lemma SettleSearches(db: Db, id: Id, row: Row, event: Event, now: Instant)
    requires id in db.bills ==> db.bills[id].state.payoff == None
    ensures var after := Settle(db, id, row, event, now).db;
            && SameSearch(db, after, id)
            && var saved := after.bills[id];
               && saved.origin == row.origin && saved.lines == row.lines && saved.state.header == row.state.header
               && saved.state.status == ResolvedState(row.state, Resolve(db, row), now).status
               && saved.state.payoff == ResolvedState(row.state, Resolve(db, row), now).payoff
               && saved.state.paidAt == ResolvedState(row.state, Resolve(db, row), now).paidAt
  {
    ResolutionIsSavable(db, row);
    hide Resolve, Synced, LockedTreatments;
    var after := Settle(db, id, row, event, now).db;
    assert after.bills - {id} == db.bills - {id};
  }

  lemma ResolvesByTheSets(db: Db, row: Row, payoffs: set<Id>, debits: set<Id>)
    requires Ready(db.isoCodes, row)
    requires payoffs == ExactPayoffTransfers(db, row.origin.account, row.state.header)
    requires debits == BankDebitCandidates(db, row.origin.account, row.state.header)
    ensures var res := Resolve(db, row);
            if |payoffs| == 1 then res.AutoPaid? && payoffs == {res.link}
            else if |payoffs| > 1 then res.ManyTransfers?
            else if debits == {} then res == NoDebit
            else if |debits| == 1 then res.OneDebit? && debits == {res.debit}
            else res == ManyDebits(debits)
  {
    hide Ready, ExactPayoffTransfers, BankDebitCandidates;
    SingletonOf(payoffs);
    SingletonOf(debits);
  }

  /** The shared tail of the Review operations decides the payment as written above. */
  lemma SettleDecides(db: Db, id: Id, row: Row, event: Event, now: Instant)
    requires id in db.bills ==> db.bills[id].state.payoff == None
    ensures var e := Settle(db, id, row, event, now);
            e.bill.Some? && id in e.db.bills && PaymentDecided(e.db, id, e.bill.value, now)
  {
    hide Synced, LockedTreatments, Ready, Settleable, SameSearch, ExactPayoffTransfers, BankDebitCandidates, PayoffsFor,
      DebitsFor, SettledRow, ResolvedTreatments;
    var e, res := Settle(db, id, row, event, now), Resolve(db, row);
    SettleSearches(db, id, row, event, now);
    var saved := e.db.bills[id];
    IsoUnmoved(db, e.db, id);
    SettleableIsReady(db.isoCodes, saved);
    SameReadiness(db.isoCodes, row, saved);
    if Ready(db.isoCodes, row) {
      FullWhenSettleable(db.isoCodes, saved);
      SearchedTransfers(db, e.db, id);
      SearchedDebits(db, e.db, id);
      ResolvesByTheSets(db, row, PayoffsFor(e.db, id), DebitsFor(e.db, id));
    }
  }

  lemma IsoUnmoved(db: Db, after: Db, b: Id)
    requires SameSearch(db, after, b)
    ensures after.isoCodes == db.isoCodes
  {
  }

  lemma FullWhenSettleable(codes: set<string>, row: Row)
    requires Settleable(codes, row)
    ensures FullHeader(row.state.header)
  {
  }

  lemma SingletonOf(s: set<Id>)
    ensures |s| == 1 ==> s == {Least(s)}
  {
    if |s| == 1 {
      Singleton(s, Least(s));
    }
  }

  // ---- every request that looks for a payment ------------------------------------------------------

  predicate LooksForPayment(cmd: Command) {
    cmd.CorrectHeader? || cmd.AttachLine? || cmd.IgnoreLine? || cmd.CreateLine?
  }

  predicate Decides(e: Effect, b: Id, now: Instant) {
    e.bill.Some? && b in e.db.bills && PaymentDecided(e.db, b, e.bill.value, now)
  }

  lemma ReviewIsUnpaid(db: Db, id: Id, v: int)
    requires Inv(db) && InReview(db, id, v).Success?
    ensures id in db.bills && InReview(db, id, v).value == db.bills[id] && db.bills[id].state.payoff == None
  {
    assert RowOk(db, db.bills[id]);
  }

  lemma RequestDecides(db: Db, cmd: Command, now: Instant)
    requires Inv(db) && LooksForPayment(cmd) && EffectOf(db, cmd, now).Success?
    ensures Decides(EffectOf(db, cmd, now).value, cmd.bill, now)
  {
    hide Inv, Settle, PaymentDecided, CheckLink, LinkedElsewhere, LoadTransaction, CreateFromCandidate;
    ReviewIsUnpaid(db, cmd.bill, cmd.version);
    var row := db.bills[cmd.bill];
    match cmd
    case CorrectHeader(b, v, c) =>
      SettleDecides(db, b, row.(state := row.state.(header := Corrected(row.state.header, c))),
                    Happened(HeaderCorrected, BoundedReason(c.reason).value), now);
    case AttachLine(b, v, l, t, x) =>
      var k := MutableLine(row, l).value;
      var why := CheckLink(row.origin.account, row.state.header, row.lines[k], LoadTransaction(db, t).value, x).value;
      SettleDecides(db, b, row.(lines := row.lines[k := LinkedLine(row.lines[k], t, why)]), Happened(LineLinked, ""), now);
    case IgnoreLine(b, v, l, r) =>
      var k, why := MutableLine(row, l).value, BoundedReason(r).value;
      SettleDecides(db, b, row.(lines := row.lines[k := row.lines[k].(status := Ignored, reason := Some(why))]),
                    Happened(LineIgnored, why), now);
    case CreateLine(b, v, l, c, _) =>
      var k := MutableLine(row, l).value;
      var made := CreateFromCandidate(db, row, row.lines[k], c).value;
      CandidateLeavesBills(db, row, row.lines[k], c);
      var linked := row.(lines := row.lines[k := LinkedLine(row.lines[k], db.next, row.lines[k].exception)]);
      SettleDecides(made, b, linked, Happened(LineTransactionCreated, ""), now);
  }

  lemma CandidateLeavesBills(db: Db, row: Row, line: Line, category: Id)
    requires CreateFromCandidate(db, row, line, category).Success?
    ensures CreateFromCandidate(db, row, line, category).value.bills == db.bills
  {
  }

  lemma RecordsDoNotDecide(e: Effect, records: map<Slot, Record>, b: Id, now: Instant)
    requires Decides(e, b, now)
    ensures Decides(Effect(e.db.(records := records), e.bill), b, now)
  {
    var after := e.db.(records := records);
    assert forall l :: PaysAnother(after, b, l) == PaysAnother(e.db, b, l);
    if FullHeader(e.db.bills[b].state.header) {
      assert PayoffsFor(after, b) == PayoffsFor(e.db, b);
      assert DebitsFor(after, b) == DebitsFor(e.db, b);
    }
  }

  /**
   * At every step of a run where a request on a Review bill is done, the committed bill is Paid exactly when one
   * transfer on its terms pays no other bill, and otherwise Unpaid or in Review as the debits on its terms decide.
   */
  lemma EveryReviewRequestDecides(db: Db, rs: seq<Request>, i: nat)
    requires Initial(db) && i < |rs| && LooksForPayment(rs[i].cmd)
    requires Exec(Before(db, rs, i), rs[i].cmd, rs[i].now).1.Done?
    ensures var reply := Exec(Before(db, rs, i), rs[i].cmd, rs[i].now).1;
            Decides(Effect(Before(db, rs, i + 1), reply.bill), rs[i].cmd.bill, rs[i].now)
  {
    hide Inv, EffectOf, Decides, Initial;
    var before, cmd, now := Before(db, rs, i), rs[i].cmd, rs[i].now;
    PrefixStep(db, rs, i);
    GoodBefore(db, rs, i);
    RequestDecides(before, cmd, now);
    RecordsDoNotDecide(EffectOf(before, cmd, now).value, Before(db, rs, i + 1).records, cmd.bill, now);
  }

  /** In particular, a transfer found for a bill lies between its statement and due date, its legs ten minutes apart at most. */
  lemma DetectedTransferIsTimely(db: Db, b: Id, answer: Bill, now: Instant)
    requires b in db.bills && PaymentDecided(db, b, answer, now) && db.bills[b].state.status == Paid
    ensures var payoff, h := db.bills[b].state.payoff, db.bills[b].state.header;
            && payoff.Some? && payoff.value in db.links && h.statementDate.Some? && h.dueDate.Some?
            && var l := db.links[payoff.value];
               && l.debit in db.txns && l.credit in db.txns
               && h.statementDate.value * 86_400_000_000 <= db.txns[l.debit].at < (h.dueDate.value + 1) * 86_400_000_000
               && h.statementDate.value * 86_400_000_000 <= db.txns[l.credit].at < (h.dueDate.value + 1) * 86_400_000_000
               && -600_000_000 <= db.txns[l.credit].at - db.txns[l.debit].at <= 600_000_000
  {
    FullWhenSettleable(db.isoCodes, db.bills[b]);
    assert db.bills[b].state.payoff.value in PayoffsFor(db, b);
  }

  // ---- projection --------------------------------------------------------------------------------------

  /** Something of the document's generation failed: a chunk, or a candidate. */
  predicate Failing(db: Db, document: Id, generation: int) {
    || (document in db.documents && db.documents[document].failedChunks > 0)
    || ((document, generation) in db.outputs &&
        exists k :: 0 <= k < |db.outputs[(document, generation)]| && db.outputs[(document, generation)][k].status == Failed)
  }

  lemma {:induction false} FailedAreCounted(cs: seq<BulkCandidate>)
    ensures CountFailed(cs) > 0 <==> exists k :: 0 <= k < |cs| && cs[k].status == Failed
  {
    if cs != [] {
      var n := |cs| - 1;
      FailedAreCounted(cs[..n]);
      if k :| 0 <= k < |cs| && cs[k].status == Failed {
        assert k < n ==> cs[..n][k].status == Failed;
      }
      if cs[n].status == Failed {
        assert cs[n].status == Failed;
      }
    }
  }

  lemma UnresolvedMeansFailing(db: Db, document: Id, generation: int)
    requires document in db.documents
    ensures ProjectedRow(db, document, generation).origin.unresolved > 0 <==> Failing(db, document, generation)
  {
    FailedAreCounted(OutputOf(db, document, generation));
  }

  /** Where the lines of a new bill come from: exactly the included candidates, in order. */
  predicate LinesOf(output: seq<BulkCandidate>, at: seq<nat>, lines: seq<Line>) {
    && KeptAt(output, at) && |at| == |lines| && forall k :: 0 <= k < |at| ==> LineFrom(output[at[k]], lines[k])
  }

  /** A line says what its candidate says, at noon of its day; it is linked when the candidate has a transaction of its own. */
  predicate LineFrom(c: BulkCandidate, line: Line) {
    && line.candidate == Some(c.id) && line.index == c.index && line.kind == c.kind && line.amount == c.amount
    && line.currency == c.currency && line.on == c.on && line.at == c.on * 86_400_000_000 + 43_200_000_000
    && line.description == TrimSpace(c.title) && line.reason == None && line.exception == None
    && (if c.txn.Some? && (c.status == Created || c.status == Attached)
        then line.status == Linked && line.txn == c.txn
        else line.status == Pending && line.txn == None)
  }

  predicate Kept(c: BulkCandidate) { c.status == Created || c.status == Attached || c.status == ReviewRequired }

  /** The positions of the kept candidates, in order. */
  predicate KeptAt(output: seq<BulkCandidate>, at: seq<nat>) {
    && (forall k, l :: 0 <= k < l < |at| ==> at[k] < at[l])
    && (forall k :: 0 <= k < |at| ==> at[k] < |output|)
    && forall p :: 0 <= p < |output| ==> (p in at <==> Kept(output[p]))
  }

  lemma KeptAtExtends(output: seq<BulkCandidate>, before: seq<nat>, at: seq<nat>)
    requires output != [] && KeptAt(output[..|output| - 1], before)
    requires at == if Kept(output[|output| - 1]) then before + [|output| - 1] else before
    ensures KeptAt(output, at)
  {
    var n := |output| - 1;
    forall p | 0 <= p < |output|
      ensures p in at <==> Kept(output[p])
    {
      if p < n {
        assert p in before <==> Kept(output[..n][p]);
        assert p in at <==> p in before;
      } else {
        assert n !in before;
      }
    }
  }

  predicate Picks(output: seq<BulkCandidate>, at: seq<nat>, picked: seq<BulkCandidate>) {
    |at| == |picked| && forall k :: 0 <= k < |at| ==> at[k] < |output| && output[at[k]] == picked[k]
  }

  lemma PicksExtends(output: seq<BulkCandidate>, before: seq<nat>, picked: seq<BulkCandidate>)
    requires output != [] && Picks(output[..|output| - 1], before, picked)
    ensures Picks(output, before, picked)
    ensures Picks(output, before + [|output| - 1], picked + [output[|output| - 1]])
  {
    assert forall p :: 0 <= p < |output| - 1 ==> output[..|output| - 1][p] == output[p];
  }

  lemma {:induction false} IncludedPositions(output: seq<BulkCandidate>) returns (at: seq<nat>)
    ensures KeptAt(output, at) && Picks(output, at, Included(output))
  {
    at := [];
    if output != [] {
      var n := |output| - 1;
      var before := IncludedPositions(output[..n]);
      at := if Kept(output[n]) then before + [n] else before;
      KeptAtExtends(output, before, at);
      PicksExtends(output, before, Included(output[..n]));
      hide KeptAt, Picks;
    }
  }

  /** The lines a projection inserts. */
  lemma ProjectedLines(db: Db, document: Id, generation: int) returns (at: seq<nat>)
    requires document in db.documents
    ensures LinesOf(OutputOf(db, document, generation), at, ProjectedRow(db, document, generation).lines)
  {
    at := IncludedPositions(OutputOf(db, document, generation));
    hide Included;
  }

  /** What a projected bill takes from its document, in the order the code reads it. */
  predicate FromDocument(before: Db, document: Id, generation: int, row: Row) {
    && document in before.documents
    && var d := before.documents[document];
       && d.generation == generation && d.isCardBill && d.accountType == CreditCard
       && d.account in before.accounts && before.accounts[d.account] == Account(CreditCard, false)
       && row.origin.account == d.account && row.origin.document == document && row.origin.generation == generation
       && row.state.header ==
          (if d.summaryRef == None || d.summaryRef == Some(d.accountRef) then d.summaryHeader
           else Header(None, None, None, None, None, None))
       && (row.origin.unresolved > 0 <==> Failing(before, document, generation))
  }

  ghost predicate LinesFromOutput(before: Db, document: Id, generation: int, lines: seq<Line>) {
    if (document, generation) in before.outputs then
      var output := before.outputs[(document, generation)];
      && (forall k :: 0 <= k < |output| ==> output[k].status != PendingReconciliation)
      && exists at: seq<nat> :: LinesOf(output, at, lines)
    else lines == []
  }

  lemma ProjectedFromOutput(db: Db, document: Id, generation: int)
    requires document in db.documents && Projectable(db, document, generation).Success?
    ensures LinesFromOutput(db, document, generation, ProjectedRow(db, document, generation).lines)
  {
    hide Insertable, WellFormedLine, CountFailed;
    var at := ProjectedLines(db, document, generation);
    hide LinesOf;
    assert OutputOf(db, document, generation) == [] ==> Included(OutputOf(db, document, generation)) == [];
  }

  lemma ProjectedFromDocument(db: Db, document: Id, generation: int)
    requires document in db.documents && Projectable(db, document, generation).Success?
    ensures var row := ProjectedRow(db, document, generation);
            && Projectable(db, document, generation).value == row
            && FromDocument(db, document, generation, row) && row.state.version == 1
  {
    hide Insertable, WellFormedLine, Included, NewLines, CountFailed, Failing;
    UnresolvedMeansFailing(db, document, generation);
  }

  lemma NoBillYet(db: Db, document: Id, generation: int, now: Instant)
    requires ProjectEffect(db, document, generation, now).Success?
    requires forall b :: b in db.bills ==> db.bills[b].origin.document != document
    ensures document in db.documents && Projectable(db, document, generation).Success?
    ensures ProjectEffect(db, document, generation, now).value ==
            FirstSettlement(db, Projectable(db, document, generation).value, now)
  {
    hide Projectable, FirstSettlement;
    assert BillsOf(db, document) == {};
  }

  /** A document without a bill gets one, decided like every other; the answer says whether anything failed. */
  lemma ProjectionDecides(db: Db, document: Id, generation: int, now: Instant)
    requires Inv(db) && ProjectEffect(db, document, generation, now).Success?
    requires forall b :: b in db.bills ==> db.bills[b].origin.document != document
    ensures var e := ProjectEffect(db, document, generation, now).value;
            && Decides(e, db.next, now) && e.bill.value.id == db.next
            && FromDocument(db, document, generation, e.db.bills[db.next])
            && LinesFromOutput(db, document, generation, e.db.bills[db.next].lines)
            && e.db.bills[db.next].state.version == 2
            && e.bill.value.failures == Failing(db, document, generation)
            && e.db.bills == db.bills[db.next := e.db.bills[db.next]]
  {
    AllBillsAllocated(db);
    NoBillYet(db, document, generation, now);
    ProjectedFromDocument(db, document, generation);
    ProjectedFromOutput(db, document, generation);
    hide Inv, Projectable, ProjectEffect, ProjectedRow, LinesFromOutput, Failing, Decides, FirstSettlement;
    FirstSettlementDecides(db, ProjectedRow(db, document, generation), now);
  }

  lemma FirstSettlementDecides(db: Db, row: Row, now: Instant)
    requires forall b :: b in db.bills ==> b < db.next
    ensures var e, b := FirstSettlement(db, row, now), db.next;
            && Decides(e, b, now) && e.bill.value.id == b && e.db.bills == db.bills[b := e.db.bills[b]]
            && e.bill.value.failures == (row.origin.unresolved > 0)
            && var made := e.db.bills[b];
               && made.origin == row.origin && made.lines == row.lines && made.state.header == row.state.header
               && made.state.version == row.state.version + 1
  {
    hide Settle, Decides;
    var grown := db.(next := db.next + 1 + |row.lines|);
    var e := Settle(grown, db.next, row, Happened(Imported, ""), now);
    SettledProjection(grown, db.next, row, now);
    DecidedBySettling(grown, db.next, row, Happened(Imported, ""), now);
    FailuresDoNotDecide(e, row.origin.unresolved > 0, db.next, now);
  }

  lemma DecidedBySettling(db: Db, id: Id, row: Row, event: Event, now: Instant)
    requires id in db.bills ==> db.bills[id].state.payoff == None
    ensures Decides(Settle(db, id, row, event, now), id, now)
  {
    SettleDecides(db, id, row, event, now);
    hide Settle, PaymentDecided;
  }

  lemma SettledProjection(db: Db, id: Id, row: Row, now: Instant)
    ensures var e := Settle(db, id, row, Happened(Imported, ""), now);
            && e.db.bills == db.bills[id := e.db.bills[id]] && e.bill.Some? && e.bill.value.id == id
            && e.db.bills[id].origin == row.origin && e.db.bills[id].lines == row.lines
            && e.db.bills[id].state.header == row.state.header && e.db.bills[id].state.version == row.state.version + 1
  {
    ResolutionIsSavable(db, row);
    hide Resolve, Synced, LockedTreatments;
  }

  lemma FailuresDoNotDecide(e: Effect, failures: bool, b: Id, now: Instant)
    requires Decides(e, b, now)
    ensures Decides(e.(bill := Some(e.bill.value.(failures := failures))), b, now)
  {
  }

  lemma ReviewAddsNoBill(db: Db, cmd: Command, now: Instant, b: Id)
    requires LooksForPayment(cmd) && EffectOf(db, cmd, now).Success? && b in EffectOf(db, cmd, now).value.db.bills
    ensures b in db.bills
  {
    hide LoadTransaction, CheckLink, Resolve, SettledRow, LockedTreatments, LinkedElsewhere, FindCandidate, ValidFields,
      MutableLine;
  }

  lemma OnlyProjectionAddsBills(db: Db, cmd: Command, now: Instant, b: Id)
    requires EffectOf(db, cmd, now).Success? && b in EffectOf(db, cmd, now).value.db.bills && b !in db.bills
    ensures cmd.Project?
  {
    if LooksForPayment(cmd) {
      ReviewAddsNoBill(db, cmd, now, b);
    }
    hide ProjectEffect, CorrectEffect, AttachEffect, IgnoreEffect, CreateLineEffect, LoadTransaction, Synced,
      LockedTreatments, ValidDebit, ChosenByAnother, LoadBill, Referenced;
  }

  lemma KnownDocumentAddsNothing(db: Db, document: Id, generation: int, now: Instant)
    requires ProjectEffect(db, document, generation, now).Success?
    requires exists b :: b in db.bills && db.bills[b].origin.document == document
    ensures ProjectEffect(db, document, generation, now).value.db == db
  {
    hide Projectable, LoadBill, FirstSettlement;
    var b :| b in db.bills && db.bills[b].origin.document == document;
    assert b in BillsOf(db, document);
  }

  /** What the step that first stores a bill is, does and answers. */
  ghost predicate FirstStored(before: Db, after: Db, r: Request, reply: Reply, b: Id) {
    && r.cmd.Project? && b == before.next && b in after.bills && reply.Done? && reply.bill.Some? && reply.bill.value.id == b
    && FromDocument(before, r.cmd.document, r.cmd.generation, after.bills[b])
    && LinesFromOutput(before, r.cmd.document, r.cmd.generation, after.bills[b].lines)
    && after.bills[b].state.version == 2 && PaymentDecided(after, b, reply.bill.value, r.now)
    && reply.bill.value.failures == Failing(before, r.cmd.document, r.cmd.generation)
  }

  /** In every run, bills come from projections alone, and say what their documents say. */
  lemma EveryBillIsProjected(db: Db, rs: seq<Request>, i: nat, b: Id)
    requires Initial(db) && i < |rs| && b !in Before(db, rs, i).bills && b in Before(db, rs, i + 1).bills
    ensures FirstStored(Before(db, rs, i), Before(db, rs, i + 1), rs[i], Exec(Before(db, rs, i), rs[i].cmd, rs[i].now).1, b)
  {
    hide Inv, EffectOf, Initial, PaymentDecided, FromDocument, LinesFromOutput, Failing, Run;
    var before, cmd, now := Before(db, rs, i), rs[i].cmd, rs[i].now;
    PrefixStep(db, rs, i);
    GoodBefore(db, rs, i);
    OnlyProjectionAddsBills(before, cmd, now, b);
    ProjectIsUnkeyed(before, cmd, now);
    hide Exec;
    if exists x :: x in before.bills && before.bills[x].origin.document == cmd.document {
      KnownDocumentAddsNothing(before, cmd.document, cmd.generation, now);
    } else {
      ProjectionDecides(before, cmd.document, cmd.generation, now);
    }
  }

  lemma ProjectIsUnkeyed(db: Db, cmd: Command, now: Instant)
    requires cmd.Project?
    ensures var e := ProjectEffect(db, cmd.document, cmd.generation, now);
            Exec(db, cmd, now) == if e.Success? then (e.value.db, Done(e.value.bill)) else (db, Refused(e.error))
  {
    hide ProjectEffect;
  }

  /**
   * A bill projected from a document with a failed chunk, or an output with a failed candidate, says so in its
   * answer and is in Review in every later state in which it exists.
   */
  lemma FailedProjectionNeverSettles(db: Db, rs: seq<Request>, i: nat, j: nat, b: Id)
    requires Initial(db) && i < j <= |rs| && rs[i].cmd.Project?
    requires b !in Before(db, rs, i).bills && b in Before(db, rs, i + 1).bills
    requires Failing(Before(db, rs, i), rs[i].cmd.document, rs[i].cmd.generation)
    ensures b in Before(db, rs, j).bills ==> Before(db, rs, j).bills[b].state.status == Review
    ensures var reply := Exec(Before(db, rs, i), rs[i].cmd, rs[i].now).1;
            reply.Done? && reply.bill.Some? && reply.bill.value.failures
  {
    hide Exec, Initial, Failing, PaymentDecided, LinesFromOutput;
    EveryBillIsProjected(db, rs, i, b);
    UnresolvedNeverSettles(db, rs, i + 1, j, b);
  }
}
