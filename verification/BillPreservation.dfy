/** Every request keeps the invariant: frame lemmas first, then one lemma per kind of request. */
module BillPreservation {
  import opened Prelude
  import opened BillModel
  import opened BillSpec
  import opened BillInvariant

  // ---- frames --------------------------------------------------------------------

  /** The shared ledger moved only in ways that cannot hurt a settled bill. */
  predicate Grows(db: Db, db': Db) {
    && (forall l :: l in db.links ==> l in db'.links && db'.links[l] == db.links[l])
    && (forall t :: t in db.treatments && db.treatments[t].source == System ==>
          t in db'.treatments && db'.treatments[t] == db.treatments[t])
    && db'.isoCodes == db.isoCodes && db.next <= db'.next
  }

  predicate KeepsTransactions(db: Db, db': Db) { forall t :: t in db.txns ==> t in db'.txns }

  lemma RowKept(db: Db, db': Db, row: Row)
    requires Grows(db, db') && RowOk(db, row)
    ensures RowOk(db', row)
  {
  }

  /** A row that may stand under `id`: its lines clash with nobody's and its document is its own. */
  predicate Fits(db: Db, id: Id, row: Row) {
    && id < db.next
    && (forall b :: b in db.bills && b != id ==> db.bills[b].origin.document != row.origin.document)
    && (forall i :: 0 <= i < |row.lines| ==> LineOk(db, row.lines[i]))
    && (forall i, j :: 0 <= i < |row.lines| && 0 <= j < |row.lines| && i != j ==>
          LinesApart(row.lines[i], row.lines[j]))
    && (forall b, i, j :: b in db.bills && b != id && 0 <= i < |row.lines| && 0 <= j < |db.bills[b].lines| ==>
          LinesApart(row.lines[i], db.bills[b].lines[j]))
  }

  lemma StoredRowFits(db: Db, id: Id)
    requires Inv(db) && id in db.bills
    ensures Fits(db, id, db.bills[id])
  {
  }

  lemma ReplaceRow(db: Db, db': Db, id: Id, row: Row)
    requires Inv(db) && Grows(db, db') && KeepsTransactions(db, db')
    requires LinksOk(db') && TreatmentsOk(db'.treatments) && RecordsOk(db'.records)
    requires db'.bills == db.bills[id := row]
    requires Fits(db, id, row) && RowOk(db', row)
    requires row.state.payoff.Some? ==> forall b :: b in db.bills && b != id ==> db.bills[b].state.payoff != row.state.payoff
    ensures Inv(db')
  {
    hide Chain, Ready, ChoiceMatchesStatus, StatusColumns;
    forall b | b in db'.bills
      ensures b < db'.next && RowOk(db', db'.bills[b])
    {
      if b != id { RowKept(db, db', db.bills[b]); }
    }
    LinesReplaced(db, db', id, row);
    assert BillsDistinct(db'.bills);
  }

  lemma LinesReplaced(db: Db, db': Db, id: Id, row: Row)
    requires LinesDistinct(db.bills) && LinesOk(db) && Fits(db, id, row)
    requires db'.bills == db.bills[id := row] && db.next <= db'.next && KeepsTransactions(db, db')
    ensures LinesDistinct(db'.bills) && LinesOk(db')
  {
    forall b, c, i, j | b in db'.bills && c in db'.bills && 0 <= i < |db'.bills[b].lines| &&
                        0 <= j < |db'.bills[c].lines| && (b != c || i != j)
      ensures LinesApart(db'.bills[b].lines[i], db'.bills[c].lines[j])
    {
      if b != id && c == id {
        assert LinesApart(row.lines[j], db.bills[b].lines[i]);
      }
    }
  }

  lemma LedgerStep(db: Db, db': Db)
    requires Inv(db) && Grows(db, db') && db'.bills == db.bills
    requires forall b, i :: b in db.bills && 0 <= i < |db.bills[b].lines| && db.bills[b].lines[i].txn.Some? ==>
               db.bills[b].lines[i].txn.value in db'.txns
    requires LinksOk(db') && TreatmentsOk(db'.treatments) && RecordsOk(db'.records)
    ensures Inv(db')
  {
    forall b | b in db'.bills
      ensures b < db'.next && RowOk(db', db'.bills[b])
    {
      RowKept(db, db', db.bills[b]);
    }
  }

  // ---- treatments -------------------------------------------------------------------

  lemma LockingExcludes(db: Db, legs: Link, now: Instant)
    requires TreatmentsOk(db.treatments)
    ensures var db' := db.(treatments := LockedTreatments(db.treatments, {legs.debit, legs.credit}, now));
            Grows(db, db') && LegsExcluded(db', legs) && TreatmentsOk(db'.treatments)
  {
  }

  // ---- the shared tail of the Review operations -----------------------------------------

  lemma ResolutionIsSavable(db: Db, row: Row)
    ensures var res := Resolve(db, row); Savable(Suggestion(res), false, Ambiguous(res), None)
    ensures var res := Resolve(db, row);
            && (Ready(db.isoCodes, row) <==> !res.Unready?)
            && (res.AutoPaid? ==>
                  res.link in db.links && !Settles(db, res.link) && Ready(db.isoCodes, row) &&
                  ExactTransfer(db, db.links[res.link], row.origin.account, row.state.header))
  {
    if Ready(db.isoCodes, row) {
      var transfers := ExactPayoffTransfers(db, row.origin.account, row.state.header);
      if |transfers| == 1 {
        assert Least(transfers) in transfers;
      }
    }
  }

  lemma SameReadiness(codes: set<string>, row: Row, row': Row)
    requires row'.origin == row.origin && row'.lines == row.lines && row'.state.header == row.state.header
    ensures Ready(codes, row') == Ready(codes, row)
  {
  }

  lemma SettledRowIsSound(codes: set<string>, row: Row, res: Resolution, event: Event, now: Instant)
    requires row.state.status == Review && StatusColumns(row.state) && Chain(row.events, Review, Review)
    requires event.kind != StatusChanged && Savable(Suggestion(res), false, Ambiguous(res), None)
    requires res.Unready? <==> !Ready(codes, row)
    ensures var saved := SettledRow(row, res, event, now);
            && StatusColumns(saved.state) && ChoiceMatchesStatus(saved)
            && (saved.state.status != Review || Open(saved.candidates) != {} ==> Ready(codes, saved))
            && Chain(saved.events, Review, saved.state.status)
  {
    hide Ready, Synced, Chain;
    var saved := SettledRow(row, res, event, now);
    OpenAfterSync(row.candidates, Suggestion(res), false, Ambiguous(res), None);
    ChainThrough(row.events, [event] + ResolutionEvents(res), Review, saved.state.status);
    SameReadiness(codes, row, saved);
  }

  lemma SettleKeepsInv(db: Db, id: Id, row: Row, event: Event, now: Instant)
    requires Inv(db) && Fits(db, id, row)
    requires row.state.status == Review && StatusColumns(row.state) && Chain(row.events, Review, Review)
    requires event.kind != StatusChanged
    ensures Inv(Settle(db, id, row, event, now).db)
  {
    hide Chain, Ready, Synced, LinesApart, Resolve;
    var after := Settle(db, id, row, event, now).db;
    var res := Resolve(db, row);
    ResolutionIsSavable(db, row);
    SettledRowIsSound(db.isoCodes, row, res, event, now);
    if res.AutoPaid? {
      LockingExcludes(db, db.links[res.link], now);
    }
    assert Fits(db, id, SettledRow(row, res, event, now));
    ReplaceRow(db, after, id, SettledRow(row, res, event, now));
  }

  // ---- line operations ------------------------------------------------------------------

  /** Resolving a pending line, to a transaction nobody's line uses or to none, leaves a fitting row. */
  lemma LineUpdateFits(db: Db, id: Id, k: int, line: Line)
    requires Inv(db) && id in db.bills && 0 <= k < |db.bills[id].lines|
    requires var was := db.bills[id].lines[k];
             line.id == was.id && line.candidate == was.candidate && LineOk(db, line) &&
             (line.txn.Some? ==> !LinkedElsewhere(db, line.txn.value, was.id))
    ensures var row := db.bills[id]; Fits(db, id, row.(lines := row.lines[k := line]))
  {
    var row := db.bills[id];
    var lines := row.lines[k := line];
    forall b, i | b in db.bills && 0 <= i < |db.bills[b].lines| && (b != id || i != k)
      ensures LinesApart(line, db.bills[b].lines[i])
    {
      assert LinesApart(row.lines[k], db.bills[b].lines[i]);
    }
    forall i, j | 0 <= i < |lines| && 0 <= j < |lines| && i != j
      ensures LinesApart(lines[i], lines[j])
    {
      assert LinesApart(row.lines[i], row.lines[j]);
      if i == k { assert LinesApart(line, row.lines[j]); }
      if j == k { assert LinesApart(line, row.lines[i]); }
    }
    forall b, i, j | b in db.bills && b != id && 0 <= i < |lines| && 0 <= j < |db.bills[b].lines|
      ensures LinesApart(lines[i], db.bills[b].lines[j])
    {
      if i == k { assert LinesApart(line, db.bills[b].lines[j]); }
      else { assert LinesApart(row.lines[i], db.bills[b].lines[j]); }
    }
  }

  lemma ReviewRow(db: Db, id: Id, v: int)
    requires Inv(db) && InReview(db, id, v).Success?
    ensures id in db.bills && InReview(db, id, v).value == db.bills[id]
    ensures var row := db.bills[id];
            row.state.status == Review && row.state.version == v && StatusColumns(row.state) &&
            Chain(row.events, Review, Review) && Fits(db, id, row)
  {
    StoredRowFits(db, id);
  }

  lemma StoredLineOk(db: Db, id: Id, k: int)
    requires Inv(db) && id in db.bills && 0 <= k < |db.bills[id].lines|
    ensures LineOk(db, db.bills[id].lines[k])
  {
  }

  lemma AttachKeepsInv(db: Db, id: Id, v: int, line: Id, txn: Id, exception: Option<string>, now: Instant)
    requires Inv(db) && AttachEffect(db, id, v, line, txn, exception, now).Success?
    ensures Inv(AttachEffect(db, id, v, line, txn, exception, now).value.db)
  {
    hide Inv, Settle, Fits;
    ReviewRow(db, id, v);
    var row := db.bills[id];
    var k := MutableLine(row, line).value;
    var t := LoadTransaction(db, txn).value;
    var why := CheckLink(row.origin.account, row.state.header, row.lines[k], t, exception).value;
    StoredLineOk(db, id, k);
    LineUpdateFits(db, id, k, LinkedLine(row.lines[k], txn, why));
    SettleKeepsInv(db, id, row.(lines := row.lines[k := LinkedLine(row.lines[k], txn, why)]), Happened(LineLinked, ""), now);
  }

  lemma IgnoreKeepsInv(db: Db, id: Id, v: int, line: Id, reason: string, now: Instant)
    requires Inv(db) && IgnoreEffect(db, id, v, line, reason, now).Success?
    ensures Inv(IgnoreEffect(db, id, v, line, reason, now).value.db)
  {
    hide Inv, Settle, Fits;
    var why := BoundedReason(reason).value;
    ReviewRow(db, id, v);
    var row := db.bills[id];
    var k := MutableLine(row, line).value;
    var ignored := row.lines[k].(status := Ignored, reason := Some(why));
    StoredLineOk(db, id, k);
    LineUpdateFits(db, id, k, ignored);
    SettleKeepsInv(db, id, row.(lines := row.lines[k := ignored]), Happened(LineIgnored, why), now);
  }

  lemma AddingTransactionsKeepsInv(db: Db, db': Db)
    requires Inv(db) && db.next <= db'.next && KeepsTransactions(db, db')
    requires forall t :: t in db'.txns && t !in db.txns ==> db.next <= t < db'.next && db'.txns[t].account in db'.accounts
    requires forall t :: t in db.txns ==> db'.txns[t] == db.txns[t]
    requires db'.accounts == db.accounts && db'.bills == db.bills && db'.links == db.links && db'.treatments == db.treatments
    requires db'.records == db.records && db'.isoCodes == db.isoCodes
    ensures Inv(db')
  {
    LedgerStep(db, db');
  }

  lemma CreatedTransactionIsNew(db: Db, row: Row, line: Line, category: Id)
    requires Inv(db) && CreateFromCandidate(db, row, line, category).Success?
    ensures var made := CreateFromCandidate(db, row, line, category).value;
            && Inv(made) && made.bills == db.bills && db.next in made.txns && made.next == db.next + 1
    ensures forall l :: !LinkedElsewhere(db, db.next, l)
  {
    AddingTransactionsKeepsInv(db, CreateFromCandidate(db, row, line, category).value);
    forall b, i | b in db.bills && 0 <= i < |db.bills[b].lines|
      ensures db.bills[b].lines[i].txn != Some(db.next)
    {
      assert LineOk(db, db.bills[b].lines[i]);
    }
  }

  lemma CreateLineKeepsInv(db: Db, id: Id, v: int, line: Id, category: Id, now: Instant)
    requires Inv(db) && CreateLineEffect(db, id, v, line, category, now).Success?
    ensures Inv(CreateLineEffect(db, id, v, line, category, now).value.db)
  {
    hide Inv, Settle, Fits, CreateFromCandidate, LinkedElsewhere;
    ReviewRow(db, id, v);
    var row := db.bills[id];
    var k := MutableLine(row, line).value;
    var made := CreateFromCandidate(db, row, row.lines[k], category).value;
    CreatedTransactionIsNew(db, row, row.lines[k], category);
    StoredLineOk(made, id, k);
    SameBillsSameLinks(db, made, db.next, line);
    var linked := LinkedLine(row.lines[k], db.next, row.lines[k].exception);
    LineUpdateFits(made, id, k, linked);
    SettleKeepsInv(made, id, row.(lines := row.lines[k := linked]), Happened(LineTransactionCreated, ""), now);
  }

  lemma SameBillsSameLinks(db: Db, db': Db, txn: Id, line: Id)
    requires db.bills == db'.bills
    ensures LinkedElsewhere(db, txn, line) == LinkedElsewhere(db', txn, line)
  {
  }

  lemma CorrectKeepsInv(db: Db, id: Id, v: int, c: Correction, now: Instant)
    requires Inv(db) && CorrectEffect(db, id, v, c, now).Success?
    ensures Inv(CorrectEffect(db, id, v, c, now).value.db)
  {
    hide Inv, Settle;
    var reason := BoundedReason(c.reason).value;
    ReviewRow(db, id, v);
    var row := db.bills[id];
    var corrected := row.(state := row.state.(header := Corrected(row.state.header, c)));
    assert Fits(db, id, corrected);
    SettleKeepsInv(db, id, corrected, Happened(HeaderCorrected, reason), now);
  }

  // ---- projection -------------------------------------------------------------------------

  lemma InsertableLinesFit(db: Db, lines: seq<Line>)
    requires Insertable(db, lines)
    ensures forall i, j :: 0 <= i < |lines| && 0 <= j < |lines| && i != j ==> LinesApart(lines[i], lines[j])
    ensures forall k :: 0 <= k < |lines| ==> ApartFromStored(db, lines[k])
  {
    forall i, j | 0 <= i < j < |lines|
      ensures LinesApart(lines[i], lines[j]) && LinesApart(lines[j], lines[i])
    {
      assert InsertableAfter(db, lines[..j], lines[j]);
      assert lines[..j][i] == lines[i];
    }
    forall k | 0 <= k < |lines|
      ensures ApartFromStored(db, lines[k])
    {
      assert InsertableAfter(db, lines[..k], lines[k]);
    }
  }

  lemma NewLinesFit(db: Db, cs: seq<BulkCandidate>)
    requires Inv(db) && Insertable(db, NewLines(cs, db.next + 1))
    ensures var lines, grown := NewLines(cs, db.next + 1), db.(next := db.next + 1 + |cs|);
            forall k :: 0 <= k < |lines| ==> LineOk(grown, lines[k])
  {
    var lines := NewLines(cs, db.next + 1);
    forall k | 0 <= k < |lines|
      ensures LineOk(db.(next := db.next + 1 + |cs|), lines[k])
    {
      assert InsertableAfter(db, lines[..k], lines[k]);
      assert lines[k] == NewLine(cs[k], db.next + 1 + k);
    }
  }

  lemma ProjectedRowFits(db: Db, document: Id, row: Row, cs: seq<BulkCandidate>)
    requires Inv(db) && row.lines == NewLines(cs, db.next + 1) && Insertable(db, row.lines)
    requires row.origin.document == document && BillsOf(db, document) == {}
    ensures Fits(db.(next := db.next + 1 + |cs|), db.next, row)
  {
    NewLinesFit(db, cs);
    InsertableLinesFit(db, row.lines);
    var grown := db.(next := db.next + 1 + |cs|);
    forall b | b in grown.bills && b != db.next
      ensures grown.bills[b].origin.document != document
    {
      assert b !in BillsOf(db, document);
    }
    forall b, i, j | b in grown.bills && b != db.next && 0 <= i < |row.lines| && 0 <= j < |grown.bills[b].lines|
      ensures LinesApart(row.lines[i], grown.bills[b].lines[j])
    {
      assert ApartFromStored(db, row.lines[i]);
    }
  }

  lemma NewRowKeepsInv(db: Db, row: Row, cs: seq<BulkCandidate>, now: Instant)
    requires Inv(db) && row.lines == NewLines(cs, db.next + 1) && Insertable(db, row.lines)
    requires BillsOf(db, row.origin.document) == {}
    requires row.state.status == Review && StatusColumns(row.state) && row.events == []
    ensures Inv(FirstSettlement(db, row, now).db)
  {
    hide Settle, Inv, Fits, Insertable;
    var grown := db.(next := db.next + 1 + |cs|);
    AddingTransactionsKeepsInv(db, grown);
    ProjectedRowFits(db, row.origin.document, row, cs);
    SettleKeepsInv(grown, db.next, row, Happened(Imported, ""), now);
  }

  lemma ProjectKeepsInv(db: Db, document: Id, generation: int, now: Instant)
    requires Inv(db) && ProjectEffect(db, document, generation, now).Success?
    ensures Inv(ProjectEffect(db, document, generation, now).value.db)
  {
    hide Inv, FirstSettlement, Insertable;
    if BillsOf(db, document) == {} {
      var row := Projectable(db, document, generation).value;
      NewRowKeepsInv(db, row, Included(OutputOf(db, document, generation)), now);
    }
  }

  // ---- choosing, paying, voiding and discarding ----------------------------------------------

  lemma LoadedChoice(row: Row)
    requires Chosen(row.candidates) == {} || |Open(row.candidates)| <= 1
    ensures var bill := LoadBill(0, row);
            && (bill.suggestion.Some? ==> Open(row.candidates) != {})
            && (bill.ambiguous != {} ==> Open(row.candidates) != {})
  {
    assert Chosen(row.candidates) <= Open(row.candidates);
  }

  /** A state, decided by the caller, that may replace the one of a ready bill. */
  predicate Replaceable(row: Row, state: State, suggestion: Option<Id>, confirmed: Option<Id>) {
    && StatusColumns(state.(version := row.state.version + 1)) && state.status != Review
    && state.header == row.state.header && (suggestion.Some? ==> state.status == Unpaid && confirmed == None)
  }

  lemma SavedRowIsSound(
    codes: set<string>, row: Row, state: State, suggestion: Option<Id>, confirmed: Option<Id>, event: Event)
    requires Replaceable(row, state, suggestion, confirmed) && Ready(codes, row)
    requires Chain(row.events, Review, row.state.status) && event.kind != StatusChanged
    ensures var saved := Saved(row, state, suggestion, confirmed, event);
            && StatusColumns(saved.state) && ChoiceMatchesStatus(saved) && Ready(codes, saved)
            && Chain(saved.events, Review, saved.state.status)
  {
    hide Chain, Ready, Synced;
    var saved := Saved(row, state, suggestion, confirmed, event);
    OpenAfterSync(row.candidates, suggestion, suggestion.Some?, {}, confirmed);
    ChainThrough(row.events, [event], row.state.status, state.status);
    SameReadiness(codes, row, saved);
  }

  lemma StoredRowOk(db: Db, id: Id)
    requires Inv(db) && id in db.bills
    ensures RowOk(db, db.bills[id]) && id < db.next
  {
  }

  /** An already decided state, saved over the stored row. */
  lemma SavedKeepsInv(
    db: Db, db': Db, id: Id, state: State, suggestion: Option<Id>, confirmed: Option<Id>, event: Event)
    requires Inv(db) && id in db.bills && Grows(db, db') && KeepsTransactions(db, db')
    requires LinksOk(db') && TreatmentsOk(db'.treatments) && db'.records == db.records
    requires Replaceable(db.bills[id], state, suggestion, confirmed) && Ready(db.isoCodes, db.bills[id])
    requires state.payoff.Some? ==>
               && state.payoff.value in db'.links && LegsExcluded(db', db'.links[state.payoff.value])
               && forall b :: b in db.bills && b != id ==> db.bills[b].state.payoff != state.payoff
    requires db'.bills == db.bills[id := Saved(db.bills[id], state, suggestion, confirmed, event)]
    requires event.kind != StatusChanged
    ensures Inv(db')
  {
    hide Chain, Ready, Synced, LinesApart, ChoiceMatchesStatus, StatusColumns;
    var row := db.bills[id];
    StoredRowFits(db, id);
    StoredRowOk(db, id);
    SavedRowIsSound(db.isoCodes, row, state, suggestion, confirmed, event);
    ReplaceRow(db, db', id, Saved(row, state, suggestion, confirmed, event));
  }

  /** The same when nothing but the bill moves. */
  lemma RestatedKeepsInv(db: Db, id: Id, state: State, suggestion: Option<Id>, event: Event)
    requires Inv(db) && id in db.bills && Ready(db.isoCodes, db.bills[id]) && event.kind != StatusChanged
    requires Replaceable(db.bills[id], state, suggestion, None) && state.payoff == None
    ensures Inv(db.(bills := db.bills[id := Saved(db.bills[id], state, suggestion, None, event)]))
  {
    hide RowsOk, LinesDistinct, BillsDistinct, LinesOk, Ready, Replaceable, Saved;
    SavedKeepsInv(db, db.(bills := db.bills[id := Saved(db.bills[id], state, suggestion, None, event)]), id, state,
                  suggestion, None, event);
  }

  lemma SelectableIsReady(db: Db, id: Id, t: Id)
    requires Inv(db) && id in db.bills && Selectable(db, id, db.bills[id], t).Success?
    ensures Ready(db.isoCodes, db.bills[id]) && db.bills[id].state.status == Review && StatusColumns(db.bills[id].state)
  {
    assert RowOk(db, db.bills[id]);
    LoadedChoice(db.bills[id]);
  }

  lemma SelectKeepsInv(db: Db, id: Id, v: int, t: Id, now: Instant)
    requires Inv(db) && SelectEffect(db, id, v, t, now).Success?
    ensures Inv(SelectEffect(db, id, v, t, now).value.db)
  {
    hide Selectable, Ready, Saved, Inv;
    SelectableIsReady(db, id, t);
    RestatedKeepsInv(db, id, db.bills[id].state.(status := Unpaid), Some(t), Happened(PaymentSelected, ""));
  }

  lemma VoidKeepsInv(db: Db, id: Id, v: int, reason: string, now: Instant)
    requires Inv(db) && VoidEffect(db, id, v, reason, now).Success?
    ensures Inv(VoidEffect(db, id, v, reason, now).value.db)
  {
    hide Ready, Saved, Inv, BoundedReason;
    var why := BoundedReason(reason).value;
    StoredRowOk(db, id);
    RestatedKeepsInv(db, id, db.bills[id].state.(status := Void, voidReason := Some(why)), None, Happened(Voided, why));
  }

  lemma AddingLinkKeepsLinksOk(db: Db, db': Db, link: Id, legs: Link)
    requires LinksOk(db) && KeepsTransactions(db, db') && db.next <= link < db'.next
    requires forall t :: t in db'.txns ==> t < db'.next && db'.txns[t].account in db'.accounts
    requires db'.links == db.links[link := legs]
    requires legs.debit in db'.txns && legs.credit in db'.txns && legs.debit != legs.credit
    requires forall t :: t in {legs.debit, legs.credit} ==> t !in db.txns || LinksOf(db, t) == {}
    ensures LinksOk(db')
  {
    hide Joined;
    forall k | k in db.links
      ensures Disjoint(db.links[k], legs) && Disjoint(legs, db.links[k])
    {
      assert db.links[k].debit in db.txns && db.links[k].credit in db.txns;
      assert legs.debit !in db.txns || k !in LinksOf(db, legs.debit);
      assert legs.credit !in db.txns || k !in LinksOf(db, legs.credit);
    }
  }

  /** The legs of a fresh transfer: new transactions, except for a debit that no transfer uses yet. */
  predicate FreshLegs(db: Db, link: Id, legs: Link, txns: map<Id, Txn>) {
    && db.next < link && legs.debit != legs.credit
    && legs.debit in db.txns.Keys + txns.Keys && legs.credit in txns
    && (forall t :: t in txns ==> db.next <= t < link && txns[t].account in db.accounts)
    && (legs.debit in txns || LinksOf(db, legs.debit) == {})
  }

  lemma LockingAndLinking(db: Db, db': Db, link: Id, legs: Link, now: Instant)
    requires TreatmentsOk(db.treatments) && link !in db.links && db.next <= db'.next && db'.isoCodes == db.isoCodes
    requires db'.treatments == LockedTreatments(db.treatments, {legs.debit, legs.credit}, now)
    requires db'.links == db.links[link := legs]
    ensures Grows(db, db') && TreatmentsOk(db'.treatments) && LegsExcluded(db', legs)
  {
  }

  lemma PayoffLedger(
    db: Db, id: Id, row: Row, link: Id, legs: Link, txns: map<Id, Txn>, confirmed: Option<Id>, event: Event, now: Instant)
    requires Inv(db) && FreshLegs(db, link, legs, txns) && link !in db.links
    ensures var db' := Payoff(db, id, row, link, legs, txns, confirmed, event, now).db;
            && Grows(db, db') && KeepsTransactions(db, db') && LinksOk(db') && TreatmentsOk(db'.treatments)
            && LegsExcluded(db', legs)
  {
    hide LockedTreatments, Saved, Answer, RowsOk, LinesDistinct, BillsDistinct, LinesOk, RecordsOk, TreatmentsOk,
      LegsExcluded, Grows;
    var db' := Payoff(db, id, row, link, legs, txns, confirmed, event, now).db;
    AddingLinkKeepsLinksOk(db, db', link, legs);
    LockingAndLinking(db, db', link, legs, now);
  }

  lemma FreshLinkSettlesNothing(db: Db, link: Id)
    requires Inv(db) && db.next <= link
    ensures link !in db.links
    ensures forall b :: b in db.bills ==> db.bills[b].state.payoff != Some(link)
  {
    forall b | b in db.bills
      ensures db.bills[b].state.payoff != Some(link)
    {
      StoredRowOk(db, b);
    }
  }

  /** Paying an Unpaid bill by a fresh transfer. */
  lemma PayoffKeepsInv(
    db: Db, id: Id, link: Id, legs: Link, txns: map<Id, Txn>, confirmed: Option<Id>, event: Event, now: Instant)
    requires Inv(db) && id in db.bills && db.bills[id].state.status == Unpaid && event.kind != StatusChanged
    requires FreshLegs(db, link, legs, txns)
    ensures Inv(Payoff(db, id, db.bills[id], link, legs, txns, confirmed, event, now).db)
  {
    hide Inv, Ready, Saved, Chain, LinksOk, TreatmentsOk, Grows, KeepsTransactions, LegsExcluded, LockedTreatments, Answer;
    var row := db.bills[id];
    StoredRowOk(db, id);
    FreshLinkSettlesNothing(db, link);
    PayoffLedger(db, id, row, link, legs, txns, confirmed, event, now);
    SavedKeepsInv(db, Payoff(db, id, row, link, legs, txns, confirmed, event, now).db, id,
                  PaidState(row.state, link, now), None, confirmed, event);
  }

  lemma LoadedTransactionIsUnlinked(db: Db, t: Id)
    requires LinksOk(db) && LoadTransaction(db, t).Success? && LoadTransaction(db, t).value.transfer == None
    ensures LinksOf(db, t) == {}
  {
    var links := LinksOf(db, t);
    if links != {} {
      assert Joined(db, db.links[Least(links)]);
    }
  }

  lemma PayableDebit(db: Db, id: Id, row: Row, t: Id)
    requires Inv(db) && PayableWith(db, id, row, t).Success?
    ensures row.state.status == Unpaid && Complete(row.state.header) && row.origin.account in db.accounts
    ensures t in db.txns && t < db.next && LinksOf(db, t) == {}
    ensures PayableWith(db, id, row, t) == LoadTransaction(db, t)
    ensures ValidDebit(row.state.header, LoadTransaction(db, t).value)
  {
    LoadedTransactionIsUnlinked(db, t);
  }

  lemma ConfirmKeepsInv(db: Db, id: Id, v: int, t: Id, now: Instant)
    requires Inv(db) && ConfirmEffect(db, id, v, t, now).Success?
    ensures Inv(ConfirmEffect(db, id, v, t, now).value.db)
  {
    hide Inv, Payoff, PayableWith;
    var row := db.bills[id];
    PayableDebit(db, id, row, t);
    var at := LoadTransaction(db, t).value.at;
    PayoffKeepsInv(
      db, id, db.next + 1, Link(t, db.next), map[db.next := Leg(row.origin.account, Credit, row.state.header, at)],
      Some(t), Happened(PaymentConfirmed, ""), now);
  }

  lemma PayInFullKeepsInv(db: Db, id: Id, v: int, bank: Id, now: Instant)
    requires Inv(db) && PayInFullEffect(db, id, v, bank, now).Success?
    ensures Inv(PayInFullEffect(db, id, v, bank, now).value.db)
  {
    hide Inv, Payoff;
    var row := db.bills[id];
    var n, card, h := db.next, row.origin.account, row.state.header;
    PayoffKeepsInv(db, id, n + 2, Link(n, n + 1), map[n := Leg(bank, Debit, h, now), n + 1 := Leg(card, Credit, h, now)],
                   None, Happened(PayoffCreated, ""), now);
  }

  lemma DiscardKeepsInv(db: Db, id: Id, v: int)
    requires Inv(db) && DiscardEffect(db, id, v).Success?
    ensures Inv(DiscardEffect(db, id, v).value.db)
  {
    hide Chain, Ready, ChoiceMatchesStatus, StatusColumns;
    var db' := DiscardEffect(db, id, v).value.db;
    forall b | b in db'.bills
      ensures b < db'.next && RowOk(db', db'.bills[b])
    {
      RowKept(db, db', db.bills[b]);
    }
  }

  // ---- the other writers ----------------------------------------------------------------------

  lemma AddTransactionKeepsInv(db: Db, t: Txn)
    requires Inv(db) && t.account in db.accounts
    ensures Inv(db.(txns := db.txns[db.next := t], next := db.next + 1))
  {
    AddingTransactionsKeepsInv(db, db.(txns := db.txns[db.next := t], next := db.next + 1));
  }

  lemma AddTransferKeepsInv(db: Db, d: Txn, c: Txn)
    requires Inv(db) && EffectOf(db, AddTransfer(d, c), 0).Success?
    ensures Inv(EffectOf(db, AddTransfer(d, c), 0).value.db)
  {
    hide RowOk, LinesDistinct, BillsDistinct;
    var db' := EffectOf(db, AddTransfer(d, c), 0).value.db;
    AddingLinkKeepsLinksOk(db, db', db.next + 2, Link(db.next, db.next + 1));
    LedgerStep(db, db');
  }

  lemma DeleteTransactionKeepsInv(db: Db, t: Id)
    requires Inv(db) && EffectOf(db, DeleteTransaction(t), 0).Success?
    ensures Inv(EffectOf(db, DeleteTransaction(t), 0).value.db)
  {
    hide RowOk, LinesDistinct, BillsDistinct;
    var db' := EffectOf(db, DeleteTransaction(t), 0).value.db;
    var rest := db.(txns := db.txns - {t});
    forall l | l in db.links
      ensures !LegOf(db.links[l], t)
    {
      assert l !in LinksOf(db, t);
    }
    assert LinksOk(rest);
    UnreferencedTreatmentGoes(db, t);
  }

  lemma RowOkWithoutTreatment(db: Db, t: Id, row: Row)
    requires RowOk(db, row) && LinksOf(db, t) == {}
    ensures RowOk(db.(txns := db.txns - {t}, treatments := db.treatments - {t}), row)
  {
    var payoff := row.state.payoff;
    if payoff.Some? {
      assert payoff.value !in LinksOf(db, t);
    }
  }

  /** Deleting an unreferenced transaction with its treatment leaves every payoff leg excluded. */
  lemma UnreferencedTreatmentGoes(db: Db, t: Id)
    requires Inv(db) && !Referenced(db, t)
    requires LinksOk(db.(txns := db.txns - {t}))
    ensures Inv(db.(txns := db.txns - {t}, treatments := db.treatments - {t}))
  {
    hide RowOk;
    var db' := db.(txns := db.txns - {t}, treatments := db.treatments - {t});
    forall b | b in db'.bills
      ensures b < db'.next && RowOk(db', db'.bills[b])
    {
      RowOkWithoutTreatment(db, t, db.bills[b]);
    }
  }

  lemma PutTreatmentKeepsInv(db: Db, t: Id, basis: Basis, reason: string, expected: Option<Instant>, now: Instant)
    requires Inv(db) && PutTreatmentEffect(db, t, basis, reason, expected, now).Success?
    ensures Inv(PutTreatmentEffect(db, t, basis, reason, expected, now).value.db)
  {
    hide RowOk, LinesDistinct, BillsDistinct;
    LedgerStep(db, PutTreatmentEffect(db, t, basis, reason, expected, now).value.db);
  }

  lemma PatchKeepsInv(db: Db, t: Id, x: Txn)
    requires Inv(db) && t in db.txns && x.account in db.accounts
    ensures Inv(db.(txns := db.txns[t := x]))
  {
    hide RowOk, LinesDistinct, BillsDistinct;
    LedgerStep(db, db.(txns := db.txns[t := x]));
  }

  lemma AccountsAndDocumentsKeepInv(db: Db, db': Db)
    requires Inv(db) && db' == db.(accounts := db'.accounts, documents := db'.documents, outputs := db'.outputs)
    requires db.accounts.Keys <= db'.accounts.Keys
    ensures Inv(db')
  {
    hide RowOk, LinesDistinct, BillsDistinct;
    LedgerStep(db, db');
  }

  lemma OthersKeepInv(db: Db, cmd: Command, now: Instant)
    requires Inv(db) && EffectOf(db, cmd, now).Success?
    requires !cmd.Project? && !Mutates(cmd)
    ensures Inv(EffectOf(db, cmd, now).value.db)
  {
    hide Inv, PutTreatmentEffect, Referenced;
    var db' := EffectOf(db, cmd, now).value.db;
    match cmd
    case PutTreatment(t, basis, note, e) => PutTreatmentKeepsInv(db, t, basis, note, e, now);
    case AddTransaction(t) => AddTransactionKeepsInv(db, t);
    case AddTransfer(d, c) => AddTransferKeepsInv(db, d, c);
    case PatchTransaction(t, x) => PatchKeepsInv(db, t, x.(direction := db.txns[t].direction));
    case DeleteTransaction(t) => DeleteTransactionKeepsInv(db, t);
    case _ => AccountsAndDocumentsKeepInv(db, db');
  }

  /** Every request, whatever its outcome, leads from a good state to a good state. */
  lemma StepKeepsInv(db: Db, cmd: Command, now: Instant)
    requires Inv(db)
    ensures Inv(Exec(db, cmd, now).0)
  {
    hide EffectOf, Inv;
    if EffectOf(db, cmd, now).Success? {
      EffectKeepsInv(db, cmd, now);
      if Keyed(cmd) {
        RecordKeepsInv(EffectOf(db, cmd, now).value.db, db, cmd, now);
      }
    }
  }

  lemma EffectKeepsInv(db: Db, cmd: Command, now: Instant)
    requires Inv(db) && EffectOf(db, cmd, now).Success?
    ensures Inv(EffectOf(db, cmd, now).value.db)
  {
    hide Inv, ProjectEffect, CorrectEffect, AttachEffect, IgnoreEffect, CreateLineEffect, SelectEffect,
      ConfirmEffect, PayInFullEffect, VoidEffect, DiscardEffect, PutTreatmentEffect;
    match cmd
    case Project(d, g) => ProjectKeepsInv(db, d, g, now);
    case CorrectHeader(b, v, c) => CorrectKeepsInv(db, b, v, c, now);
    case AttachLine(b, v, l, t, e) => AttachKeepsInv(db, b, v, l, t, e, now);
    case IgnoreLine(b, v, l, r) => IgnoreKeepsInv(db, b, v, l, r, now);
    case CreateLine(b, v, l, c, _) => CreateLineKeepsInv(db, b, v, l, c, now);
    case SelectPayment(b, v, t, _) => SelectKeepsInv(db, b, v, t, now);
    case ConfirmPayment(b, v, t, _) => ConfirmKeepsInv(db, b, v, t, now);
    case PayInFull(b, v, a, _) => PayInFullKeepsInv(db, b, v, a, now);
    case VoidBill(b, v, r, _) => VoidKeepsInv(db, b, v, r, now);
    case DiscardBill(b, v, _) => DiscardKeepsInv(db, b, v);
    case _ => OthersKeepInv(db, cmd, now);
  }

  lemma AnswerNamesTheBill(db: Db, cmd: Command, now: Instant)
    requires Keyed(cmd) && EffectOf(db, cmd, now).Success?
    ensures var bill := EffectOf(db, cmd, now).value.bill;
            (bill.Some? ==> bill.value.id == cmd.bill) && (bill == None <==> cmd.DiscardBill?)
  {
    hide LoadTransaction, CheckLink, CreateFromCandidate, Resolve, Synced, LockedTreatments;
  }

  lemma RecordingKeepsInv(after: Db, slot: Slot, record: Record)
    requires Inv(after) && RecordOk(slot, record)
    ensures Inv(after.(records := after.records[slot := record]))
  {
    hide RowOk, LinesDistinct, BillsDistinct;
    LedgerStep(after, after.(records := after.records[slot := record]));
  }

  lemma RecordKeepsInv(after: Db, db: Db, cmd: Command, now: Instant)
    requires Inv(after) && Keyed(cmd) && EffectOf(db, cmd, now).Success?
    ensures var bill := EffectOf(db, cmd, now).value.bill;
            Inv(after.(records := after.records[SlotOf(cmd) := CompletedRecord(cmd, bill, now)]))
  {
    hide Inv, EffectOf;
    AnswerNamesTheBill(db, cmd, now);
    RecordingKeepsInv(after, SlotOf(cmd), CompletedRecord(cmd, EffectOf(db, cmd, now).value.bill, now));
  }
}
