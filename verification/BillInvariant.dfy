/** What every reachable state of the bill tables satisfies, and that every request keeps it. */
module BillInvariant {
  import opened Prelude
  import opened BillModel
  import opened BillSpec

  // ---- the invariant ----------------------------------------------------------

  /** `events` takes a bill from one status to another, each change starting where the last one ended. */
  predicate Chain(events: seq<Event>, from: Status, to: Status) {
    if events == [] then from == to else
    var last, rest := events[|events| - 1], events[..|events| - 1];
    if last.kind == StatusChanged then last.to == Some(to) && last.from.Some? && Chain(rest, from, last.from.value)
    else Chain(rest, from, to)
  }

  predicate StatusColumns(s: State) {
    && (s.status == Paid <==> s.payoff.Some?)
    && (s.payoff.Some? <==> s.paidAt.Some?)
    && (s.status == Void <==> s.voidReason.Some?)
    && s.version >= 1
  }

  predicate ChoiceMatchesStatus(row: Row) {
    match row.state.status
    case Review => Chosen(row.candidates) == {} && |Open(row.candidates)| != 1
    case Unpaid => |Open(row.candidates)| <= 1
    case _ => Open(row.candidates) == {}
  }

  predicate LegsExcluded(db: Db, link: Link) {
    && link.debit in db.treatments && db.treatments[link.debit].source == System
    && link.credit in db.treatments && db.treatments[link.credit].source == System
  }

  predicate RowOk(db: Db, row: Row) {
    && StatusColumns(row.state)
    && ChoiceMatchesStatus(row)
    && (row.state.status != Review || Open(row.candidates) != {} ==> Ready(db.isoCodes, row))
    && Chain(row.events, Review, row.state.status)
    && (row.state.payoff.Some? ==>
          row.state.payoff.value in db.links && LegsExcluded(db, db.links[row.state.payoff.value]))
  }

  predicate RowsOk(db: Db) { forall b :: b in db.bills ==> b < db.next && RowOk(db, db.bills[b]) }

  /** No transfer settles two bills, and a document has one bill. */
  predicate BillsDistinct(bills: map<Id, Row>) {
    forall b, c :: b in bills && c in bills && b != c ==>
      && bills[b].origin.document != bills[c].origin.document
      && (bills[b].state.payoff.Some? ==> bills[b].state.payoff != bills[c].state.payoff)
  }

  predicate Disjoint(k: Link, l: Link) { !LegOf(k, l.debit) && !LegOf(k, l.credit) }

  /** No ledger transaction is a leg of two transfers, or both legs of one. */
  predicate LinksOk(db: Db) {
    && (forall l :: l in db.links ==>
          l < db.next && db.links[l].debit in db.txns && db.links[l].credit in db.txns &&
          db.links[l].debit != db.links[l].credit)
    && (forall k, l :: k in db.links && l in db.links && k != l ==> Disjoint(db.links[k], db.links[l]))
    && (forall t :: t in db.txns ==> t < db.next && db.txns[t].account in db.accounts)
    && db.next > 0
  }

  /** No pinned candidate and no ledger transaction is used by two statement lines. */
  predicate LinesDistinct(bills: map<Id, Row>) {
    forall b, c, i, j ::
      b in bills && c in bills && 0 <= i < |bills[b].lines| && 0 <= j < |bills[c].lines| && (b != c || i != j) ==>
        LinesApart(bills[b].lines[i], bills[c].lines[j])
  }

  predicate LineOk(db: Db, line: Line) {
    && line.id < db.next && (line.status == Linked <==> line.txn.Some?)
    && (line.txn.Some? ==> line.txn.value in db.txns)
  }

  predicate LinesOk(db: Db) {
    forall b, i :: b in db.bills && 0 <= i < |db.bills[b].lines| ==> LineOk(db, db.bills[b].lines[i])
  }

  predicate TreatmentsOk(ts: map<Id, Treatment>) {
    forall t :: t in ts && ts[t].source == System ==> ts[t].basis == Exclude && ts[t].reason == PAYOFF_REASON
  }

  predicate RecordOk(slot: Slot, r: Record) {
    && r.status == Completed && r.hash.action == slot.action && r.hash.bill == r.resource
    && (r.response == None <==> slot.action == Discard)
    && (if r.response.Some? then r.code == Some(200) && r.response.value.id == r.resource else r.code == Some(204))
  }

  /** In particular, no record is ever left in processing. */
  predicate RecordsOk(records: map<Slot, Record>) {
    forall s :: s in records ==> RecordOk(s, records[s])
  }

  /** All but the idempotency ledger: what also holds in the middle of a transaction that claimed a key. */
  predicate Core(db: Db) {
    && RowsOk(db) && BillsDistinct(db.bills) && LinksOk(db) && LinesDistinct(db.bills) && LinesOk(db)
    && TreatmentsOk(db.treatments)
  }

  predicate Inv(db: Db) { Core(db) && RecordsOk(db.records) }

  // ---- save and load -------------------------------------------------------------

  /** Every choice the service saves: at most one of a suggestion and two or more ambiguous debits. */
  predicate Savable(suggestion: Option<Id>, selected: bool, ambiguous: set<Id>, confirmed: Option<Id>) {
    && |ambiguous| != 1 && (suggestion.Some? ==> ambiguous == {}) && (selected ==> suggestion.Some?)
    && (confirmed.Some? ==> suggestion == None && ambiguous == {})
  }

  lemma OpenAt(
    rows: map<Id, CandidateStatus>, suggestion: Option<Id>, selected: bool, ambiguous: set<Id>, confirmed: Option<Id>,
    t: Id)
    requires Savable(suggestion, selected, ambiguous, confirmed)
    ensures var saved := Synced(rows, suggestion, selected, ambiguous, confirmed);
            && (t in Open(saved) <==> suggestion == Some(t) || t in ambiguous)
            && (t in Chosen(saved) <==> selected && suggestion == Some(t))
  {
    var saved := Synced(rows, suggestion, selected, ambiguous, confirmed);
    if t in saved {
      assert Some(saved[t]) == SyncedStatus(Lookup(rows, t), t, suggestion, selected, ambiguous, confirmed);
    }
  }

  lemma SetsFromMembers(open: set<Id>, chosen: set<Id>, suggestion: Option<Id>, selected: bool, ambiguous: set<Id>)
    requires suggestion.Some? ==> ambiguous == {}
    requires forall t: Id :: t in open <==> suggestion == Some(t) || t in ambiguous
    requires forall t: Id :: t in chosen <==> selected && suggestion == Some(t)
    ensures open == if suggestion.Some? then {suggestion.value} else ambiguous
    ensures chosen == if selected && suggestion.Some? then {suggestion.value} else {}
  {
  }

  lemma OpenAfterSync(
    rows: map<Id, CandidateStatus>, suggestion: Option<Id>, selected: bool, ambiguous: set<Id>, confirmed: Option<Id>)
    requires Savable(suggestion, selected, ambiguous, confirmed)
    ensures var saved := Synced(rows, suggestion, selected, ambiguous, confirmed);
            && Open(saved) == (if suggestion.Some? then {suggestion.value} else ambiguous)
            && Chosen(saved) == (if selected then {suggestion.value} else {})
  {
    var saved := Synced(rows, suggestion, selected, ambiguous, confirmed);
    var open, chosen := Open(saved), Chosen(saved);
    assert forall t: Id :: (t in open <==> suggestion == Some(t) || t in ambiguous) by {
      forall t: Id
        ensures t in open <==> suggestion == Some(t) || t in ambiguous
      {
        OpenAt(rows, suggestion, selected, ambiguous, confirmed, t);
      }
    }
    assert forall t: Id :: (t in chosen <==> selected && suggestion == Some(t)) by {
      forall t: Id
        ensures t in chosen <==> selected && suggestion == Some(t)
      {
        OpenAt(rows, suggestion, selected, ambiguous, confirmed, t);
      }
    }
    SetsFromMembers(open, chosen, suggestion, selected, ambiguous);
  }

  /** Saving a bill and loading it again returns the same payment choice. */
  lemma SaveThenLoad(
    id: Id, row: Row, suggestion: Option<Id>, selected: bool, ambiguous: set<Id>, confirmed: Option<Id>)
    requires Savable(suggestion, selected, ambiguous, confirmed)
    ensures var saved := row.(candidates := Synced(row.candidates, suggestion, selected, ambiguous, confirmed));
            var bill := LoadBill(id, saved);
            bill.suggestion == suggestion && bill.selected == selected && bill.ambiguous == ambiguous
  {
    OpenAfterSync(row.candidates, suggestion, selected, ambiguous, confirmed);
  }

  // ---- event chains -----------------------------------------------------------------

  lemma ChainExtends(events: seq<Event>, e: Event, from: Status, to: Status)
    requires Chain(events, from, to)
    ensures e.kind != StatusChanged ==> Chain(events + [e], from, to)
    ensures e.kind == StatusChanged && e.from == Some(to) && e.to.Some? ==> Chain(events + [e], from, e.to.value)
  {
    assert (events + [e])[..|events|] == events;
  }

  predicate Quiet(events: seq<Event>) { forall i :: 0 <= i < |events| ==> events[i].kind != StatusChanged }

  lemma {:induction false} ChainKeeps(events: seq<Event>, quiet: seq<Event>, from: Status, to: Status)
    requires Chain(events, from, to) && Quiet(quiet)
    ensures Chain(events + quiet, from, to)
  {
    if quiet == [] {
      assert events + quiet == events;
    } else {
      var rest, last := quiet[..|quiet| - 1], quiet[|quiet| - 1];
      ChainKeeps(events, rest, from, to);
      ChainExtends(events + rest, last, from, to);
      assert events + quiet == events + rest + [last];
    }
  }

  /** What an operation appends: facts that change no status, then the change of status, if any. */
  lemma ChainThrough(events: seq<Event>, quiet: seq<Event>, from: Status, to: Status)
    requires Chain(events, Review, from) && Quiet(quiet)
    ensures Chain(events + quiet + StatusChange(from, to), Review, to)
  {
    ChainKeeps(events, quiet, Review, from);
    if from == to {
      assert events + quiet + StatusChange(from, to) == events + quiet;
    } else {
      ChainExtends(events + quiet, StatusChange(from, to)[0], Review, from);
    }
  }
}
