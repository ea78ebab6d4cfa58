/** Which documents become a bill, in terms of the document, its candidates and the lines already stored. */
module BillProjection {
  import opened Prelude
  import opened Text
  import opened BillModel
  import opened BillSpec
  import opened BillInvariant
  import opened BillPreservation
  import opened BillTerms

  /** The transaction a candidate brings with it. */
  function OwnTxn(c: BulkCandidate): Option<Id> {
    if c.status == Created || c.status == Attached then c.txn else None
  }

  /** A kept candidate makes a line: a positive number and amount, a title of 1 to 500 characters, no summary. */
  predicate MakesALine(db: Db, c: BulkCandidate) {
    && c.index >= 1 && c.amount > 0 && c.kind != Summary && 1 <= |TrimSpace(c.title)| <= 500
    && (OwnTxn(c).Some? ==> OwnTxn(c).value in db.txns)
  }

  predicate Clash(a: BulkCandidate, b: BulkCandidate) {
    a.index == b.index || a.id == b.id || (OwnTxn(a).Some? && OwnTxn(a) == OwnTxn(b))
  }

  /** No stored line came from the candidate or has its transaction. */
  predicate New(db: Db, c: BulkCandidate) {
    forall b, i :: b in db.bills && 0 <= i < |db.bills[b].lines| ==>
      var line := db.bills[b].lines[i];
      line.candidate != Some(c.id) && (OwnTxn(c).Some? ==> line.txn != OwnTxn(c))
  }

  predicate OutputMakesLines(db: Db, output: seq<BulkCandidate>) {
    && (forall p :: 0 <= p < |output| ==> output[p].status != PendingReconciliation)
    && (forall p :: 0 <= p < |output| && Kept(output[p]) ==> MakesALine(db, output[p]) && New(db, output[p]))
    && (forall p, q :: 0 <= p < q < |output| && Kept(output[p]) && Kept(output[q]) ==> !Clash(output[p], output[q]))
  }

  function StoredOutput(db: Db, document: Id, generation: int): seq<BulkCandidate> {
    if (document, generation) in db.outputs then db.outputs[(document, generation)] else []
  }

  predicate MayProject(db: Db, document: Id, generation: int)
    requires document in db.documents
  {
    var d := db.documents[document];
    && d.generation == generation && d.isCardBill && d.accountType == CreditCard
    && d.account in db.accounts && db.accounts[d.account] == Account(CreditCard, false)
    && OutputMakesLines(db, StoredOutput(db, document, generation))
  }

  // ---- line by line ---------------------------------------------------------------------------------

  predicate GoodLine(db: Db, line: Line) {
    && line.index > 0 && line.amount > 0 && (line.txn.Some? ==> line.txn.value in db.txns)
    && WellFormedLine(line) && ApartFromStored(db, line)
  }

  predicate LineClash(a: Line, b: Line) { a.index == b.index || !LinesApart(b, a) }

  lemma InsertableLines(db: Db, lines: seq<Line>)
    ensures (Insertable(db, lines) && forall i :: 0 <= i < |lines| ==> WellFormedLine(lines[i])) <==>
            && (forall k :: 0 <= k < |lines| ==> GoodLine(db, lines[k]))
            && forall i, k :: 0 <= i < k < |lines| ==> !LineClash(lines[i], lines[k])
  {
    hide WellFormedLine, ApartFromStored, LinesApart;
    if Insertable(db, lines) && forall i :: 0 <= i < |lines| ==> WellFormedLine(lines[i]) {
      forall k | 0 <= k < |lines|
        ensures GoodLine(db, lines[k])
      {
        assert InsertableAfter(db, lines[..k], lines[k]);
      }
      forall i, k | 0 <= i < k < |lines|
        ensures !LineClash(lines[i], lines[k])
      {
        assert InsertableAfter(db, lines[..k], lines[k]);
        assert lines[..k][i] == lines[i];
      }
    }
    if (forall k :: 0 <= k < |lines| ==> GoodLine(db, lines[k])) &&
       (forall i, k :: 0 <= i < k < |lines| ==> !LineClash(lines[i], lines[k])) {
      forall k | 0 <= k < |lines|
        ensures InsertableAfter(db, lines[..k], lines[k]) && WellFormedLine(lines[k])
      {
        assert GoodLine(db, lines[k]);
        forall i | 0 <= i < k
          ensures lines[..k][i].index != lines[k].index && LinesApart(lines[k], lines[..k][i])
        {
          assert !LineClash(lines[i], lines[k]);
        }
      }
    }
  }

  lemma {:induction false} TrimmedTwice(s: string)
    ensures TrimSpace(TrimSpace(s)) == TrimSpace(s)
  {
    var i, j := TrimSpaceIs(s);
    var t := TrimSpace(s);
    if t != "" {
      assert Edged(t) by {
        assert t[0] == s[i] && t[|t| - 1] == s[j - 1];
      }
      hide TrimSpace;
      TrimOfEdged(t, t);
    } else {
      hide TrimSpace;
      TrimOfEdged("", "");
    }
  }

  lemma LineIsGoodExactly(db: Db, c: BulkCandidate, id: Id)
    requires Inv(db) && Kept(c) && id > db.next
    ensures GoodLine(db, NewLine(c, id)) <==> MakesALine(db, c) && New(db, c)
  {
    TrimmedTwice(c.title);
    hide TrimSpace, RowsOk, BillsDistinct, LinksOk, LinesDistinct, TreatmentsOk, RecordsOk;
    var line := NewLine(c, id);
    assert line.txn == OwnTxn(c) && line.candidate == Some(c.id);
    forall b, i | b in db.bills && 0 <= i < |db.bills[b].lines|
      ensures LinesApart(line, db.bills[b].lines[i]) <==>
              db.bills[b].lines[i].candidate != Some(c.id) && (OwnTxn(c).Some? ==> db.bills[b].lines[i].txn != OwnTxn(c))
    {
      assert LineOk(db, db.bills[b].lines[i]);
    }
  }

  lemma LinesClashExactly(a: BulkCandidate, b: BulkCandidate, i: Id, j: Id)
    requires Kept(a) && Kept(b) && i != j
    ensures LineClash(NewLine(a, i), NewLine(b, j)) <==> Clash(a, b)
  {
    hide TrimSpace;
  }

  lemma Enumerates(output: seq<BulkCandidate>, at: seq<nat>)
    requires KeptAt(output, at)
    ensures forall p :: 0 <= p < |output| && Kept(output[p]) ==> exists k :: 0 <= k < |at| && at[k] == p
    ensures forall k :: 0 <= k < |at| ==> at[k] < |output| && Kept(output[at[k]])
    ensures forall i, k :: 0 <= i < |at| && 0 <= k < |at| && at[i] < at[k] ==> i < k
    ensures forall i, k :: 0 <= i < k < |at| ==> at[i] < at[k]
  {
    hide Kept;
    forall k | 0 <= k < |at|
      ensures at[k] < |output| && Kept(output[at[k]])
    {
      assert at[k] in at;
    }
    forall i, k | 0 <= i < |at| && 0 <= k < |at| && at[i] < at[k]
      ensures i < k
    {
    }
  }

  lemma LinesStandFor(output: seq<BulkCandidate>, at: seq<nat>, first: Id)
    requires Picks(output, at, Included(output))
    ensures var lines := NewLines(Included(output), first);
            && |lines| == |at| && (forall k :: 0 <= k < |at| ==> at[k] < |output|)
            && forall k :: 0 <= k < |at| ==> lines[k] == NewLine(output[at[k]], first + k)
  {
    hide Included, NewLine;
  }

  lemma LinePerCandidate(db: Db, output: seq<BulkCandidate>, at: seq<nat>)
    requires Inv(db) && KeptAt(output, at) && Picks(output, at, Included(output))
    ensures var lines := NewLines(Included(output), db.next + 1);
            && |lines| == |at| && (forall k :: 0 <= k < |at| ==> at[k] < |output|)
            && (forall k :: 0 <= k < |at| ==>
                  (GoodLine(db, lines[k]) <==> MakesALine(db, output[at[k]]) && New(db, output[at[k]])))
            && (forall i, k :: 0 <= i < k < |at| ==>
                  (LineClash(lines[i], lines[k]) <==> Clash(output[at[i]], output[at[k]])))
  {
    hide Inv, GoodLine, LineClash, MakesALine, New, Clash, NewLines, NewLine, Included, Kept, KeptAt, Picks;
    Enumerates(output, at);
    LinesStandFor(output, at, db.next + 1);
    var lines := NewLines(Included(output), db.next + 1);
    forall k | 0 <= k < |at|
      ensures GoodLine(db, lines[k]) <==> MakesALine(db, output[at[k]]) && New(db, output[at[k]])
    {
      LineIsGoodExactly(db, output[at[k]], db.next + 1 + k);
    }
    forall i, k | 0 <= i < k < |at|
      ensures LineClash(lines[i], lines[k]) <==> Clash(output[at[i]], output[at[k]])
    {
      LinesClashExactly(output[at[i]], output[at[k]], db.next + 1 + i, db.next + 1 + k);
    }
  }

  /** The lines of the kept candidates go in exactly when each makes a line and no two clash. */
  lemma LinesExactly(db: Db, output: seq<BulkCandidate>, at: seq<nat>)
    requires Inv(db) && KeptAt(output, at) && Picks(output, at, Included(output))
    ensures var lines := NewLines(Included(output), db.next + 1);
            && ((forall k :: 0 <= k < |lines| ==> GoodLine(db, lines[k])) <==>
                  forall p :: 0 <= p < |output| && Kept(output[p]) ==> MakesALine(db, output[p]) && New(db, output[p]))
            && ((forall i, k :: 0 <= i < k < |lines| ==> !LineClash(lines[i], lines[k])) <==>
                  forall p, q :: 0 <= p < q < |output| && Kept(output[p]) && Kept(output[q]) ==> !Clash(output[p], output[q]))
  {
    hide Inv, GoodLine, LineClash, MakesALine, New, Clash, NewLines, Included, Kept, KeptAt, Picks;
    LinePerCandidate(db, output, at);
    Enumerates(output, at);
    var lines := NewLines(Included(output), db.next + 1);
    if forall k :: 0 <= k < |lines| ==> GoodLine(db, lines[k]) {
      forall p | 0 <= p < |output| && Kept(output[p])
        ensures MakesALine(db, output[p]) && New(db, output[p])
      {
        var k :| 0 <= k < |at| && at[k] == p;
        assert GoodLine(db, lines[k]);
      }
    }
    if forall i, k :: 0 <= i < k < |lines| ==> !LineClash(lines[i], lines[k]) {
      forall p, q | 0 <= p < q < |output| && Kept(output[p]) && Kept(output[q])
        ensures !Clash(output[p], output[q])
      {
        var i :| 0 <= i < |at| && at[i] == p;
        var k :| 0 <= k < |at| && at[k] == q;
        assert i < k && !LineClash(lines[i], lines[k]);
      }
    }
  }

  lemma ProjectableExactly(db: Db, document: Id, generation: int)
    requires Inv(db) && document in db.documents
    ensures Projectable(db, document, generation).Success? <==> MayProject(db, document, generation)
  {
    hide Inv, Insertable, WellFormedLine, NewLines, Included, GoodLine, LineClash, MakesALine, New, Clash, KeptAt, Picks, Kept,
      CountFailed, ProjectedHeader;
    var output := StoredOutput(db, document, generation);
    var at := IncludedPositions(output);
    LinesExactly(db, output, at);
    InsertableLines(db, NewLines(Included(output), db.next + 1));
    assert OutputOf(db, document, generation) == output;
  }

  // ---- the request -------------------------------------------------------------------------------------

  /**
   * A known document is projected iff it has a bill of this generation, which then is the answer and nothing changes,
   * or it has none and may have one.
   */
  lemma ProjectsExactlyWhen(db: Db, document: Id, generation: int, now: Instant)
    requires Inv(db)
    ensures var e := ProjectEffect(db, document, generation, now);
            && ((forall b :: b in db.bills ==> db.bills[b].origin.document != document) ==>
                  (e.Success? <==>
                     document != 0 && generation >= 1 && document in db.documents && MayProject(db, document, generation)))
            && (forall b :: b in db.bills && db.bills[b].origin.document == document ==>
                  && (e.Success? <==>
                        && document != 0 && generation >= 1 && document in db.documents
                        && db.bills[b].origin.generation == generation)
                  && (e.Success? ==>
                        && e.value.db == db && e.value.bill.Some? && e.value.bill.value.id == b
                        && e.value.bill.value.origin == db.bills[b].origin && e.value.bill.value.state == db.bills[b].state
                        && e.value.bill.value.lines == db.bills[b].lines))
  {
    hide MayProject, Projectable, FirstSettlement, RowsOk, LinksOk, LinesDistinct, LinesOk, TreatmentsOk, RecordsOk;
    if document in db.documents {
      ProjectableExactly(db, document, generation);
    }
    var known := BillsOf(db, document);
    forall b | b in db.bills && db.bills[b].origin.document == document
      ensures known == {b}
    {
      assert b in known;
      assert forall x :: x in known ==> x == b;
    }
  }
}
