/** Which layouts a draft batch takes, in terms of its rows, and what its files weigh. */
module LayoutTerms {
  import opened Prelude
  import opened Text
  import opened Layout

  // ---- the layouts -------------------------------------------------------------------------

  predicate Lists(layout: seq<Entry>, f: Id) {
    exists i, k :: 0 <= i < |layout| && 0 <= k < |layout[i].files| && layout[i].files[k] == f
  }

  /** One to twenty documents of one to fifty files, each named, no file twice. */
  predicate WithinLimits(layout: seq<Entry>) {
    && 1 <= |layout| <= 20
    && (forall i :: 0 <= i < |layout| ==> layout[i].document != 0 && 1 <= |layout[i].files| <= 50)
    && (forall i, k :: 0 <= i < |layout| && 0 <= k < |layout[i].files| ==> layout[i].files[k] != 0)
    && (forall i, j, k, l ::
          (0 <= i < |layout| && 0 <= j < |layout| && 0 <= k < |layout[i].files| && 0 <= l < |layout[j].files|
           && (i != j || k != l)) ==>
            layout[i].files[k] != layout[j].files[l])
  }

  /**
   * A draft batch whose files are exactly the listed ones, in documents of its own each listed once, PDFs standing
   * alone; the numbers the rows pass through, twice as many above those in use, fit a signed 32-bit column.
   */
  predicate FitsBatch(status: BatchStatus, ds: map<Id, Document>, fs: map<Id, File>, layout: seq<Entry>) {
    && status == Draft
    && (forall i :: 0 <= i < |layout| ==> layout[i].document in ds)
    && (forall i, j :: 0 <= i < j < |layout| ==> layout[i].document != layout[j].document)
    && (forall i, k :: 0 <= i < |layout| && 0 <= k < |layout[i].files| ==> layout[i].files[k] in fs)
    && (forall f :: f in fs ==> Lists(layout, f))
    && (forall i, k :: 0 <= i < |layout| && |layout[i].files| > 1 && 0 <= k < |layout[i].files| && layout[i].files[k] in fs ==>
          !fs[layout[i].files[k]].pdf)
    && (forall d :: d in ds ==> ds[d].order + 2 * |layout| <= 2147483647)
    && (forall f :: f in fs ==> fs[f].order + 2 * |fs| <= 2147483647)
  }

  lemma ListsExactly(layout: seq<Entry>, f: Id)
    ensures f in FilesIn(layout) <==> Lists(layout, f)
  {
  }

  /** Twenty documents of fifty files at most, and no file twice: what the service lets through. */
  lemma AcceptableExactly(layout: seq<Entry>)
    ensures Acceptable(layout) <==> WithinLimits(layout)
  {
  }

  lemma ListsAllExactly(fs: map<Id, File>, layout: seq<Entry>)
    requires Layout.WellFormed(layout)
    requires forall i, k :: 0 <= i < |layout| && 0 <= k < |layout[i].files| ==> layout[i].files[k] in fs
    ensures Listed(layout) == |fs| <==> forall f :: f in fs ==> Lists(layout, f)
  {
    assert FilesIn(layout) <= fs.Keys;
    ListedCount(layout);
    assert |fs| == |fs.Keys|;
    forall f
      ensures f in FilesIn(layout) <==> Lists(layout, f)
    {
      ListsExactly(layout, f);
    }
    hide Layout.WellFormed, FilesIn, Lists, Listed;
    if Listed(layout) == |fs| {
      EveryFileIsListed(fs, layout);
    } else {
      assert FilesIn(layout) != fs.Keys;
    }
  }

  lemma DocumentRoom(ds: map<Id, Document>, layout: seq<Entry>)
    requires |layout| > 0 && layout[0].document in ds
    ensures DocumentBase(ds, layout) + |layout| - 1 <= MAX_INT32 <==>
            forall d :: d in ds ==> ds[d].order + 2 * |layout| <= 2147483647
  {
    forall d | d in ds
      ensures ds[d].order in DocumentOrders(ds)
    {
    }
    assert DocumentOrders(ds) != {};
  }

  lemma FileRoom(fs: map<Id, File>, f: Id)
    requires f in fs
    ensures FileBase(fs) + |fs| - 1 <= MAX_INT32 <==> forall f :: f in fs ==> fs[f].order + 2 * |fs| <= 2147483647
  {
    forall f | f in fs
      ensures fs[f].order in FileOrders(fs)
    {
    }
    assert FileOrders(fs) != {};
  }

  /** The layouts a batch takes are exactly those. */
  lemma AppliesExactlyWhen(status: BatchStatus, ds: map<Id, Document>, fs: map<Id, File>, layout: seq<Entry>)
    requires Layout.WellFormed(layout)
    ensures Applicable(status, ds, fs, layout) <==> FitsBatch(status, ds, fs, layout)
  {
    if layout[0].document in ds && layout[0].files[0] in fs {
      DocumentRoom(ds, layout);
      FileRoom(fs, layout[0].files[0]);
      if AllKnown(ds, fs, layout) {
        ListsAllExactly(fs, layout);
      }
    }
    hide Layout.WellFormed, Listed, Lists, DocumentBase, FileBase;
  }

  /** `t` is what stands between the outer blanks. */
  predicate TrimmedTo(s: string, i: int, j: int, t: string) {
    0 <= i < j <= |s| && t == s[i..j] && AllBlank(s[..i]) && AllBlank(s[j..]) && !Blank(s[i]) && !Blank(s[j - 1])
  }

  /** A blank title is none; any other is kept without its outer blanks. */
  lemma TitleKept(e: Entry)
    ensures AllBlank(e.title) ==> LabelOf(e) == None
    ensures !AllBlank(e.title) ==> LabelOf(e).Some? && exists i, j :: TrimmedTo(e.title, i, j, LabelOf(e).value)
  {
    TrimsToNothing(e.title);
    var i, j := TrimSpaceIs(e.title);
    assert !AllBlank(e.title) ==> TrimmedTo(e.title, i, j, TrimSpace(e.title));
    hide TrimSpace, AllBlank;
  }

  // ---- the weight of a batch ----------------------------------------------------------------------

  lemma {:induction false} WeightWithout(fs: map<Id, File>, f: Id)
    requires f in fs
    ensures TotalBytes(fs) == fs[f].bytes + TotalBytes(fs - {f})
    decreases |fs|
  {
    var least := Least(fs.Keys);
    if f != least {
      WeightWithout(fs - {least}, f);
      assert f in fs - {least} && (fs - {least})[f] == fs[f];
      var rest := fs - {f};
      assert least in rest.Keys && Least(rest.Keys) in fs.Keys;
      assert rest != map[] && Least(rest.Keys) == least && rest[least] == fs[least];
      assert rest - {least} == fs - {least} - {f};
    }
  }

  /** A batch weighs the sum of its files, whichever way they are counted: one more file adds its size. */
  lemma WeightWith(fs: map<Id, File>, id: Id, f: File)
    requires id !in fs
    ensures TotalBytes(map[]) == 0 && TotalBytes(fs[id := f]) == TotalBytes(fs) + f.bytes
  {
    WeightWithout(fs[id := f], id);
    assert fs[id := f] - {id} == fs;
  }
}
