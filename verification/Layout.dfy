/** Documents and files of a draft batch: reservations, and the two-phase renumbering of a new layout. */
module Layout {
  import opened Prelude
  import opened Text

  datatype Document = Document(order: int, title: Option<string>)

  datatype File = File(document: Id, order: int, pdf: bool, bytes: nat, hash: int)

  datatype Entry = Entry(document: Id, title: string, files: seq<Id>)

  datatype BatchStatus = Draft | Submitted

  datatype Error = NotFound | Conflict | Invalid | DuplicateFile | UniqueViolation

  const MAX_FILES := 20
  const MAX_PAGES := 50
  const MAX_BYTES := 50 * 1024 * 1024
  const MAX_INT32 := 0x7fff_ffff

  // ---- the unique keys ------------------------------------------------------------------

  /** (batch, sort order) over documents. */
  predicate DocumentKey(ds: map<Id, Document>) {
    forall a, b :: a in ds && b in ds && a != b ==> ds[a].order != ds[b].order
  }

  /** (document, sort order) over files. */
  predicate FileKey(fs: map<Id, File>) {
    forall a, b :: a in fs && b in fs && a != b && fs[a].document == fs[b].document ==> fs[a].order != fs[b].order
  }

  predicate OrderTaken(ds: map<Id, Document>, id: Id, order: int) {
    exists x :: x in ds && x != id && ds[x].order == order
  }

  predicate PlaceTaken(fs: map<Id, File>, id: Id, document: Id, order: int) {
    exists x :: x in fs && x != id && fs[x].document == document && fs[x].order == order
  }

  // ---- layouts ------------------------------------------------------------------------------

  function Listed(layout: seq<Entry>): nat {
    if layout == [] then 0 else Listed(layout[..|layout| - 1]) + |layout[|layout| - 1].files|
  }

  function FilesIn(layout: seq<Entry>): set<Id> {
    set i, k | 0 <= i < |layout| && 0 <= k < |layout[i].files| :: layout[i].files[k]
  }

  /** The service's own check: something to place everywhere, and no file placed twice. */
  predicate WellFormed(layout: seq<Entry>) {
    && 0 < |layout| && (forall i :: 0 <= i < |layout| ==> |layout[i].files| > 0)
    && forall i, j, k, l ::
         (0 <= i < |layout| && 0 <= j < |layout| && 0 <= k < |layout[i].files| && 0 <= l < |layout[j].files|
          && layout[i].files[k] == layout[j].files[l]) ==> i == j && k == l
  }

  predicate DistinctDocuments(layout: seq<Entry>) {
    forall i, j :: 0 <= i < j < |layout| ==> layout[i].document != layout[j].document
  }

  predicate NoPdfAmongSeveral(fs: map<Id, File>, e: Entry) {
    |e.files| > 1 ==> forall k :: 0 <= k < |e.files| && e.files[k] in fs ==> !fs[e.files[k]].pdf
  }

  predicate AllKnown(ds: map<Id, Document>, fs: map<Id, File>, layout: seq<Entry>) {
    forall i :: 0 <= i < |layout| ==>
      layout[i].document in ds && forall k :: 0 <= k < |layout[i].files| ==> layout[i].files[k] in fs
  }

  predicate IsMax(s: set<int>, m: int) {
    if s == {} then m == -1 else m in s && forall x :: x in s ==> x <= m
  }

  lemma HasMax(s: set<int>) returns (m: int)
    ensures IsMax(s, m)
  {
    if s == {} { return -1; }
    m := Pick(s);
    if s != {m} {
      var rest := HasMax(s - {m});
      assert forall y :: y in s ==> y == m || y in s - {m};
      m := if rest > m then rest else m;
    }
  }

  /** `coalesce(max(sort_order), -1)` */
  ghost function MaxOf(s: set<int>): (m: int)
    ensures IsMax(s, m)
  {
    assert exists m :: IsMax(s, m) by { var m := HasMax(s); }
    var m :| IsMax(s, m);
    m
  }

  function DocumentOrders(ds: map<Id, Document>): set<int> { set d | d in ds :: ds[d].order }

  function FileOrders(fs: map<Id, File>): set<int> { set f | f in fs :: fs[f].order }

  ghost function DocumentBase(ds: map<Id, Document>, layout: seq<Entry>): int {
    MaxOf(DocumentOrders(ds)) + |layout| + 1
  }

  ghost function FileBase(fs: map<Id, File>): int { MaxOf(FileOrders(fs)) + |fs| + 1 }

  /** Exactly the layouts that can be applied. */
  ghost predicate Applicable(status: BatchStatus, ds: map<Id, Document>, fs: map<Id, File>, layout: seq<Entry>) {
    && status == Draft && Listed(layout) == |fs| && AllKnown(ds, fs, layout) && DistinctDocuments(layout)
    && (forall i :: 0 <= i < |layout| ==> NoPdfAmongSeveral(fs, layout[i]))
    && DocumentBase(ds, layout) + |layout| - 1 <= MAX_INT32
    && FileBase(fs) + |fs| - 1 <= MAX_INT32
  }

  function LabelOf(e: Entry): Option<string> { if TrimSpace(e.title) == "" then None else Some(TrimSpace(e.title)) }

  /** The tables a layout asks for: exactly its documents, numbered, and each file where it is listed. */
  predicate LaidOut(ds: map<Id, Document>, fs: map<Id, File>, layout: seq<Entry>) {
    && ds.Keys == (set i | 0 <= i < |layout| :: layout[i].document)
    && (forall i :: 0 <= i < |layout| ==> layout[i].document in ds && ds[layout[i].document] == Document(i, LabelOf(layout[i])))
    && fs.Keys == FilesIn(layout)
    && (forall i, k :: 0 <= i < |layout| && 0 <= k < |layout[i].files| ==>
          && layout[i].files[k] in fs && fs[layout[i].files[k]].document == layout[i].document
          && fs[layout[i].files[k]].order == k)
  }

  /** Nothing about a file changes but where it stands. */
  predicate SameFiles(fs: map<Id, File>, fs': map<Id, File>) {
    fs'.Keys == fs.Keys && forall f :: f in fs ==> fs'[f] == fs[f].(document := fs'[f].document, order := fs'[f].order)
  }

  // ---- pigeonhole ------------------------------------------------------------------------------

  lemma {:induction false} DistinctCount(files: seq<Id>, own: set<Id>)
    requires NoRepeats(files)
    requires own == set f | f in files
    ensures |own| == |files|
  {
    if files != [] {
      var n := |files| - 1;
      var rest := set f | f in files[..n];
      DistinctCount(files[..n], rest);
      assert files == files[..n] + [files[n]];
      assert own == rest + {files[n]} && files[n] !in rest;
    }
  }

  lemma FilesInOneMore(layout: seq<Entry>, n: nat)
    requires |layout| == n + 1
    ensures FilesIn(layout) == FilesIn(layout[..n]) + set f | f in layout[n].files
  {
    var rest := layout[..n];
    forall f
      ensures f in FilesIn(layout) <==> f in FilesIn(rest) || f in layout[n].files
    {
      if f in FilesIn(rest) {
        var i, k :| 0 <= i < n && 0 <= k < |rest[i].files| && rest[i].files[k] == f;
        assert layout[i].files[k] == f;
      }
      if f in FilesIn(layout) {
        var i, k :| 0 <= i <= n && 0 <= k < |layout[i].files| && layout[i].files[k] == f;
        if i < n {
          assert rest[i].files[k] == f;
        }
      }
    }
  }

  lemma WellFormedPrefix(layout: seq<Entry>, n: nat)
    requires WellFormed(layout) && 0 < n <= |layout|
    ensures WellFormed(layout[..n])
  {
    var rest := layout[..n];
    assert forall i :: 0 <= i < n ==> rest[i] == layout[i];
  }

  lemma LastFilesAreNew(layout: seq<Entry>, n: nat)
    requires WellFormed(layout) && |layout| == n + 1
    ensures FilesIn(layout[..n]) !! set f | f in layout[n].files
  {
  }

  lemma NothingListed()
    ensures FilesIn([]) == {}
  {
  }

  lemma DisjointCount<T>(a: set<T>, b: set<T>, both: set<T>)
    requires a !! b && both == a + b
    ensures |both| == |a| + |b|
  {
  }

  lemma {:induction false} ListedCount(layout: seq<Entry>)
    requires layout == [] || WellFormed(layout)
    ensures |FilesIn(layout)| == Listed(layout) && |layout| <= Listed(layout)
  {
    hide WellFormed, FilesIn, NoRepeats;
    if layout == [] {
      NothingListed();
    } else {
      var n := |layout| - 1;
      var own := set f | f in layout[n].files;
      if n > 0 { WellFormedPrefix(layout, n); }
      EntryHasNoRepeats(layout, n);
      LastFilesAreNew(layout, n);
      FilesInOneMore(layout, n);
      ListedCount(layout[..n]);
      DistinctCount(layout[n].files, own);
      DisjointCount(FilesIn(layout[..n]), own, FilesIn(layout));
    }
  }

  /** Distinct, all known, and as many as there are: every file is listed. */
  lemma EveryFileIsListed(fs: map<Id, File>, layout: seq<Entry>)
    requires WellFormed(layout) && FilesIn(layout) <= fs.Keys && Listed(layout) == |fs|
    ensures FilesIn(layout) == fs.Keys
  {
    ListedCount(layout);
    assert |fs| == |fs.Keys|;
    SubsetSize(FilesIn(layout), fs.Keys);
  }

  // ---- the batch ---------------------------------------------------------------------------------

  /** Every number handed out so far is below the count of reservations ever made. */
  predicate Sound(fileCount: nat, ds: map<Id, Document>, fs: map<Id, File>) {
    && DocumentKey(ds) && FileKey(fs) && |fs| <= fileCount
    && (forall d :: d in ds ==> 0 <= ds[d].order < fileCount)
    && (forall f :: f in fs ==> 0 <= fs[f].order && fs[f].document in ds)
  }

  lemma ReservationIsSound(fileCount: nat, ds: map<Id, Document>, fs: map<Id, File>, document: Id, id: Id, file: File)
    requires Sound(fileCount, ds, fs) && document !in ds && id !in fs
    ensures !OrderTaken(ds, document, fileCount)
    ensures Sound(fileCount + 1, ds[document := Document(fileCount, None)], fs[id := file.(document := document, order := 0)])
  {
  }

  lemma DeletionIsSound(fileCount: nat, ds: map<Id, Document>, fs: map<Id, File>, document: Id)
    requires Sound(fileCount, ds, fs)
    ensures Sound(fileCount, ds - {document}, map f | f in fs && fs[f].document != document :: fs[f])
  {
    var kept := map f | f in fs && fs[f].document != document :: fs[f];
    SubsetSize(kept.Keys, fs.Keys);
    assert |kept| == |kept.Keys| && |fs| == |fs.Keys|;
  }

  class Batch {
    var status: BatchStatus
    var fileCount: nat
    var documentCount: nat
    var documents: map<Id, Document>
    var files: map<Id, File>

    constructor ()
      ensures Valid() && status == Draft && documents == map[] && files == map[]
    {
      status, fileCount, documentCount, documents, files := Draft, 0, 0, map[], map[];
    }

    predicate Valid()
      reads this
    {
      Sound(fileCount, documents, files)
    }

    /** Reserve a file in a document of its own. Its number is always free. */
    method ReserveFile(document: Id, id: Id, file: File, duplicate: bool) returns (r: Result<(), Error>)
      requires Valid() && document !in documents && id !in files
      modifies this
      ensures Valid()
      ensures !OrderTaken(old(documents), document, old(fileCount))
      ensures r.Success? <==>
                old(status) == Draft && old(fileCount) < 20 && TotalBytes(old(files)) + file.bytes <= 52_428_800 && !duplicate
      ensures status == old(status)
      ensures r.Failure? ==>
                && r.error == (if duplicate && old(status) == Draft && old(fileCount) < 20 &&
                                  TotalBytes(old(files)) + file.bytes <= 52_428_800 then DuplicateFile else Conflict)
                && documents == old(documents) && files == old(files) && fileCount == old(fileCount)
                && documentCount == old(documentCount)
      ensures r.Success? ==>
                && documentCount == old(documentCount) + 1
                && documents == old(documents)[document := Document(old(fileCount), None)]
                && files == old(files)[id := file.(document := document, order := 0)]
                && fileCount == old(fileCount) + 1
    {
      hide Sound, TotalBytes;
      ReservationIsSound(fileCount, documents, files, document, id, file);
      if status != Draft || fileCount >= MAX_FILES || TotalBytes(files) + file.bytes > MAX_BYTES { return Failure(Conflict); }
      if duplicate { return Failure(DuplicateFile); }
      if OrderTaken(documents, document, fileCount) { return Failure(UniqueViolation); }
      documents := documents[document := Document(fileCount, None)];
      files := files[id := file.(document := document, order := 0)];
      fileCount, documentCount := fileCount + 1, documentCount + 1;
      r := Success(());
    }

    /** Deleting a draft document takes its files; the counter of reservations stays. */
    method DeleteDraftDocument(document: Id)
      requires Valid()
      modifies this
      ensures Valid() && fileCount == old(fileCount)
      ensures documents == old(documents) - {document}
      ensures files == map f | f in old(files) && old(files)[f].document != document :: old(files)[f]
    {
      hide Sound;
      DeletionIsSound(fileCount, documents, files, document);
      documents := documents - {document};
      files := map f | f in files && files[f].document != document :: files[f];
    }

    /** One statement of the renumbering; the unique key checks it at once. */
    method UpdateDocument(id: Id, order: int, title: Option<string>) returns (r: Result<(), Error>)
      requires DocumentKey(documents)
      modifies this`documents
      ensures DocumentKey(documents)
      ensures r.Success? <==> id in old(documents) && !OrderTaken(old(documents), id, order)
      ensures documents == if r.Success? then old(documents)[id := Document(order, title)] else old(documents)
    {
      if id !in documents { return Failure(Invalid); }
      if OrderTaken(documents, id, order) { return Failure(UniqueViolation); }
      documents := documents[id := Document(order, title)];
      r := Success(());
    }

    method UpdateFile(id: Id, document: Id, order: int) returns (r: Result<(), Error>)
      requires FileKey(files)
      modifies this`files
      ensures FileKey(files)
      ensures r.Success? <==> id in old(files) && !PlaceTaken(old(files), id, document, order)
      ensures files == if r.Success? then old(files)[id := old(files)[id].(document := document, order := order)] else old(files)
    {
      if id !in files { return Failure(Invalid); }
      if PlaceTaken(files, id, document, order) { return Failure(UniqueViolation); }
      files := files[id := files[id].(document := document, order := order)];
      r := Success(());
    }

    // ---- phase one: every listed row moves to a number above all those in use ---------------------

    method MoveFiles(e: Entry, base: int) returns (r: Result<(), Error>)
      requires FileKey(files) && base >= 0 && forall f :: f in files ==> files[f].order < base
      requires NoRepeats(e.files)
      modifies this`files
      ensures FileKey(files)
      ensures r.Success? <==>
                (forall k :: 0 <= k < |e.files| ==> e.files[k] in old(files)) && (|e.files| > 0 ==> base + |e.files| - 1 <= MAX_INT32)
      ensures r.Success? ==> files == Placed(old(files), e.files, e.document, base)
    {
      hide Placed, FileKey, PlaceTaken;
      ghost var before := files;
      PlacedNone(files, e.document, base);
      for k := 0 to |e.files|
        invariant FileKey(files) && files == Placed(before, e.files[..k], e.document, base)
        invariant forall x :: 0 <= x < k ==> e.files[x] in before
        invariant k > 0 ==> base + k - 1 <= MAX_INT32
      {
        PlacedAside(before, e.files[..k], e.files[k], e.document, base);
        var order :- TemporarySortOrder(base, k);
        var moved := UpdateFile(e.files[k], e.document, order);
        if moved.Failure? { return Failure(Invalid); }
        PlacedOneMore(before, e.files, k, e.document, base);
      }
      assert e.files[..|e.files|] == e.files;
      r := Success(());
    }

    method MoveAside(layout: seq<Entry>, documentBase: int, fileBase: int) returns (r: Result<(), Error>)
      requires DocumentKey(documents) && FileKey(files) && WellFormed(layout) && documentBase >= 0 && fileBase >= 0
      requires (forall d :: d in documents ==> documents[d].order < documentBase)
      requires (forall f :: f in files ==> files[f].order < fileBase)
      modifies this`documents, this`files
      ensures DocumentKey(documents) && FileKey(files)
      ensures r.Success? <==> AllKnown(old(documents), old(files), layout)
                              && documentBase + |layout| - 1 <= MAX_INT32 && fileBase + Listed(layout) - 1 <= MAX_INT32
      ensures r.Success? ==> documents == DocumentsAside(old(documents), layout, documentBase)
      ensures r.Success? ==> files == FilesAside(old(files), layout, fileBase)
    {
      hide FileKey, DocumentKey, Placed, OrderTaken, WellFormed, AllKnown, DocumentsAside, FilesAside, Listed;
      AsideStarts(documents, files, documentBase, fileBase);
      ghost var ds, fs := documents, files;
      NoneUnknown(ds, fs);
      SomethingListed(layout);
      var temporaryFileIndex := 0;
      for i := 0 to |layout|
        invariant DocumentKey(documents) && FileKey(files) && temporaryFileIndex == Listed(layout[..i])
        invariant documents == DocumentsAside(ds, layout[..i], documentBase)
        invariant files == FilesAside(fs, layout[..i], fileBase)
        invariant AllKnown(ds, fs, layout[..i])
        invariant i > 0 ==> documentBase + i - 1 <= MAX_INT32 && fileBase + temporaryFileIndex - 1 <= MAX_INT32
      {
        var e := layout[i];
        AsideOneMore(ds, fs, layout, i, documentBase, fileBase);
        AsideFacts(ds, fs, layout[..i], documentBase, fileBase);
        KnownOneMore(ds, fs, layout, i);
        ListedGrows(layout, i + 1);
        EntryHasNoRepeats(layout, i);
        NextNumberIsFree(documents, documentBase + i, e.document);
        var order := TemporarySortOrder(documentBase, i);
        if order.Failure? { return Failure(Invalid); }
        var updated := UpdateDocument(e.document, order.value, LabelOf(e));
        if updated.Failure? { return Failure(Invalid); }
        var moved := MoveFiles(e, fileBase + temporaryFileIndex);
        if moved.Failure? { return Failure(Invalid); }
        temporaryFileIndex := temporaryFileIndex + |e.files|;
      }
      assert layout[..|layout|] == layout;
      r := Success(());
    }

    // ---- phase two: the final numbers --------------------------------------------------------------

    method NumberFiles(e: Entry) returns (r: Result<(), Error>)
      requires FileKey(files) && NoRepeats(e.files) && |e.files| > 0
      requires forall k :: 0 <= k < |e.files| ==> StandsHigh(files, e.files[k], e.document, |e.files|)
      modifies this`files
      ensures FileKey(files)
      ensures LeavesRoom(old(files), e) ==> r.Success?
      ensures (exists f :: f in old(files) && f !in e.files && old(files)[f].document == e.document && old(files)[f].order == 0)
                ==> r.Failure?
      ensures r.Success? ==> files == Placed(old(files), e.files, e.document, 0)
    {
      hide Placed, FileKey, PlaceTaken, LeavesRoom, StandsHigh;
      ghost var before := files;
      PlacedNone(files, e.document, 0);
      FirstPlaceTaken(files, e);
      for k := 0 to |e.files|
        invariant FileKey(files) && files == Placed(before, e.files[..k], e.document, 0)
        invariant k > 0 ==> !PlaceTaken(before, e.files[0], e.document, 0)
      {
        PlacedAtFront(before, e, k);
        var numbered := UpdateFile(e.files[k], e.document, k);
        if numbered.Failure? { return Failure(UniqueViolation); }
        PlacedOneMore(before, e.files, k, e.document, 0);
      }
      assert e.files[..|e.files|] == e.files;
      r := Success(());
    }

    method Renumber(layout: seq<Entry>) returns (r: Result<(), Error>)
      requires DocumentKey(documents) && FileKey(files) && WellFormed(layout) && Staged(documents, files, layout)
      modifies this`documents, this`files
      ensures DocumentKey(documents) && FileKey(files)
      ensures r.Success? <==> DistinctDocuments(layout)
      ensures r.Success? ==> documents == DocumentsNumbered(old(documents), layout)
      ensures r.Success? ==> files == FilesNumbered(old(files), layout)
    {
      hide FileKey, DocumentKey, Placed, OrderTaken, WellFormed, Staged, LeavesRoom, StandsHigh;
      ghost var ds, fs := documents, files;
      for i := 0 to |layout|
        invariant DocumentKey(documents) && FileKey(files) && DistinctDocuments(layout[..i])
        invariant documents == DocumentsNumbered(ds, layout[..i])
        invariant files == FilesNumbered(fs, layout[..i])
      {
        var e := layout[i];
        assert layout[..i + 1][..i] == layout[..i];
        EntryHasNoRepeats(layout, i);
        NumberIsFree(ds, fs, layout, i);
        RoomForEntry(ds, fs, layout, i);
        DistinctOneMore(layout, i);
        var updated := UpdateDocument(e.document, i, documents[e.document].title);
        if updated.Failure? { return Failure(UniqueViolation); }
        var numbered := NumberFiles(e);
        if numbered.Failure? { return Failure(UniqueViolation); }
      }
      assert layout[..|layout|] == layout;
      r := Success(());
    }

    // ---- the whole replacement ---------------------------------------------------------------------

    method CheckPdfs(layout: seq<Entry>) returns (r: Result<(), Error>)
      ensures r.Success? <==> forall i :: 0 <= i < |layout| ==> NoPdfAmongSeveral(files, layout[i])
    {
      for i := 0 to |layout|
        invariant forall j :: 0 <= j < i ==> NoPdfAmongSeveral(files, layout[j])
      {
        if |layout[i].files| > 1 {
          for k := 0 to |layout[i].files|
            invariant forall l :: 0 <= l < k && layout[i].files[l] in files ==> !files[layout[i].files[l]].pdf
          {
            if layout[i].files[k] in files && files[layout[i].files[k]].pdf {
              assert !NoPdfAmongSeveral(files, layout[i]);
              return Failure(Invalid);
            }
          }
        }
      }
      r := Success(());
    }

    /** Both phases, with the documents left empty by the first removed in between. */
    method MoveAndRenumber(layout: seq<Entry>, documentBase: int, fileBase: int) returns (r: Result<(), Error>)
      requires Valid() && WellFormed(layout) && Listed(layout) == |files|
      requires documentBase == DocumentBase(documents, layout) && fileBase == FileBase(files)
      modifies this`documents, this`files
      ensures r.Success? <==>
                && AllKnown(old(documents), old(files), layout) && DistinctDocuments(layout)
                && documentBase + |layout| - 1 <= MAX_INT32 && fileBase + Listed(layout) - 1 <= MAX_INT32
      ensures r.Success? ==> LaidOut(documents, files, layout) && SameFiles(old(files), files) && Valid()
    {
      hide FileKey, DocumentKey, WellFormed, AllKnown, LaidOut, Staged, SameFiles, DistinctDocuments, HasFile, DocumentBase,
        FileBase;
      ghost var ds, fs := documents, files;
      BasesAreHigh(ds, fs, layout);
      var aside :- MoveAside(layout, documentBase, fileBase);
      StagedAside(ds, fs, layout);
      SomeKeepTheKey(documents, files);
      documents := map d | d in documents && HasFile(files, d) :: documents[d];
      ghost var stagedDocuments, stagedFiles := documents, files;
      var numbered :- Renumber(layout);
      Arrives(ds, fs, layout, stagedDocuments, stagedFiles, fileCount);
      r := Success(());
    }

    /** Apply a layout, or leave the batch as it was. */
    method ReplaceDocumentLayout(layout: seq<Entry>) returns (r: Result<(), Error>)
      requires Valid() && WellFormed(layout)
      modifies this
      ensures Valid() && status == old(status) && fileCount == old(fileCount)
      ensures r.Success? <==> Applicable(status, old(documents), old(files), layout)
      ensures r.Success? ==> LaidOut(documents, files, layout) && SameFiles(old(files), files) && documentCount == |layout|
      ensures r.Failure? ==> documents == old(documents) && files == old(files) && documentCount == old(documentCount)
    {
      hide FileKey, DocumentKey, WellFormed, AllKnown, LaidOut, SameFiles, DistinctDocuments, NoPdfAmongSeveral;
      var ds, fs := documents, files;
      if status != Draft { return Failure(Conflict); }
      var listed := CountListed(layout);
      if listed != |files| { return Failure(Invalid); }
      var documentBase := HighestDocument(documents);
      var fileBase := HighestFile(files);
      var plain := CheckPdfs(layout);
      if plain.Failure? { return Failure(Invalid); }
      r := MoveAndRenumber(layout, documentBase + |layout| + 1, fileBase + |files| + 1);
      if r.Failure? {
        documents, files := ds, fs;
        return r;
      }
      documentCount := |layout|;
    }
  }

  predicate NoRepeats(files: seq<Id>) { forall k, l :: 0 <= k < l < |files| ==> files[k] != files[l] }

  function IndexIn(files: seq<Id>, f: Id): (k: nat)
    requires f in files
    ensures k < |files| && files[k] == f
  {
    if files[|files| - 1] == f then |files| - 1 else IndexIn(files[..|files| - 1], f)
  }

  /** The files of a list put in a document, numbered from `base` in the order listed. */
  function Placed(fs: map<Id, File>, files: seq<Id>, document: Id, base: int): map<Id, File> {
    map f | f in fs :: if f in files then fs[f].(document := document, order := base + IndexIn(files, f)) else fs[f]
  }

  lemma PlacedNone(fs: map<Id, File>, document: Id, base: int)
    ensures Placed(fs, [], document, base) == fs
  {
  }

  lemma IndexInPrefix(files: seq<Id>, k: nat, f: Id)
    requires NoRepeats(files) && k <= |files| && f in files[..k]
    ensures f in files && IndexIn(files, f) == IndexIn(files[..k], f)
  {
    var i, j := IndexIn(files[..k], f), IndexIn(files[..k], f);
    assert files[i] == f;
    assert f in files;
  }

  lemma PlacedOneMore(fs: map<Id, File>, files: seq<Id>, k: nat, document: Id, base: int)
    requires NoRepeats(files) && k < |files| && files[k] in fs
    ensures files[k] in Placed(fs, files[..k], document, base)
    ensures Placed(fs, files[..k], document, base)[files[k] := fs[files[k]].(document := document, order := base + k)]
            == Placed(fs, files[..k + 1], document, base)
    ensures Placed(fs, files[..k], document, base)[files[k]] == fs[files[k]]
  {
    var shorter, longer := Placed(fs, files[..k], document, base), Placed(fs, files[..k + 1], document, base);
    assert files[..k + 1] == files[..k] + [files[k]];
    assert files[k] !in files[..k];
    forall f | f in fs
      ensures longer[f] == shorter[files[k] := fs[files[k]].(document := document, order := base + k)][f]
    {
      if f in files[..k] {
        IndexInPrefix(files, k, f);
        IndexInPrefix(files, k + 1, f);
      } else if f == files[k] {
        IndexInPrefix(files, k + 1, f);
        assert files[IndexIn(files, f)] == files[k];
      }
    }
  }

  /** Above every number in use, the next place is free. */
  lemma PlacedAside(fs: map<Id, File>, files: seq<Id>, f: Id, document: Id, base: int)
    requires forall x :: x in fs ==> fs[x].order < base
    ensures var placed := Placed(fs, files, document, base);
            && (f in placed <==> f in fs) && (f !in files && f in fs ==> placed[f] == fs[f])
            && !PlaceTaken(placed, f, document, base + |files|)
            && forall x :: x in placed ==> placed[x].order < base + |files|
  {
  }

  // ---- what phase one leaves ------------------------------------------------------------------------

  function DocumentsAside(ds: map<Id, Document>, layout: seq<Entry>, base: int): map<Id, Document> {
    if layout == [] then ds
    else
      var n := |layout| - 1;
      DocumentsAside(ds, layout[..n], base)[layout[n].document := Document(base + n, LabelOf(layout[n]))]
  }

  function FilesAside(fs: map<Id, File>, layout: seq<Entry>, base: int): map<Id, File> {
    if layout == [] then fs
    else
      var n := |layout| - 1;
      Placed(FilesAside(fs, layout[..n], base), layout[n].files, layout[n].document, base + Listed(layout[..n]))
  }

  lemma AsideStarts(ds: map<Id, Document>, fs: map<Id, File>, documentBase: int, fileBase: int)
    ensures DocumentsAside(ds, [], documentBase) == ds && FilesAside(fs, [], fileBase) == fs && Listed([]) == 0
  {
  }

  lemma AsideOneMore(
    ds: map<Id, Document>, fs: map<Id, File>, layout: seq<Entry>, i: nat, documentBase: int, fileBase: int)
    requires i < |layout|
    ensures Listed(layout[..i + 1]) == Listed(layout[..i]) + |layout[i].files|
    ensures DocumentsAside(ds, layout[..i + 1], documentBase)
            == DocumentsAside(ds, layout[..i], documentBase)[layout[i].document := Document(documentBase + i, LabelOf(layout[i]))]
    ensures FilesAside(fs, layout[..i + 1], fileBase)
            == Placed(FilesAside(fs, layout[..i], fileBase), layout[i].files, layout[i].document, fileBase + Listed(layout[..i]))
  {
    assert layout[..i + 1][..i] == layout[..i];
  }

  lemma {:induction false} AsideFacts(
    ds: map<Id, Document>, fs: map<Id, File>, layout: seq<Entry>, documentBase: int, fileBase: int)
    requires forall d :: d in ds ==> ds[d].order < documentBase
    requires forall f :: f in fs ==> fs[f].order < fileBase
    requires AllKnown(ds, fs, layout)
    ensures var ds', fs' := DocumentsAside(ds, layout, documentBase), FilesAside(fs, layout, fileBase);
            && ds'.Keys == ds.Keys && fs'.Keys == fs.Keys
            && (forall d :: d in ds' ==> ds'[d].order < documentBase + |layout|)
            && (forall f :: f in fs' ==> fs'[f].order < fileBase + Listed(layout))
  {
    if layout != [] {
      var n := |layout| - 1;
      AsideFacts(ds, fs, layout[..n], documentBase, fileBase);
    }
  }

  lemma SomethingListed(layout: seq<Entry>)
    requires WellFormed(layout)
    ensures |layout| > 0
  {
  }

  lemma NoneUnknown(ds: map<Id, Document>, fs: map<Id, File>)
    ensures AllKnown(ds, fs, [])
  {
  }

  lemma KnownOneMore(ds: map<Id, Document>, fs: map<Id, File>, layout: seq<Entry>, i: nat)
    requires i < |layout|
    ensures AllKnown(ds, fs, layout[..i + 1]) <==>
            AllKnown(ds, fs, layout[..i]) && layout[i].document in ds && forall k :: 0 <= k < |layout[i].files| ==> layout[i].files[k] in fs
    ensures AllKnown(ds, fs, layout) ==> AllKnown(ds, fs, layout[..i + 1])
  {
    assert forall j :: 0 <= j < i ==> layout[..i + 1][j] == layout[..i][j];
    if AllKnown(ds, fs, layout[..i + 1]) {
      assert layout[..i + 1][i] == layout[i];
    }
  }

  lemma {:induction false} ListedGrows(layout: seq<Entry>, k: nat)
    requires k <= |layout|
    ensures Listed(layout[..k]) <= Listed(layout)
  {
    if k < |layout| {
      ListedGrows(layout[..|layout| - 1], k);
      assert layout[..|layout| - 1][..k] == layout[..k];
    } else {
      assert layout[..k] == layout;
    }
  }

  lemma EntryHasNoRepeats(layout: seq<Entry>, i: nat)
    requires WellFormed(layout) && i < |layout|
    ensures NoRepeats(layout[i].files) && |layout[i].files| > 0
  {
  }

  lemma NextNumberIsFree(ds: map<Id, Document>, order: int, id: Id)
    requires forall d :: d in ds ==> ds[d].order < order
    ensures !OrderTaken(ds, id, order)
  {
  }

  lemma PlacedAt(fs: map<Id, File>, files: seq<Id>, document: Id, base: int, k: nat)
    requires NoRepeats(files) && k < |files| && files[k] in fs
    ensures Placed(fs, files, document, base)[files[k]] == fs[files[k]].(document := document, order := base + k)
  {
    assert IndexIn(files, files[k]) == k by {
      var j := IndexIn(files, files[k]);
      assert files[j] == files[k];
    }
  }

  /** Where phase one puts the files and documents of a layout. */
  lemma {:induction false} AsidePlaces(
    ds: map<Id, Document>, fs: map<Id, File>, layout: seq<Entry>, documentBase: int, fileBase: int)
    requires (layout == [] || WellFormed(layout)) && AllKnown(ds, fs, layout)
    ensures var ds', fs' := DocumentsAside(ds, layout, documentBase), FilesAside(fs, layout, fileBase);
            && ds'.Keys == ds.Keys && SameFiles(fs, fs')
            && (forall i :: 0 <= i < |layout| ==> ds'[layout[i].document].order >= documentBase)
            && (DistinctDocuments(layout) ==> forall i :: 0 <= i < |layout| ==> ds'[layout[i].document].title == LabelOf(layout[i]))
            && (forall i, k :: 0 <= i < |layout| && 0 <= k < |layout[i].files| ==>
                  fs'[layout[i].files[k]].document == layout[i].document && fs'[layout[i].files[k]].order >= fileBase)
  {
    if layout != [] {
      var n := |layout| - 1;
      var rest := layout[..n];
      if n > 0 { WellFormedPrefix(layout, n); }
      assert forall i :: 0 <= i < n ==> rest[i] == layout[i];
      AsidePlaces(ds, fs, rest, documentBase, fileBase);
      AsidePlacesLast(ds, fs, layout, documentBase, fileBase);
    }
  }

  lemma AsidePlacesLast(ds: map<Id, Document>, fs: map<Id, File>, layout: seq<Entry>, documentBase: int, fileBase: int)
    requires WellFormed(layout) && AllKnown(ds, fs, layout)
    requires var n := |layout| - 1;
             var rest := FilesAside(fs, layout[..n], fileBase);
             SameFiles(fs, rest) && forall i, k :: 0 <= i < n && 0 <= k < |layout[i].files| ==>
               rest[layout[i].files[k]].document == layout[i].document && rest[layout[i].files[k]].order >= fileBase
    ensures var fs' := FilesAside(fs, layout, fileBase);
            && SameFiles(fs, fs')
            && forall i, k :: 0 <= i < |layout| && 0 <= k < |layout[i].files| ==>
                 fs'[layout[i].files[k]].document == layout[i].document && fs'[layout[i].files[k]].order >= fileBase
  {
    hide WellFormed, AllKnown, Placed, FilesAside;
    SomethingListed(layout);
    var n := |layout| - 1;
    var fs' := FilesAside(fs, layout, fileBase);
    PlacedKeepsFiles(fs, layout, fileBase);
    forall i, k | 0 <= i < |layout| && 0 <= k < |layout[i].files|
      ensures layout[i].files[k] in fs'
      ensures fs'[layout[i].files[k]].document == layout[i].document && fs'[layout[i].files[k]].order >= fileBase
    {
      AsidePlacesAt(ds, fs, layout, fileBase, i, k);
    }
  }

  lemma PlacedKeepsFiles(fs: map<Id, File>, layout: seq<Entry>, base: int)
    requires layout != [] && SameFiles(fs, FilesAside(fs, layout[..|layout| - 1], base))
    ensures SameFiles(fs, FilesAside(fs, layout, base))
  {
  }

  lemma AsidePlacesAt(ds: map<Id, Document>, fs: map<Id, File>, layout: seq<Entry>, base: int, i: nat, k: nat)
    requires WellFormed(layout) && AllKnown(ds, fs, layout) && i < |layout| && k < |layout[i].files|
    requires var rest := FilesAside(fs, layout[..|layout| - 1], base);
             && SameFiles(fs, rest)
             && (i < |layout| - 1 ==>
                   rest[layout[i].files[k]].document == layout[i].document && rest[layout[i].files[k]].order >= base)
    ensures var fs' := FilesAside(fs, layout, base);
            && layout[i].files[k] in fs'
            && fs'[layout[i].files[k]].document == layout[i].document && fs'[layout[i].files[k]].order >= base
  {
    var n := |layout| - 1;
    var rest := FilesAside(fs, layout[..n], base);
    assert layout[i].files[k] in fs;
    EntryHasNoRepeats(layout, n);
    if i < n {
      LastFilesAreNew(layout, n);
      assert layout[..n][i] == layout[i];
      assert layout[i].files[k] in FilesIn(layout[..n]);
    } else {
      PlacedAt(rest, layout[n].files, layout[n].document, base + Listed(layout[..n]), k);
    }
  }

  // ---- what phase two leaves -------------------------------------------------------------------------

  predicate StandsHigh(fs: map<Id, File>, f: Id, document: Id, above: int) {
    f in fs && fs[f].document == document && fs[f].order >= above
  }

  /** Other files of the entry's document stand above its final numbers. */
  predicate LeavesRoom(fs: map<Id, File>, e: Entry) {
    forall f :: f in fs && f !in e.files && fs[f].document == e.document ==> fs[f].order >= |e.files|
  }

  lemma FirstPlaceTaken(fs: map<Id, File>, e: Entry)
    requires |e.files| > 0
    ensures (exists f :: f in fs && f !in e.files && fs[f].document == e.document && fs[f].order == 0) ==>
              PlaceTaken(fs, e.files[0], e.document, 0)
  {
  }

  lemma PlacedAtFront(fs: map<Id, File>, e: Entry, k: nat)
    requires NoRepeats(e.files) && k < |e.files|
    requires forall j :: 0 <= j < |e.files| ==> StandsHigh(fs, e.files[j], e.document, |e.files|)
    ensures var placed := Placed(fs, e.files[..k], e.document, 0);
            && e.files[k] in placed && e.files[k] in fs && placed[e.files[k]] == fs[e.files[k]]
            && (LeavesRoom(fs, e) ==> !PlaceTaken(placed, e.files[k], e.document, k))
  {
    var placed := Placed(fs, e.files[..k], e.document, 0);
    assert StandsHigh(fs, e.files[k], e.document, |e.files|);
    assert e.files[k] !in e.files[..k];
    if LeavesRoom(fs, e) {
      forall x | x in placed && x != e.files[k] && placed[x].document == e.document
        ensures placed[x].order != k
      {
        if x in e.files && x !in e.files[..k] {
          var j :| 0 <= j < |e.files| && e.files[j] == x;
          assert StandsHigh(fs, e.files[j], e.document, |e.files|);
        }
      }
    }
  }

  /** After phase one and the removal of empty documents. */
  predicate Staged(ds: map<Id, Document>, fs: map<Id, File>, layout: seq<Entry>) {
    && fs.Keys == FilesIn(layout) && ds.Keys == (set i | 0 <= i < |layout| :: layout[i].document)
    && (forall d :: d in ds ==> ds[d].order >= |layout|)
    && (forall i, k :: 0 <= i < |layout| && 0 <= k < |layout[i].files| ==>
          StandsHigh(fs, layout[i].files[k], layout[i].document, |fs|))
  }

  function DocumentsNumbered(ds: map<Id, Document>, layout: seq<Entry>): (r: map<Id, Document>)
    ensures ds.Keys <= r.Keys
  {
    if layout == [] then ds
    else
      var n := |layout| - 1;
      var rest := DocumentsNumbered(ds, layout[..n]);
      rest[layout[n].document := Document(n, if layout[n].document in rest then rest[layout[n].document].title else None)]
  }

  function FilesNumbered(fs: map<Id, File>, layout: seq<Entry>): map<Id, File> {
    if layout == [] then fs
    else
      var n := |layout| - 1;
      Placed(FilesNumbered(fs, layout[..n]), layout[n].files, layout[n].document, 0)
  }

  lemma DistinctOneMore(layout: seq<Entry>, i: nat)
    requires i < |layout| && DistinctDocuments(layout[..i])
    ensures DistinctDocuments(layout[..i + 1]) <==> forall a :: 0 <= a < i ==> layout[a].document != layout[i].document
    ensures DistinctDocuments(layout) ==> DistinctDocuments(layout[..i + 1])
  {
    var longer := layout[..i + 1];
    assert forall a :: 0 <= a < i ==> longer[a] == layout[a];
    assert longer[i] == layout[i];
    assert forall a, b :: 0 <= a < b < i ==> layout[..i][a] == longer[a] && layout[..i][b] == longer[b];
  }

  lemma {:induction false} NumberedDocuments(ds: map<Id, Document>, layout: seq<Entry>)
    requires DistinctDocuments(layout) && forall i :: 0 <= i < |layout| ==> layout[i].document in ds
    ensures var ds' := DocumentsNumbered(ds, layout);
            && ds'.Keys == ds.Keys
            && (forall i :: 0 <= i < |layout| ==> ds'[layout[i].document] == ds[layout[i].document].(order := i))
            && forall d :: d in ds && (forall i :: 0 <= i < |layout| ==> layout[i].document != d) ==> ds'[d] == ds[d]
  {
    if layout != [] {
      var n := |layout| - 1;
      var rest := layout[..n];
      assert forall i :: 0 <= i < n ==> rest[i] == layout[i];
      NumberedDocuments(ds, rest);
    }
  }

  /** Until the whole layout is numbered, a file of a later entry is where phase one put it, one of an earlier entry in place. */
  lemma {:induction false} NumberedFiles(fs: map<Id, File>, layout: seq<Entry>, n: nat, i: nat, k: nat)
    requires WellFormed(layout) && n <= |layout| && i < |layout| && k < |layout[i].files| && FilesIn(layout) <= fs.Keys
    requires fs[layout[i].files[k]].document == layout[i].document
    ensures var fs', f := FilesNumbered(fs, layout[..n]), layout[i].files[k];
            fs'.Keys == fs.Keys && fs'[f] == if i < n then fs[f].(order := k) else fs[f]
  {
    assert layout[i].files[k] in FilesIn(layout);
    if n > 0 {
      var m := n - 1;
      assert layout[..n][..m] == layout[..m];
      NumberedFiles(fs, layout, m, i, k);
      EntryHasNoRepeats(layout, m);
      var rest := FilesNumbered(fs, layout[..m]);
      if i == m {
        PlacedAt(rest, layout[m].files, layout[m].document, 0, k);
      }
    }
  }

  lemma NumberIsFree(ds: map<Id, Document>, fs: map<Id, File>, layout: seq<Entry>, i: nat)
    requires Staged(ds, fs, layout) && i < |layout| && DistinctDocuments(layout[..i])
    ensures var ds' := DocumentsNumbered(ds, layout[..i]);
            layout[i].document in ds' && !OrderTaken(ds', layout[i].document, i)
  {
    assert forall a :: 0 <= a < |layout| ==> layout[a].document in ds;
    NumberedDocuments(ds, layout[..i]);
    var ds' := DocumentsNumbered(ds, layout[..i]);
    forall d | d in ds'
      ensures ds'[d].order != i
    {
      if a :| 0 <= a < i && layout[..i][a].document == d {
        assert ds'[d].order == a;
      } else {
        assert ds'[d] == ds[d];
      }
    }
  }

  lemma RoomForEntry(ds: map<Id, Document>, fs: map<Id, File>, layout: seq<Entry>, i: nat)
    requires WellFormed(layout) && Staged(ds, fs, layout) && i < |layout|
    ensures var fs', e := FilesNumbered(fs, layout[..i]), layout[i];
            && (forall k :: 0 <= k < |e.files| ==> StandsHigh(fs', e.files[k], e.document, |e.files|))
            && ((forall a :: 0 <= a < i ==> layout[a].document != e.document) ==> LeavesRoom(fs', e))
            && ((exists a :: 0 <= a < i && layout[a].document == e.document) ==>
                  exists f :: f in fs' && f !in e.files && fs'[f].document == e.document && fs'[f].order == 0)
  {
    var fs', e := FilesNumbered(fs, layout[..i]), layout[i];
    EntryIsSmall(fs, layout, i);
    forall a, k | 0 <= a < |layout| && 0 <= k < |layout[a].files|
      ensures layout[a].files[k] in fs' && fs'[layout[a].files[k]].document == layout[a].document
      ensures fs'[layout[a].files[k]].order == if a < i then k else fs[layout[a].files[k]].order
      ensures StandsHigh(fs, layout[a].files[k], layout[a].document, |fs|)
    {
      NumberedFiles(fs, layout, i, a, k);
    }
    EntryHasNoRepeats(layout, i);
    NumberedFiles(fs, layout, i, i, 0);
    if forall a :: 0 <= a < i ==> layout[a].document != e.document {
      forall f | f in fs' && f !in e.files && fs'[f].document == e.document
        ensures fs'[f].order >= |e.files|
      {
        assert f in FilesIn(layout);
        var a, k :| 0 <= a < |layout| && 0 <= k < |layout[a].files| && layout[a].files[k] == f;
        assert StandsHigh(fs, layout[a].files[k], layout[a].document, |fs|);
      }
    }
    if exists a :: 0 <= a < i && layout[a].document == e.document {
      var a :| 0 <= a < i && layout[a].document == e.document;
      EntryHasNoRepeats(layout, a);
      assert layout[a].files[0] !in e.files;
    }
  }

  lemma EntryIsSmall(fs: map<Id, File>, layout: seq<Entry>, i: nat)
    requires WellFormed(layout) && i < |layout| && FilesIn(layout) <= fs.Keys
    ensures |layout[i].files| <= |fs|
  {
    var own := set f | f in layout[i].files;
    EntryHasNoRepeats(layout, i);
    DistinctCount(layout[i].files, own);
    assert own <= FilesIn(layout);
    SubsetSize(own, fs.Keys);
    assert |fs| == |fs.Keys|;
  }

  // ---- the replacement as a whole -----------------------------------------------------------------------

  predicate HasFile(fs: map<Id, File>, d: Id) { exists f :: f in fs && fs[f].document == d }

  method CountListed(layout: seq<Entry>) returns (listed: nat)
    ensures listed == Listed(layout)
  {
    listed := 0;
    for i := 0 to |layout|
      invariant listed == Listed(layout[..i])
    {
      assert layout[..i + 1][..i] == layout[..i];
      listed := listed + |layout[i].files|;
    }
    assert layout[..|layout|] == layout;
  }

  lemma OneMax(s: set<int>, m: int)
    requires IsMax(s, m)
    ensures m == MaxOf(s)
  {
  }

  method HighestDocument(ds: map<Id, Document>) returns (m: int)
    requires forall d :: d in ds ==> ds[d].order >= 0
    ensures m == MaxOf(DocumentOrders(ds))
  {
    m := -1;
    var rest := ds.Keys;
    while rest != {}
      invariant rest <= ds.Keys
      invariant m == -1 ==> rest == ds.Keys
      invariant m != -1 ==> exists d :: d in ds && ds[d].order == m
      invariant forall d :: d in ds.Keys - rest ==> ds[d].order <= m
      decreases |rest|
    {
      var d := Least(rest);
      if ds[d].order > m { m := ds[d].order; }
      rest := rest - {d};
    }
    forall d | d in ds
      ensures ds[d].order in DocumentOrders(ds)
    {
    }
    OneMax(DocumentOrders(ds), m);
  }

  method HighestFile(fs: map<Id, File>) returns (m: int)
    requires forall f :: f in fs ==> fs[f].order >= 0
    ensures m == MaxOf(FileOrders(fs))
  {
    m := -1;
    var rest := fs.Keys;
    while rest != {}
      invariant rest <= fs.Keys
      invariant m == -1 ==> rest == fs.Keys
      invariant m != -1 ==> exists f :: f in fs && fs[f].order == m
      invariant forall f :: f in fs.Keys - rest ==> fs[f].order <= m
      decreases |rest|
    {
      var f := Least(rest);
      if fs[f].order > m { m := fs[f].order; }
      rest := rest - {f};
    }
    forall f | f in fs
      ensures fs[f].order in FileOrders(fs)
    {
    }
    OneMax(FileOrders(fs), m);
  }

  lemma BasesAreHigh(ds: map<Id, Document>, fs: map<Id, File>, layout: seq<Entry>)
    requires (forall d :: d in ds ==> ds[d].order >= 0) && (forall f :: f in fs ==> fs[f].order >= 0)
    ensures DocumentBase(ds, layout) >= |layout| && FileBase(fs) >= |fs|
    ensures forall d :: d in ds ==> ds[d].order < DocumentBase(ds, layout)
    ensures forall f :: f in fs ==> fs[f].order < FileBase(fs)
  {
    forall d | d in ds
      ensures ds[d].order in DocumentOrders(ds)
    {
    }
    forall f | f in fs
      ensures fs[f].order in FileOrders(fs)
    {
    }
  }

  lemma SomeKeepTheKey(ds: map<Id, Document>, fs: map<Id, File>)
    requires DocumentKey(ds)
    ensures DocumentKey(map d | d in ds && HasFile(fs, d) :: ds[d])
  {
  }

  lemma KnownFiles(ds: map<Id, Document>, fs: map<Id, File>, layout: seq<Entry>)
    requires AllKnown(ds, fs, layout)
    ensures FilesIn(layout) <= fs.Keys
  {
  }

  /** With every file moved, exactly the listed documents still have files. */
  lemma StagedAside(ds: map<Id, Document>, fs: map<Id, File>, layout: seq<Entry>)
    requires WellFormed(layout) && AllKnown(ds, fs, layout) && Listed(layout) == |fs|
    requires (forall d :: d in ds ==> ds[d].order >= 0) && (forall f :: f in fs ==> fs[f].order >= 0)
    ensures var ds', fs' := DocumentsAside(ds, layout, DocumentBase(ds, layout)), FilesAside(fs, layout, FileBase(fs));
            Staged(map d | d in ds' && HasFile(fs', d) :: ds'[d], fs', layout)
  {
    BasesAreHigh(ds, fs, layout);
    var ds', fs' := DocumentsAside(ds, layout, DocumentBase(ds, layout)), FilesAside(fs, layout, FileBase(fs));
    AsidePlaces(ds, fs, layout, DocumentBase(ds, layout), FileBase(fs));
    KnownFiles(ds, fs, layout);
    EveryFileIsListed(fs, layout);
    SameSize(fs, fs');
    hide DocumentsAside, FilesAside, DocumentBase, FileBase, SameFiles, AllKnown, WellFormed, Listed;
    var kept := map d | d in ds' && HasFile(fs', d) :: ds'[d];
    forall d
      ensures d in kept <==> exists i :: 0 <= i < |layout| && layout[i].document == d
    {
      if d in kept {
        var f :| f in fs' && fs'[f].document == d;
        assert f in FilesIn(layout);
      }
      if i :| 0 <= i < |layout| && layout[i].document == d {
        EntryHasNoRepeats(layout, i);
        assert fs'[layout[i].files[0]].document == d;
      }
    }
  }

  lemma ArriveDocuments(
    ds: map<Id, Document>, fs: map<Id, File>, layout: seq<Entry>, staged: map<Id, Document>, moved: map<Id, File>)
    requires WellFormed(layout) && AllKnown(ds, fs, layout) && DistinctDocuments(layout) && Staged(staged, moved, layout)
    requires var aside := DocumentsAside(ds, layout, DocumentBase(ds, layout));
             staged == map d | d in aside && HasFile(moved, d) :: aside[d]
    ensures var ds' := DocumentsNumbered(staged, layout);
            && ds'.Keys == (set i | 0 <= i < |layout| :: layout[i].document) && ds'.Keys <= ds.Keys
            && forall i :: 0 <= i < |layout| ==> ds'[layout[i].document] == Document(i, LabelOf(layout[i]))
  {
    hide HasFile, WellFormed, DocumentBase, FilesAside;
    AsidePlaces(ds, fs, layout, DocumentBase(ds, layout), 0);
    hide AllKnown, SameFiles;
    NumberedDocuments(staged, layout);
  }

  lemma ArriveFiles(fs: map<Id, File>, layout: seq<Entry>, moved: map<Id, File>)
    requires WellFormed(layout) && moved.Keys == FilesIn(layout) && SameFiles(fs, moved)
    requires forall i, k :: 0 <= i < |layout| && 0 <= k < |layout[i].files| ==>
               layout[i].files[k] in moved && moved[layout[i].files[k]].document == layout[i].document
    ensures var fs' := FilesNumbered(moved, layout);
            && fs'.Keys == FilesIn(layout) && SameFiles(fs, fs')
            && forall i, k :: 0 <= i < |layout| && 0 <= k < |layout[i].files| ==>
                 var f := layout[i].files[k]; f in fs' && fs'[f].document == layout[i].document && fs'[f].order == k
  {
    var fs' := FilesNumbered(moved, layout);
    assert layout[..|layout|] == layout;
    hide FilesNumbered;
    SomethingListed(layout);
    EntryHasNoRepeats(layout, 0);
    NumberedFiles(moved, layout, |layout|, 0, 0);
    forall i, k | 0 <= i < |layout| && 0 <= k < |layout[i].files|
      ensures layout[i].files[k] in fs' && fs'[layout[i].files[k]] == moved[layout[i].files[k]].(order := k)
    {
      NumberedFiles(moved, layout, |layout|, i, k);
    }
    hide WellFormed;
    forall f | f in fs
      ensures fs'[f] == fs[f].(document := fs'[f].document, order := fs'[f].order)
    {
      assert f in FilesIn(layout);
      var i, k :| 0 <= i < |layout| && 0 <= k < |layout[i].files| && layout[i].files[k] == f;
      assert fs'[layout[i].files[k]] == moved[layout[i].files[k]].(order := k);
    }
  }

  lemma StagedPlaces(ds: map<Id, Document>, fs: map<Id, File>, layout: seq<Entry>)
    requires Staged(ds, fs, layout)
    ensures fs.Keys == FilesIn(layout)
    ensures forall i, k :: 0 <= i < |layout| && 0 <= k < |layout[i].files| ==>
              layout[i].files[k] in fs && fs[layout[i].files[k]].document == layout[i].document
  {
    forall i, k | 0 <= i < |layout| && 0 <= k < |layout[i].files|
      ensures layout[i].files[k] in fs && fs[layout[i].files[k]].document == layout[i].document
    {
      assert StandsHigh(fs, layout[i].files[k], layout[i].document, |fs|);
    }
  }

  lemma LaidOutIsSound(fileCount: nat, ds: map<Id, Document>, fs: map<Id, File>, layout: seq<Entry>)
    requires LaidOut(ds, fs, layout) && DocumentKey(ds) && FileKey(fs) && |fs| <= fileCount && |layout| <= fileCount
    ensures Sound(fileCount, ds, fs)
  {
    hide DocumentKey, FileKey;
    forall f | f in fs
      ensures 0 <= fs[f].order && fs[f].document in ds
    {
      assert f in FilesIn(layout);
      var i, k :| 0 <= i < |layout| && 0 <= k < |layout[i].files| && layout[i].files[k] == f;
      assert fs[layout[i].files[k]].document == layout[i].document && fs[layout[i].files[k]].order == k;
    }
    forall d | d in ds
      ensures 0 <= ds[d].order < fileCount
    {
      var i :| 0 <= i < |layout| && layout[i].document == d;
      assert ds[layout[i].document] == Document(i, LabelOf(layout[i]));
    }
  }

  /** The numbered tables are what the layout asks for, and the batch stays sound. */
  lemma Arrives(
    ds: map<Id, Document>, fs: map<Id, File>, layout: seq<Entry>, staged: map<Id, Document>, moved: map<Id, File>,
    fileCount: nat)
    requires WellFormed(layout) && AllKnown(ds, fs, layout) && Listed(layout) == |fs| && DistinctDocuments(layout)
    requires |fs| <= fileCount && moved == FilesAside(fs, layout, FileBase(fs)) && Staged(staged, moved, layout)
    requires var aside := DocumentsAside(ds, layout, DocumentBase(ds, layout));
             staged == map d | d in aside && HasFile(moved, d) :: aside[d]
    requires DocumentKey(DocumentsNumbered(staged, layout)) && FileKey(FilesNumbered(moved, layout))
    ensures var ds', fs' := DocumentsNumbered(staged, layout), FilesNumbered(moved, layout);
            LaidOut(ds', fs', layout) && SameFiles(fs, fs') && Sound(fileCount, ds', fs')
  {
    hide HasFile, DocumentsAside, FilesAside, DocumentBase, FileBase, DocumentsNumbered, FilesNumbered, DocumentKey, FileKey,
      WellFormed, AllKnown, Staged, DistinctDocuments, Sound, SameFiles, FilesIn, Listed, LabelOf;
    var ds', fs' := DocumentsNumbered(staged, layout), FilesNumbered(moved, layout);
    ListedCount(layout);
    AsidePlaces(ds, fs, layout, DocumentBase(ds, layout), FileBase(fs));
    StagedPlaces(staged, moved, layout);
    ArriveDocuments(ds, fs, layout, staged, moved);
    ArriveFiles(fs, layout, moved);
    assert forall i :: 0 <= i < |layout| ==> layout[i].document in ds';
    SameSize(fs, fs');
    LaidOutIsSound(fileCount, ds', fs', layout);
  }

  lemma SameSize(fs: map<Id, File>, fs': map<Id, File>)
    requires fs'.Keys == fs.Keys
    ensures |fs'| == |fs|
  {
    assert |fs'| == |fs'.Keys| && |fs| == |fs.Keys|;
  }

  function TotalBytes(fs: map<Id, File>): nat
    decreases |fs|
  {
    if fs == map[] then 0
    else
      assert fs.Keys != {};
      var f := Least(fs.Keys);
      fs[f].bytes + TotalBytes(fs - {f})
  }

  method TemporarySortOrder(base: int, index: int) returns (r: Result<int, Error>)
    ensures r == if base < 0 || index < 0 || base + index > MAX_INT32 then Failure(Invalid) else Success(base + index)
  {
    if base < 0 || index < 0 || base > MAX_INT32 - index { return Failure(Invalid); }
    r := Success(base + index);
  }

  // ---- the service ---------------------------------------------------------------------------------

  predicate AcceptableEntry(e: Entry) {
    e.document != 0 && 0 < |e.files| <= MAX_PAGES && forall k :: 0 <= k < |e.files| ==> e.files[k] != 0
  }

  /** What the service lets through to the store. */
  predicate Acceptable(layout: seq<Entry>) {
    |layout| <= MAX_FILES && WellFormed(layout) && forall i :: 0 <= i < |layout| ==> AcceptableEntry(layout[i])
  }

  /** No file is placed twice by the first `n` entries. */
  predicate DistinctUpTo(layout: seq<Entry>, n: nat) {
    forall i, j, k, l ::
      (0 <= i < n && 0 <= j < n && i < |layout| && j < |layout| && 0 <= k < |layout[i].files| && 0 <= l < |layout[j].files|
       && layout[i].files[k] == layout[j].files[l]) ==> i == j && k == l
  }

  method CheckEntry(e: Entry, seen: set<Id>) returns (ok: bool, longer: set<Id>)
    ensures ok <==> AcceptableEntry(e) && NoRepeats(e.files) && forall k :: 0 <= k < |e.files| ==> e.files[k] !in seen
    ensures ok ==> longer == seen + set f | f in e.files
  {
    longer := seen;
    if e.document == 0 || |e.files| == 0 || |e.files| > MAX_PAGES { return false, longer; }
    for k := 0 to |e.files|
      invariant longer == seen + set f | f in e.files[..k]
      invariant NoRepeats(e.files[..k]) && forall l :: 0 <= l < k ==> e.files[l] != 0 && e.files[l] !in seen
    {
      var f := e.files[k];
      if f == 0 { return false, longer; }
      if f in longer {
        if f !in seen {
          var l :| 0 <= l < k && e.files[..k][l] == f;
          assert e.files[l] == e.files[k];
        }
        return false, longer;
      }
      assert e.files[..k + 1] == e.files[..k] + [f];
      longer := longer + {f};
    }
    assert e.files[..|e.files|] == e.files;
    ok := true;
  }

  lemma DistinctOneEntryMore(layout: seq<Entry>, n: nat)
    requires n < |layout| && DistinctUpTo(layout, n)
    ensures DistinctUpTo(layout, n + 1) <==>
            NoRepeats(layout[n].files) && forall k :: 0 <= k < |layout[n].files| ==> layout[n].files[k] !in FilesIn(layout[..n])
  {
    var rest := layout[..n];
    assert forall i :: 0 <= i < n ==> rest[i] == layout[i];
    if DistinctUpTo(layout, n + 1) {
      forall k, f | 0 <= k < |layout[n].files| && f in FilesIn(rest)
        ensures layout[n].files[k] != f
      {
        var i, l :| 0 <= i < |rest| && 0 <= l < |rest[i].files| && rest[i].files[l] == f;
        assert layout[i].files[l] == f;
      }
    } else {
      assert forall i, k :: 0 <= i < n && 0 <= k < |layout[i].files| ==> rest[i].files[k] in FilesIn(rest);
    }
  }

  method CheckLayout(layout: seq<Entry>) returns (ok: bool)
    ensures ok <==> Acceptable(layout)
  {
    if |layout| == 0 || |layout| > MAX_FILES { return false; }
    var seen: set<Id> := {};
    for i := 0 to |layout|
      invariant seen == FilesIn(layout[..i]) && DistinctUpTo(layout, i)
      invariant forall j :: 0 <= j < i ==> AcceptableEntry(layout[j])
    {
      hide DistinctUpTo, FilesIn, AcceptableEntry, NoRepeats;
      assert layout[..i + 1][..i] == layout[..i];
      FilesInOneMore(layout[..i + 1], i);
      DistinctOneEntryMore(layout, i);
      var good;
      good, seen := CheckEntry(layout[i], seen);
      if !good {
        AcceptableMeans(layout, i);
        return false;
      }
    }
    AcceptableMeans(layout, |layout|);
    ok := true;
  }

  lemma AcceptableMeans(layout: seq<Entry>, n: nat)
    requires n <= |layout|
    ensures Acceptable(layout) ==> forall i :: 0 <= i < |layout| ==> AcceptableEntry(layout[i])
    ensures Acceptable(layout) && n < |layout| ==> DistinctUpTo(layout, n + 1)
    ensures (0 < |layout| <= MAX_FILES && DistinctUpTo(layout, |layout|)
             && forall i :: 0 <= i < |layout| ==> AcceptableEntry(layout[i])) ==> Acceptable(layout)
  {
  }

  method ReplaceLayout(batch: Batch, layout: seq<Entry>) returns (r: Result<(), Error>)
    requires batch.Valid()
    modifies batch
    ensures batch.Valid()
    ensures r.Success? <==> Acceptable(layout) && Applicable(batch.status, old(batch.documents), old(batch.files), layout)
    ensures r.Success? ==> LaidOut(batch.documents, batch.files, layout) && SameFiles(old(batch.files), batch.files)
    ensures r.Failure? ==> batch.documents == old(batch.documents) && batch.files == old(batch.files)
  {
    hide Applicable, LaidOut, SameFiles;
    var ok := CheckLayout(layout);
    if !ok { return Failure(Invalid); }
    r := batch.ReplaceDocumentLayout(layout);
  }
}
