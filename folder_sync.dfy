/**
 * The folder-to-catalogue sync script (src/sync-dataset-from-folders.ts):
 * get-or-create the dataset named "main", then, in one transaction, walk
 * every sub-folder of the dataset root and every image file in it, find
 * the image row by (country, file name) or else by absolute path, insert
 * a minimal row when both miss, and link the image to the dataset unless
 * it is linked already. Directory listings are parameters; `path.join` is
 * concatenation with `/`.
 */
module FolderSync {
  import opened Wrappers
  import opened Strings
  import opened Records
  import opened Catalog

  const MainDataset: string := "main"
  const MainDescription: string := "Main dataset synced from folder structure"
  const UrlConflict: string := "UNIQUE constraint failed: images.url"
  const SyncImageExtensions: set<string> := {".jpg", ".jpeg", ".png", ".webp"}

  /**
   * `isImageFile`: the lower-cased extension is one of the four image
   * extensions, so the name ends with a '.' suffix that lower-cases to one
   * of them.
   */
  predicate IsImageFile(file: string)
    ensures IsImageFile(file) ==> exists k :: 0 <= k < |file| && file[k] == '.' && ToLowerAscii(file[k..]) in SyncImageExtensions
  {
    var e := Extname(file);
    if ToLowerAscii(e) in SyncImageExtensions then
      assert file[|file| - |e|..] == e;
      true
    else false
  }

  /** Each of the four extensions is a '.' followed by letters only. */
  lemma SyncExtensionShape(low: string)
    requires low in SyncImageExtensions
    ensures |low| >= 4 && low[0] == '.'
    ensures forall k :: 0 < k < |low| ==> 'a' <= low[k] <= 'z'
  {
  }

  /** An extension that lower-cases to one of the four has the same shape. */
  lemma ExtensionShape(ext: string)
    requires ToLowerAscii(ext) in SyncImageExtensions
    ensures |ext| >= 4 && ext[0] == '.'
    ensures forall k :: 0 < k < |ext| ==> ext[k] != '.' && ext[k] != '/'
  {
    var low := ToLowerAscii(ext);
    SyncExtensionShape(low);
    assert low[0] == ToLowerChar(ext[0]);
  }

  /**
   * A file whose extension lower-cases to one of the four is an image file,
   * whatever its stem and whatever the case of the extension.
   */
  lemma ImageFileByExtension(stem: string, ext: string)
    requires |stem| > 0 && '/' !in stem
    requires ToLowerAscii(ext) in SyncImageExtensions
    ensures IsImageFile(stem + ext)
  {
    ExtensionShape(ext);
    var p := stem + ext;
    assert forall k :: 0 <= k < |p| ==> p[k] != '/' by {
      forall k | 0 <= k < |p| ensures p[k] != '/' {
        if k < |stem| { assert p[k] in stem; } else { assert p[k] == ext[k - |stem|]; }
      }
    }
    assert Basename(p) == p;
    assert p[|stem|] == '.';
    assert LastIndexOf(p, '.') == |stem|;
    assert p[|stem|..] == ext;
    assert Extname(p) == ext;
  }

  /** A file name without a '.' has no extension and is never synced. */
  lemma NoExtensionIsNotImage(file: string)
    requires '.' !in file
    ensures !IsImageFile(file)
  {
    var b := Basename(file);
    assert '.' !in b;
  }

  // ---------------------------------------------------------------------
  // ensureDataset
  // ---------------------------------------------------------------------

  /** No dataset before position `i` is called `name`. */
  predicate NoDatasetNamedBefore(datasets: seq<Dataset>, name: string, i: int)
    requires i <= |datasets|
  {
    forall j :: 0 <= j < i ==> datasets[j].name != name
  }

  /** `SELECT id FROM datasets WHERE name = ?` with `.get`: the first row of that name. */
  function FirstDatasetNamed(datasets: seq<Dataset>, name: string): (r: Option<nat>)
    ensures r.Some? ==> exists i :: 0 <= i < |datasets| && datasets[i].name == name && datasets[i].id == r.value && NoDatasetNamedBefore(datasets, name, i)
    ensures r.None? <==> forall i :: 0 <= i < |datasets| ==> datasets[i].name != name
    decreases |datasets|
  {
    if |datasets| == 0 then None
    else if datasets[0].name == name then Some(datasets[0].id)
    else
      var r := FirstDatasetNamed(datasets[1..], name);
      assert forall i :: 1 <= i < |datasets| ==> datasets[i] == datasets[1..][i - 1];
      r
  }

  lemma {:induction false} FirstDatasetNamedAppend(datasets: seq<Dataset>, d: Dataset, name: string)
    ensures FirstDatasetNamed(datasets + [d], name) ==
      (if FirstDatasetNamed(datasets, name).Some? then FirstDatasetNamed(datasets, name)
       else if d.name == name then Some(d.id) else None)
    decreases |datasets|
  {
    if |datasets| > 0 {
      assert (datasets + [d])[1..] == datasets[1..] + [d];
      FirstDatasetNamedAppend(datasets[1..], d, name);
    }
  }

  /** The dataset table after `ensureDataset`, and the id it returned. */
  datatype DatasetEnsured = DatasetEnsured(datasets: seq<Dataset>, nextId: nat, id: nat)

  /** `ensureDataset`: the id of the dataset named "main" when non-zero, otherwise a new row for it. */
  function EnsureDataset(datasets: seq<Dataset>, nextId: nat, root: string): (e: DatasetEnsured)
    ensures |datasets| <= |e.datasets| && e.datasets[..|datasets|] == datasets
    ensures exists i :: 0 <= i < |e.datasets| && e.datasets[i].name == MainDataset && e.datasets[i].id == e.id
    ensures DatasetsWellFormed(datasets, nextId) ==> DatasetsWellFormed(e.datasets, e.nextId) && e.id >= 1
    ensures FirstDatasetNamed(datasets, MainDataset).Some? && FirstDatasetNamed(datasets, MainDataset).value != 0 ==>
              e.datasets == datasets && e.nextId == nextId && e.id == FirstDatasetNamed(datasets, MainDataset).value
    ensures !(FirstDatasetNamed(datasets, MainDataset).Some? && FirstDatasetNamed(datasets, MainDataset).value != 0) ==>
              e.datasets == datasets + [Dataset(nextId, MainDataset, MainDescription, root)] &&
              e.nextId == nextId + 1 && e.id == nextId
  {
    var found := FirstDatasetNamed(datasets, MainDataset);
    if found.Some? && found.value != 0 then DatasetEnsured(datasets, nextId, found.value)
    else
      var e := DatasetEnsured(datasets + [Dataset(nextId, MainDataset, MainDescription, root)], nextId + 1, nextId);
      assert e.datasets[|datasets|].name == MainDataset;
      e
  }

  /** Get-or-create: a second call returns the same id and inserts nothing, whatever root it is given. */
  lemma EnsureDatasetIdempotent(datasets: seq<Dataset>, nextId: nat, root: string, root2: string)
    requires DatasetsWellFormed(datasets, nextId)
    ensures var e := EnsureDataset(datasets, nextId, root);
      EnsureDataset(e.datasets, e.nextId, root2) == e
  {
    var found := FirstDatasetNamed(datasets, MainDataset);
    FirstDatasetNamedAppend(datasets, Dataset(nextId, MainDataset, MainDescription, root), MainDataset);
    if found.Some? {
      assert found.value != 0;
    }
  }

  method EnsureMainDataset(db: CatalogDb, root: string) returns (id: nat)
    requires db.Valid()
    modifies db
    ensures db.Valid()
    ensures EnsureDataset(old(db.datasets), old(db.nextDatasetId), root) == DatasetEnsured(db.datasets, db.nextDatasetId, id)
    ensures db.images == old(db.images) && db.nextImageId == old(db.nextImageId)
    ensures db.links == old(db.links) && db.nextLinkId == old(db.nextLinkId)
    ensures db.labelRows == old(db.labelRows) && db.imageLabels == old(db.imageLabels)
  {
    var found := FirstDatasetNamed(db.datasets, MainDataset);
    if found.Some? && found.value != 0 {
      id := found.value;
    } else {
      id := db.nextDatasetId;
      db.SetDatasets(db.datasets + [Dataset(id, MainDataset, MainDescription, root)], db.nextDatasetId + 1);
    }
  }

  // ---------------------------------------------------------------------
  // The directory listing
  // ---------------------------------------------------------------------

  /** An entry of a directory listing (`readdirSync(..., { withFileTypes: true })`). */
  datatype Entry = Entry(name: string, isFile: bool)

  /** An entry of the dataset root: a name, whether it is a directory, and its own listing. */
  datatype RootEntry = RootEntry(name: string, isDirectory: bool, entries: seq<Entry>)

  /** The names of the image files of a listing, in listing order. */
  function ImageFileNames(entries: seq<Entry>): (r: seq<string>)
    ensures forall k :: 0 <= k < |r| ==> IsImageFile(r[k])
    ensures forall n :: n in r <==> Entry(n, true) in entries && IsImageFile(n)
    decreases |entries|
  {
    if |entries| == 0 then []
    else
      var init := entries[..|entries| - 1];
      var e := entries[|entries| - 1];
      assert entries == init + [e];
      ImageFileNames(init) + (if e.isFile && IsImageFile(e.name) then [e.name] else [])
  }

  /** The sub-folders of the root, in listing order: every directory and nothing else. */
  function Folders(listing: seq<RootEntry>): (r: seq<RootEntry>)
    ensures forall k :: 0 <= k < |r| ==> r[k].isDirectory
    ensures forall e :: e in r <==> e in listing && e.isDirectory
    decreases |listing|
  {
    if |listing| == 0 then []
    else
      var init := listing[..|listing| - 1];
      var e := listing[|listing| - 1];
      assert listing == init + [e];
      Folders(init) + (if e.isDirectory then [e] else [])
  }

  /** A file to sync: its folder and its name. */
  datatype Item = Item(folder: string, file: string)

  function FolderItems(folder: string, files: seq<string>): (r: seq<Item>)
    ensures |r| == |files|
    ensures forall k :: 0 <= k < |r| ==> r[k] == Item(folder, files[k])
  {
    seq(|files|, k requires 0 <= k < |files| => Item(folder, files[k]))
  }

  /** Every (folder, image file) pair, folder by folder, in listing order. */
  function Items(folders: seq<RootEntry>): seq<Item>
    decreases |folders|
  {
    if |folders| == 0 then []
    else
      Items(folders[..|folders| - 1]) + FolderFiles(folders[|folders| - 1])
  }

  /** The (folder, image file) pairs of one folder. */
  function FolderFiles(f: RootEntry): seq<Item> {
    FolderItems(f.name, ImageFileNames(f.entries))
  }

  /** `path.join(path.join(DATASET_ROOT, folder), fileName)`: the file inside its folder under the root. */
  function AbsPath(root: string, item: Item): (p: string)
    ensures StartsWith(p, JoinPath(root, item.folder) + "/") && EndsWith(p, item.file)
  {
    JoinPathParts(JoinPath(root, item.folder), item.file);
    JoinPath(JoinPath(root, item.folder), item.file)
  }

  // ---------------------------------------------------------------------
  // Lookups and one step of the transaction
  // ---------------------------------------------------------------------

  /** `SELECT id FROM images WHERE country = ? AND file_name = ?` with `.get`. */
  function FindByCountryFile(images: seq<CatalogImage>, country: string, file: string): (r: Option<nat>)
    ensures r.Some? ==> exists i :: 0 <= i < |images| && images[i].country == country && images[i].fileName == file && images[i].id == r.value
    ensures r.None? ==> forall i :: 0 <= i < |images| ==> !(images[i].country == country && images[i].fileName == file)
    decreases |images|
  {
    if |images| == 0 then None
    else
      var r := FindByCountryFile(images[..|images| - 1], country, file);
      var img := images[|images| - 1];
      assert forall i :: 0 <= i < |images| - 1 ==> images[i] == images[..|images| - 1][i];
      if r.Some? then r else if img.country == country && img.fileName == file then Some(img.id) else None
  }

  /** `SELECT id FROM images WHERE file_path = ?` with `.get`. */
  function FindByPath(images: seq<CatalogImage>, path: string): (r: Option<nat>)
    ensures r.Some? ==> exists i :: 0 <= i < |images| && images[i].filePath == path && images[i].id == r.value
    ensures r.None? ==> forall i :: 0 <= i < |images| ==> images[i].filePath != path
    decreases |images|
  {
    if |images| == 0 then None
    else
      var r := FindByPath(images[..|images| - 1], path);
      var img := images[|images| - 1];
      assert forall i :: 0 <= i < |images| - 1 ==> images[i] == images[..|images| - 1][i];
      if r.Some? then r else if img.filePath == path then Some(img.id) else None
  }

  /** An image row either query of `Lookup` can find for a file. */
  predicate Matches(img: CatalogImage, root: string, item: Item) {
    (img.country == item.folder && img.fileName == item.file) || img.filePath == AbsPath(root, item)
  }

  /** The image a file resolves to without inserting: by (country, file name), else by absolute path; a zero id counts as a miss. */
  function Lookup(images: seq<CatalogImage>, root: string, item: Item): (r: Option<nat>)
    ensures r.Some? ==> r.value != 0 && exists i :: 0 <= i < |images| && images[i].id == r.value && Matches(images[i], root, item)
    ensures (forall i :: 0 <= i < |images| ==> images[i].id != 0) ==>
      (r.None? <==> forall i :: 0 <= i < |images| ==> !Matches(images[i], root, item))
  {
    var byName := FindByCountryFile(images, item.folder, item.file);
    if byName.Some? && byName.value != 0 then byName
    else
      var byPath := FindByPath(images, AbsPath(root, item));
      if byPath.Some? && byPath.value != 0 then byPath else None
  }

  predicate UrlTaken(images: seq<CatalogImage>, url: string) {
    exists i :: 0 <= i < |images| && images[i].url == url
  }

  /** `SELECT id FROM dataset_images WHERE dataset_id = ? AND image_id = ?` finds a row. */
  predicate Linked(links: seq<DatasetLink>, datasetId: nat, imageId: nat) {
    exists k :: 0 <= k < |links| && links[k].datasetId == datasetId && links[k].imageId == imageId
  }

  /** What the transaction has built so far: the two tables, the counter and the "missing" report. */
  datatype SyncState = SyncState(
    images: seq<CatalogImage>,
    nextImageId: nat,
    links: seq<DatasetLink>,
    nextLinkId: nat,
    linkedCount: nat,
    missing: seq<Item>)

  predicate StateWellFormed(st: SyncState) {
    ImagesWellFormed(st.images, st.nextImageId) && LinksWellFormed(st.links, st.nextLinkId)
  }

  /** The minimal row inserted for a file that has none: url and file path are both the absolute path. */
  function NewImageRow(id: nat, root: string, item: Item): (row: CatalogImage)
    ensures row.id == id && row.url == row.filePath == AbsPath(root, item)
    ensures row.country == item.folder && row.fileName == item.file
    ensures row.downloadStatus == Downloaded && row.processStatus == Processed
    ensures Matches(row, root, item)
  {
    CatalogImage(id, AbsPath(root, item), item.file, AbsPath(root, item), item.folder, Downloaded, Processed)
  }

  /** Inserts the link unless the image is already linked to the dataset. */
  function LinkImage(st: SyncState, datasetId: nat, imageId: nat, folder: string): (r: SyncState)
    ensures StateWellFormed(st) ==> StateWellFormed(r)
  {
    if Linked(st.links, datasetId, imageId) then st
    else st.(links := st.links + [DatasetLink(st.nextLinkId, datasetId, imageId, folder)],
             nextLinkId := st.nextLinkId + 1,
             linkedCount := st.linkedCount + 1)
  }

  /**
   * One file: find its row, or record it as missing and insert one (the
   * url is unique, so an absolute path already used as a url fails the
   * insert and with it the whole transaction); then link it.
   */
  function SyncStep(st: SyncState, datasetId: nat, root: string, item: Item): (r: Result<SyncState, string>)
    ensures r.Ok? && StateWellFormed(st) ==> StateWellFormed(r.value)
    ensures r.Err? ==> r.error == UrlConflict
    ensures Lookup(st.images, root, item).Some? ==>
      r.Ok? && r.value.images == st.images && r.value.nextImageId == st.nextImageId && r.value.missing == st.missing
    ensures Lookup(st.images, root, item).None? ==>
      (r.Err? <==> UrlTaken(st.images, AbsPath(root, item))) &&
      (r.Ok? ==> r.value.images == st.images + [NewImageRow(st.nextImageId, root, item)] &&
                 r.value.nextImageId == st.nextImageId + 1 && r.value.missing == st.missing + [item])
  {
    match Lookup(st.images, root, item)
    case Some(id) => Ok(LinkImage(st, datasetId, id, item.folder))
    case None =>
      var path := AbsPath(root, item);
      if UrlTaken(st.images, path) then Err(UrlConflict)
      else
        var row := NewImageRow(st.nextImageId, root, item);
        var st1 := st.(images := st.images + [row], nextImageId := st.nextImageId + 1, missing := st.missing + [item]);
        Ok(LinkImage(st1, datasetId, row.id, item.folder))
  }

  /** The transaction over a sequence of files; the first failure aborts it. */
  function Sync(st: SyncState, datasetId: nat, root: string, items: seq<Item>): (r: Result<SyncState, string>)
    ensures r.Ok? && StateWellFormed(st) ==> StateWellFormed(r.value)
    ensures r.Err? ==> r.error == UrlConflict
    decreases |items|
  {
    if |items| == 0 then Ok(st)
    else
      match Sync(st, datasetId, root, items[..|items| - 1])
      case Err(e) => Err(e)
      case Ok(s) => SyncStep(s, datasetId, root, items[|items| - 1])
  }

  lemma SyncSnoc(st: SyncState, datasetId: nat, root: string, items: seq<Item>, item: Item)
    ensures Sync(st, datasetId, root, items + [item]) ==
      match Sync(st, datasetId, root, items)
      case Err(e) => Err(e)
      case Ok(s) => SyncStep(s, datasetId, root, item)
  {
    assert (items + [item])[..|items|] == items;
  }

  // ---------------------------------------------------------------------
  // Properties of the transaction
  // ---------------------------------------------------------------------

  /**
   * What one step adds: rows only for files it reports as missing, one
   * row per report, each the minimal row of that file under the next
   * free id; links only with the dataset id, one per count.
   */
  ghost predicate Grows(st: SyncState, r: SyncState, datasetId: nat, root: string) {
    |st.images| <= |r.images| && r.images[..|st.images|] == st.images &&
    |st.links| <= |r.links| && r.links[..|st.links|] == st.links &&
    |st.missing| <= |r.missing| && r.missing[..|st.missing|] == st.missing &&
    |r.images| - |st.images| == |r.missing| - |st.missing| &&
    r.nextImageId == st.nextImageId + (|r.images| - |st.images|) &&
    (forall k :: |st.missing| <= k < |r.missing| ==>
       r.images[|st.images| + k - |st.missing|] == NewImageRow(st.nextImageId + k - |st.missing|, root, r.missing[k])) &&
    st.linkedCount <= r.linkedCount && |r.links| - |st.links| == r.linkedCount - st.linkedCount &&
    (forall k :: |st.links| <= k < |r.links| ==> r.links[k].datasetId == datasetId)
  }

  lemma GrowsStep(st: SyncState, datasetId: nat, root: string, item: Item)
    requires SyncStep(st, datasetId, root, item).Ok?
    ensures Grows(st, SyncStep(st, datasetId, root, item).value, datasetId, root)
  {
  }

  lemma GrowsTransitive(a: SyncState, b: SyncState, c: SyncState, datasetId: nat, root: string)
    requires Grows(a, b, datasetId, root) && Grows(b, c, datasetId, root)
    ensures Grows(a, c, datasetId, root)
  {
    assert c.images[..|a.images|] == b.images[..|a.images|];
    assert c.links[..|a.links|] == b.links[..|a.links|];
    assert c.missing[..|a.missing|] == b.missing[..|a.missing|];
    forall k | |a.missing| <= k < |c.missing|
      ensures c.images[|a.images| + k - |a.missing|] == NewImageRow(a.nextImageId + k - |a.missing|, root, c.missing[k])
    {
      if k < |b.missing| {
        assert c.missing[k] == b.missing[k];
        assert c.images[|a.images| + k - |a.missing|] == b.images[|a.images| + k - |a.missing|];
      } else {
        assert |a.images| + k - |a.missing| == |b.images| + k - |b.missing|;
        assert a.nextImageId + k - |a.missing| == b.nextImageId + k - |b.missing|;
      }
    }
  }

  /**
   * The counters tell the truth: `linkedCount` counts exactly the new
   * links, all of them to this dataset; every file reported as "missing"
   * got a newly inserted row with its folder and name, and rows are
   * inserted for nothing else; existing rows and links are kept as they were.
   */
  lemma {:induction false} SyncReportsWhatItInserted(st: SyncState, datasetId: nat, root: string, items: seq<Item>)
    requires Sync(st, datasetId, root, items).Ok?
    ensures Grows(st, Sync(st, datasetId, root, items).value, datasetId, root)
    decreases |items|
  {
    if |items| > 0 {
      var init := items[..|items| - 1];
      SyncReportsWhatItInserted(st, datasetId, root, init);
      var s := Sync(st, datasetId, root, init).value;
      GrowsStep(s, datasetId, root, items[|items| - 1]);
      GrowsTransitive(st, s, Sync(st, datasetId, root, items).value, datasetId, root);
    }
  }

  /** A file is covered once it resolves to a row that is linked to the dataset. */
  ghost predicate Covered(st: SyncState, datasetId: nat, root: string, item: Item) {
    var found := Lookup(st.images, root, item);
    found.Some? && Linked(st.links, datasetId, found.value)
  }

  lemma {:induction false} FindByCountryFileAppend(images: seq<CatalogImage>, row: CatalogImage, country: string, file: string)
    ensures FindByCountryFile(images + [row], country, file) ==
      (if FindByCountryFile(images, country, file).Some? then FindByCountryFile(images, country, file)
       else if row.country == country && row.fileName == file then Some(row.id) else None)
  {
    assert (images + [row])[..|images|] == images;
  }

  lemma {:induction false} FindByPathAppend(images: seq<CatalogImage>, row: CatalogImage, path: string)
    ensures FindByPath(images + [row], path) ==
      (if FindByPath(images, path).Some? then FindByPath(images, path)
       else if row.filePath == path then Some(row.id) else None)
  {
    assert (images + [row])[..|images|] == images;
  }

  /** Inserting a row for one file does not change what another file resolves to. */
  lemma LookupStable(images: seq<CatalogImage>, row: CatalogImage, root: string, item: Item, other: Item)
    requires Lookup(images, root, other).Some?
    requires row.country == item.folder && row.fileName == item.file && other != item
    ensures Lookup(images + [row], root, other) == Lookup(images, root, other)
  {
    FindByCountryFileAppend(images, row, other.folder, other.file);
    FindByPathAppend(images, row, AbsPath(root, other));
  }

  /** A file covered before a step is still covered after it: rows and links are only appended. */
  lemma StepKeepsCovered(st: SyncState, datasetId: nat, root: string, item: Item, y: Item)
    requires SyncStep(st, datasetId, root, item).Ok?
    requires y != item && Covered(st, datasetId, root, y)
    ensures Covered(SyncStep(st, datasetId, root, item).value, datasetId, root, y)
  {
    var r := SyncStep(st, datasetId, root, item).value;
    if Lookup(st.images, root, item).None? {
      LookupStable(st.images, NewImageRow(st.nextImageId, root, item), root, item, y);
    }
    assert Lookup(r.images, root, y) == Lookup(st.images, root, y);
    var k :| 0 <= k < |st.links| && st.links[k].datasetId == datasetId && st.links[k].imageId == Lookup(st.images, root, y).value;
    assert r.links[k] == st.links[k];
  }

  /** A step links the image its file resolves to, so that afterwards the file is covered. */
  lemma LinkCovers(st: SyncState, datasetId: nat, imageId: nat, folder: string)
    ensures Linked(LinkImage(st, datasetId, imageId, folder).links, datasetId, imageId)
  {
    if !Linked(st.links, datasetId, imageId) {
      assert LinkImage(st, datasetId, imageId, folder).links[|st.links|] == DatasetLink(st.nextLinkId, datasetId, imageId, folder);
    }
  }

  /** The file a step handles is covered after it: a new row is found by its folder and name. */
  lemma StepCoversItem(st: SyncState, datasetId: nat, root: string, item: Item)
    requires StateWellFormed(st)
    requires SyncStep(st, datasetId, root, item).Ok?
    ensures Covered(SyncStep(st, datasetId, root, item).value, datasetId, root, item)
  {
    var found := Lookup(st.images, root, item);
    if found.None? {
      var row := NewImageRow(st.nextImageId, root, item);
      var st1 := st.(images := st.images + [row], nextImageId := st.nextImageId + 1, missing := st.missing + [item]);
      FindByCountryFileAppend(st.images, row, item.folder, item.file);
      assert FindByCountryFile(st.images, item.folder, item.file).None?;
      assert Lookup(st1.images, root, item) == Some(row.id);
      LinkCovers(st1, datasetId, row.id, item.folder);
    } else {
      LinkCovers(st, datasetId, found.value, item.folder);
    }
  }

  /** After a step the file it handled is covered, and every file covered before still is. */
  lemma StepCovers(st: SyncState, datasetId: nat, root: string, item: Item, done: seq<Item>)
    requires StateWellFormed(st)
    requires SyncStep(st, datasetId, root, item).Ok?
    requires item !in done
    requires forall y :: y in done ==> Covered(st, datasetId, root, y)
    ensures forall y :: y in done + [item] ==> Covered(SyncStep(st, datasetId, root, item).value, datasetId, root, y)
  {
    StepCoversItem(st, datasetId, root, item);
    forall y | y in done
      ensures Covered(SyncStep(st, datasetId, root, item).value, datasetId, root, y)
    {
      StepKeepsCovered(st, datasetId, root, item, y);
    }
  }

  /** No file is listed twice: a directory listing never repeats a name. */
  predicate DistinctItems(items: seq<Item>) {
    forall i, j :: 0 <= i < j < |items| ==> items[i] != items[j]
  }

  /** After a successful run every listed file resolves to a row linked to the dataset. */
  lemma {:induction false} SyncCoversEveryFile(st: SyncState, datasetId: nat, root: string, items: seq<Item>)
    requires StateWellFormed(st) && DistinctItems(items)
    requires Sync(st, datasetId, root, items).Ok?
    ensures forall y :: y in items ==> Covered(Sync(st, datasetId, root, items).value, datasetId, root, y)
    decreases |items|
  {
    if |items| > 0 {
      var init := items[..|items| - 1];
      var item := items[|items| - 1];
      assert items == init + [item];
      SyncSnoc(st, datasetId, root, init, item);
      SyncCoversEveryFile(st, datasetId, root, init);
      var s := Sync(st, datasetId, root, init).value;
      assert StateWellFormed(s);
      assert Sync(st, datasetId, root, items) == SyncStep(s, datasetId, root, item);
      assert item !in init by {
        assert forall i :: 0 <= i < |init| ==> init[i] == items[i];
      }
      StepCovers(s, datasetId, root, item, init);
    }
  }

  /** A run over files that are all covered changes nothing. */
  lemma {:induction false} SyncCoveredIsNoop(st: SyncState, datasetId: nat, root: string, items: seq<Item>)
    requires forall y :: y in items ==> Covered(st, datasetId, root, y)
    ensures Sync(st, datasetId, root, items) == Ok(st)
    decreases |items|
  {
    if |items| > 0 {
      var init := items[..|items| - 1];
      assert forall y :: y in init ==> y in items;
      SyncCoveredIsNoop(st, datasetId, root, init);
      assert items[|items| - 1] in items;
    }
  }

  /**
   * Re-running the sync over unchanged folders inserts no image row and no
   * link: it reports zero new links and no missing file.
   */
  lemma SyncIdempotent(st: SyncState, datasetId: nat, root: string, items: seq<Item>)
    requires StateWellFormed(st) && DistinctItems(items)
    requires Sync(st, datasetId, root, items).Ok?
    ensures var s := Sync(st, datasetId, root, items).value.(linkedCount := 0, missing := []);
      Sync(s, datasetId, root, items) == Ok(s)
  {
    var s0 := Sync(st, datasetId, root, items).value;
    var s := s0.(linkedCount := 0, missing := []);
    SyncCoversEveryFile(st, datasetId, root, items);
    assert forall y :: y in items ==> Covered(s, datasetId, root, y) by {
      forall y | y in items ensures Covered(s, datasetId, root, y) {
        assert Covered(s0, datasetId, root, y);
      }
    }
    SyncCoveredIsNoop(s, datasetId, root, items);
  }

  /** Names of a listing never repeat. */
  predicate DistinctNames(entries: seq<Entry>) {
    forall i, j :: 0 <= i < j < |entries| ==> entries[i].name != entries[j].name
  }

  predicate DistinctStrings(names: seq<string>) {
    forall i, j :: 0 <= i < j < |names| ==> names[i] != names[j]
  }

  /** Every name `ImageFileNames` yields is that of a file entry of the listing. */
  lemma {:induction false} ImageFileNamesAreFiles(entries: seq<Entry>, n: string)
    requires n in ImageFileNames(entries)
    ensures Entry(n, true) in entries
    decreases |entries|
  {
    var init := entries[..|entries| - 1];
    if n in ImageFileNames(init) {
      ImageFileNamesAreFiles(init, n);
      assert forall e :: e in init ==> e in entries;
    } else {
      assert entries[|entries| - 1] == Entry(n, true);
    }
  }

  lemma {:induction false} ImageFileNamesDistinct(entries: seq<Entry>)
    requires DistinctNames(entries)
    ensures DistinctStrings(ImageFileNames(entries))
    decreases |entries|
  {
    if |entries| > 0 {
      var init := entries[..|entries| - 1];
      var e := entries[|entries| - 1];
      assert DistinctNames(init);
      ImageFileNamesDistinct(init);
      if e.isFile && IsImageFile(e.name) {
        var r0 := ImageFileNames(init);
        if e.name in r0 {
          ImageFileNamesAreFiles(init, e.name);
          assert false;
        }
        assert ImageFileNames(entries) == r0 + [e.name];
      }
    }
  }

  /** The folder of every listed file is one of the listed folders. */
  lemma {:induction false} ItemsFromFolders(folders: seq<RootEntry>, y: Item)
    requires y in Items(folders)
    ensures exists i :: 0 <= i < |folders| && folders[i].name == y.folder
    decreases |folders|
  {
    var init := folders[..|folders| - 1];
    if y in Items(init) {
      ItemsFromFolders(init, y);
      var i :| 0 <= i < |init| && init[i].name == y.folder;
      assert folders[i] == init[i];
    } else {
      assert folders[|folders| - 1].name == y.folder;
    }
  }

  lemma DistinctItemsConcat(a: seq<Item>, b: seq<Item>, folder: string)
    requires DistinctItems(a) && DistinctItems(b)
    requires forall y :: y in a ==> y.folder != folder
    requires forall k :: 0 <= k < |b| ==> b[k].folder == folder
    ensures DistinctItems(a + b)
  {
    forall i, j | 0 <= i < j < |a + b|
      ensures (a + b)[i] != (a + b)[j]
    {
      if i < |a| && j >= |a| {
        assert (a + b)[i] in a;
      }
    }
  }

  /** Folders with distinct names whose listings repeat no name give distinct files. */
  lemma {:induction false} ListingGivesDistinctItems(folders: seq<RootEntry>)
    requires forall i, j :: 0 <= i < j < |folders| ==> folders[i].name != folders[j].name
    requires forall i :: 0 <= i < |folders| ==> DistinctNames(folders[i].entries)
    ensures DistinctItems(Items(folders))
    decreases |folders|
  {
    if |folders| > 0 {
      var init := folders[..|folders| - 1];
      var f := folders[|folders| - 1];
      ListingGivesDistinctItems(init);
      var files := ImageFileNames(f.entries);
      ImageFileNamesDistinct(f.entries);
      var b := FolderItems(f.name, files);
      assert DistinctItems(b);
      forall y | y in Items(init)
        ensures y.folder != f.name
      {
        ItemsFromFolders(init, y);
        var k :| 0 <= k < |init| && init[k].name == y.folder;
        assert folders[k] == init[k];
      }
      DistinctItemsConcat(Items(init), b, f.name);
    }
  }

  // ---------------------------------------------------------------------
  // The script
  // ---------------------------------------------------------------------

  /** Running over `a + b` is running over `a` and then, unless it failed, over `b`. */
  /** Once the transaction has failed, later files do not change its outcome. */
  lemma SyncAbortsAll(st: SyncState, datasetId: nat, root: string, a: seq<Item>, b: seq<Item>)
    requires Sync(st, datasetId, root, a).Err?
    ensures Sync(st, datasetId, root, a + b) == Sync(st, datasetId, root, a)
  {
    SyncConcat(st, datasetId, root, a, b);
  }

  lemma {:induction false} SyncConcat(st: SyncState, datasetId: nat, root: string, a: seq<Item>, b: seq<Item>)
    ensures Sync(st, datasetId, root, a + b) ==
      match Sync(st, datasetId, root, a)
      case Err(e) => Err(e)
      case Ok(s) => Sync(s, datasetId, root, b)
    decreases |b|
  {
    if |b| == 0 {
      assert a + b == a;
    } else {
      var init := b[..|b| - 1];
      var last := b[|b| - 1];
      assert a + b == (a + init) + [last];
      assert b == init + [last];
      SyncConcat(st, datasetId, root, a, init);
      SyncSnoc(st, datasetId, root, a + init, last);
      match Sync(st, datasetId, root, a)
      case Err(e) =>
      case Ok(s) =>
        SyncSnoc(s, datasetId, root, init, last);
    }
  }

  lemma {:induction false} ItemsConcat(a: seq<RootEntry>, b: seq<RootEntry>)
    ensures Items(a + b) == Items(a) + Items(b)
    decreases |b|
  {
    if |b| == 0 {
      assert a + b == a;
    } else {
      var init, last := b[..|b| - 1], b[|b| - 1];
      SplitLast(a, b);
      ItemsSnoc(a + init, last);
      ItemsSnoc(init, last);
      ItemsConcat(a, init);
      ConcatAssoc(Items(a), Items(init), FolderFiles(last));
    }
  }

  lemma SplitLast(a: seq<RootEntry>, b: seq<RootEntry>)
    requires |b| > 0
    ensures b == b[..|b| - 1] + [b[|b| - 1]]
    ensures a + b == (a + b[..|b| - 1]) + [b[|b| - 1]]
  {
  }

  lemma ConcatAssoc(x: seq<Item>, y: seq<Item>, z: seq<Item>)
    ensures x + y + z == x + (y + z)
  {
  }

  lemma ItemsSnoc(folders: seq<RootEntry>, f: RootEntry)
    ensures Items(folders + [f]) == Items(folders) + FolderFiles(f)
  {
    assert (folders + [f])[..|folders|] == folders;
  }

  lemma FolderItemsConcat(folder: string, files: seq<string>, j: nat)
    requires j <= |files|
    ensures FolderItems(folder, files) == FolderItems(folder, files[..j]) + FolderItems(folder, files[j..])
  {
  }

  lemma SyncFilesStep(st0: SyncState, datasetId: nat, root: string, folder: string, files: seq<string>, j: nat, st: SyncState)
    requires j < |files| && Sync(st0, datasetId, root, FolderItems(folder, files[..j])) == Ok(st)
    ensures Sync(st0, datasetId, root, FolderItems(folder, files[..j + 1])) == SyncStep(st, datasetId, root, Item(folder, files[j]))
  {
    assert FolderItems(folder, files[..j + 1]) == FolderItems(folder, files[..j]) + [Item(folder, files[j])];
    SyncSnoc(st0, datasetId, root, FolderItems(folder, files[..j]), Item(folder, files[j]));
  }

  lemma SyncFilesAbort(st0: SyncState, datasetId: nat, root: string, folder: string, files: seq<string>, j: nat)
    requires j <= |files| && Sync(st0, datasetId, root, FolderItems(folder, files[..j])).Err?
    ensures Sync(st0, datasetId, root, FolderItems(folder, files)) == Sync(st0, datasetId, root, FolderItems(folder, files[..j]))
  {
    FolderItemsConcat(folder, files, j);
    SyncConcat(st0, datasetId, root, FolderItems(folder, files[..j]), FolderItems(folder, files[j..]));
  }

  lemma SyncFoldersStep(start: SyncState, datasetId: nat, root: string, folders: seq<RootEntry>, i: nat, st: SyncState)
    requires i < |folders| && Sync(start, datasetId, root, Items(folders[..i])) == Ok(st)
    ensures Sync(start, datasetId, root, Items(folders[..i + 1])) ==
      Sync(st, datasetId, root, FolderItems(folders[i].name, ImageFileNames(folders[i].entries)))
  {
    assert folders[..i + 1][..i] == folders[..i];
    SyncConcat(start, datasetId, root, Items(folders[..i]), FolderItems(folders[i].name, ImageFileNames(folders[i].entries)));
  }

  lemma SyncFoldersAbort(start: SyncState, datasetId: nat, root: string, folders: seq<RootEntry>, i: nat)
    requires i <= |folders| && Sync(start, datasetId, root, Items(folders[..i])).Err?
    ensures Sync(start, datasetId, root, Items(folders)) == Sync(start, datasetId, root, Items(folders[..i]))
  {
    ItemsSplit(folders, i);
    SyncAbortsAll(start, datasetId, root, Items(folders[..i]), Items(folders[i..]));
  }

  lemma {:induction false} ItemsSplit(folders: seq<RootEntry>, i: nat)
    requires i <= |folders|
    ensures Items(folders) == Items(folders[..i]) + Items(folders[i..])
  {
    var a, b := folders[..i], folders[i..];
    assert a + b == folders;
    ItemsConcat(a, b);
  }

  /** The files of one folder, one step each, on the transaction's working copy. */
  method SyncFolderFiles(st0: SyncState, datasetId: nat, root: string, folder: string, files: seq<string>)
    returns (r: Result<SyncState, string>)
    ensures r == Sync(st0, datasetId, root, FolderItems(folder, files))
  {
    var st := st0;
    var j := 0;
    while j < |files|
      invariant 0 <= j <= |files|
      invariant Sync(st0, datasetId, root, FolderItems(folder, files[..j])) == Ok(st)
    {
      SyncFilesStep(st0, datasetId, root, folder, files, j, st);
      var step := SyncStep(st, datasetId, root, Item(folder, files[j]));
      if step.Err? {
        SyncFilesAbort(st0, datasetId, root, folder, files, j + 1);
        return step;
      }
      st := step.value;
      j := j + 1;
    }
    assert files[..j] == files;
    r := Ok(st);
  }

  /** The transaction: the folders one after the other, on a working copy of the two tables; the first failure aborts it. */
  method SyncTransaction(start: SyncState, datasetId: nat, root: string, folders: seq<RootEntry>) returns (r: Result<SyncState, string>)
    ensures r == Sync(start, datasetId, root, Items(folders))
  {
    var st := start;
    var i := 0;
    while i < |folders|
      invariant 0 <= i <= |folders|
      invariant Sync(start, datasetId, root, Items(folders[..i])) == Ok(st)
    {
      SyncFoldersStep(start, datasetId, root, folders, i, st);
      var step := SyncFolderFiles(st, datasetId, root, folders[i].name, ImageFileNames(folders[i].entries));
      if step.Err? {
        SyncFoldersAbort(start, datasetId, root, folders, i + 1);
        return step;
      }
      st := step.value;
      i := i + 1;
    }
    assert folders[..i] == folders;
    r := Ok(st);
  }

  /** How `main` ends: the root is missing, there is no sub-folder, the transaction throws, or it commits. */
  datatype SyncOutcome =
    | RootMissing
    | NoFolders(datasetId: nat)
    | Failed(datasetId: nat, error: string)
    | Synced(datasetId: nat, linkedCount: nat, missing: seq<Item>)

  /**
   * `main`: exits when the root is missing; ensures the dataset; exits when
   * the root has no sub-folder; otherwise runs the transaction and commits
   * its tables, or rolls them back when it throws.
   */
  method SyncDatasetFromFolders(db: CatalogDb, rootExists: bool, root: string, listing: seq<RootEntry>) returns (out: SyncOutcome)
    requires db.Valid()
    modifies db
    ensures db.Valid()
    ensures !rootExists ==> out == RootMissing && unchanged(db)
    ensures rootExists ==>
      var e := EnsureDataset(old(db.datasets), old(db.nextDatasetId), root);
      var folders := Folders(listing);
      var start := SyncState(old(db.images), old(db.nextImageId), old(db.links), old(db.nextLinkId), 0, []);
      var r := Sync(start, e.id, root, Items(folders));
      db.datasets == e.datasets && db.nextDatasetId == e.nextId &&
      (|folders| == 0 ==> out == NoFolders(e.id) && db.images == old(db.images) && db.links == old(db.links)) &&
      (|folders| > 0 && r.Err? ==> out == Failed(e.id, r.error) && db.images == old(db.images) && db.links == old(db.links)) &&
      (|folders| > 0 && r.Ok? ==>
         out == Synced(e.id, r.value.linkedCount, r.value.missing) &&
         db.images == r.value.images && db.nextImageId == r.value.nextImageId &&
         db.links == r.value.links && db.nextLinkId == r.value.nextLinkId)
    ensures db.labelRows == old(db.labelRows) && db.imageLabels == old(db.imageLabels)
  {
    if !rootExists {
      return RootMissing;
    }
    var datasetId := EnsureMainDataset(db, root);
    var folders := Folders(listing);
    if |folders| == 0 {
      return NoFolders(datasetId);
    }
    var start := SyncState(db.images, db.nextImageId, db.links, db.nextLinkId, 0, []);
    var r := SyncTransaction(start, datasetId, root, folders);
    if r.Err? {
      return Failed(datasetId, r.error);
    }
    db.SetImagesAndLinks(r.value.images, r.value.nextImageId, r.value.links, r.value.nextLinkId);
    out := Synced(datasetId, r.value.linkedCount, r.value.missing);
  }
}
