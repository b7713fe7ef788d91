/**
 * The food/other review UI (src/simple-classification-ui.ts): get-or-create
 * of the two label rows, the listing of linked images that carry neither
 * label grouped by folder, the two food/other buckets of labelled images,
 * and the `/correct` transaction that replaces an image's food/other label
 * by a reviewed manual one. A query without ORDER BY is taken to return
 * rows in table order, and a join in the order of its outer table. The
 * `/correct` lookup is the exception: its outer table is `images`, but it
 * is modelled in link order, which only changes which image `.get`
 * returns when two linked images of one folder share a file name.
 */
module FoodOther {
  import opened Wrappers
  import opened Strings
  import opened Catalog
  import JsObject

  const FoodOtherCategory: string := "food-other"
  const InvalidClassNameMessage: string := "Invalid className, must be food/other"
  const NoImagesMessage: string := "No images provided"
  const UnknownClass: string := "unknown"

  // ---------------------------------------------------------------------
  // ensureLabel / getFoodOtherLabelIds
  // ---------------------------------------------------------------------

  /** No row before position `i` is called `name`. */
  predicate NoneNamedBefore(rows: seq<LabelRow>, name: string, i: int)
    requires i <= |rows|
  {
    forall j :: 0 <= j < i ==> rows[j].name != name
  }

  /** `SELECT id FROM labels WHERE name = ?` with `.get`: the first row of that name. */
  function FirstLabelNamed(rows: seq<LabelRow>, name: string): (r: Option<nat>)
    ensures r.Some? ==> exists i :: 0 <= i < |rows| && rows[i].name == name && rows[i].id == r.value && NoneNamedBefore(rows, name, i)
    ensures r.None? <==> forall i :: 0 <= i < |rows| ==> rows[i].name != name
    decreases |rows|
  {
    if |rows| == 0 then None
    else if rows[0].name == name then Some(rows[0].id)
    else
      var r := FirstLabelNamed(rows[1..], name);
      assert forall i :: 1 <= i < |rows| ==> rows[i] == rows[1..][i - 1];
      r
  }

  /** Appending a row does not change the first match of an earlier row. */
  lemma {:induction false} FirstLabelNamedAppend(rows: seq<LabelRow>, row: LabelRow, name: string)
    ensures FirstLabelNamed(rows + [row], name) ==
      (if FirstLabelNamed(rows, name).Some? then FirstLabelNamed(rows, name)
       else if row.name == name then Some(row.id) else None)
    decreases |rows|
  {
    if |rows| > 0 {
      assert (rows + [row])[1..] == rows[1..] + [row];
      FirstLabelNamedAppend(rows[1..], row, name);
    }
  }

  /** The label table after `ensureLabel`, and the id it returned. */
  datatype Ensured = Ensured(rows: seq<LabelRow>, nextId: nat, id: nat)

  /**
   * `ensureLabel(name)`: the id of the first row of that name when it is
   * non-zero, otherwise a new row `(name, name, "food-other")`.
   */
  function EnsureLabel(rows: seq<LabelRow>, nextId: nat, name: string): (e: Ensured)
    ensures |rows| <= |e.rows| && e.rows[..|rows|] == rows
    ensures exists i :: 0 <= i < |e.rows| && e.rows[i].name == name && e.rows[i].id == e.id
    ensures e.rows == rows || e.rows == rows + [LabelRow(nextId, name, name, FoodOtherCategory)]
    ensures LabelRowsWellFormed(rows, nextId) ==> LabelRowsWellFormed(e.rows, e.nextId) && e.id >= 1
    ensures FirstLabelNamed(rows, name).Some? && FirstLabelNamed(rows, name).value != 0 ==>
              e.rows == rows && e.nextId == nextId && e.id == FirstLabelNamed(rows, name).value
    ensures !(FirstLabelNamed(rows, name).Some? && FirstLabelNamed(rows, name).value != 0) ==>
              e.rows == rows + [LabelRow(nextId, name, name, FoodOtherCategory)] && e.nextId == nextId + 1 && e.id == nextId
  {
    var found := FirstLabelNamed(rows, name);
    if found.Some? && found.value != 0 then Ensured(rows, nextId, found.value)
    else
      var e := Ensured(rows + [LabelRow(nextId, name, name, FoodOtherCategory)], nextId + 1, nextId);
      assert e.rows[|rows|].name == name;
      e
  }

  /** Get-or-create: a second call with the same name returns the same id and inserts nothing. */
  lemma EnsureLabelIdempotent(rows: seq<LabelRow>, nextId: nat, name: string)
    requires LabelRowsWellFormed(rows, nextId)
    ensures var e := EnsureLabel(rows, nextId, name);
      EnsureLabel(e.rows, e.nextId, name) == e
  {
    var found := FirstLabelNamed(rows, name);
    var row := LabelRow(nextId, name, name, FoodOtherCategory);
    FirstLabelNamedAppend(rows, row, name);
    if found.Some? {
      assert found.value != 0;
    }
  }

  /** The two ids `getFoodOtherLabelIds` returns, with the table after both calls. */
  datatype FoodOtherIds = FoodOtherIds(rows: seq<LabelRow>, nextId: nat, foodId: nat, otherId: nat)

  function GetFoodOtherLabelIds(rows: seq<LabelRow>, nextId: nat): (r: FoodOtherIds)
    ensures LabelRowsWellFormed(rows, nextId) ==>
      LabelRowsWellFormed(r.rows, r.nextId) && r.foodId >= 1 && r.otherId >= 1 && r.foodId != r.otherId
  {
    var food := EnsureLabel(rows, nextId, "food");
    var other := EnsureLabel(food.rows, food.nextId, "other");
    EnsuredNamesDiffer(rows, nextId, "food", "other");
    FoodOtherIds(other.rows, other.nextId, food.id, other.id)
  }

  /** Two get-or-creates of different names on a well-formed table return different ids. */
  lemma EnsuredNamesDiffer(rows: seq<LabelRow>, nextId: nat, a: string, b: string)
    requires a != b
    ensures var ea := EnsureLabel(rows, nextId, a);
      var eb := EnsureLabel(ea.rows, ea.nextId, b);
      LabelRowsWellFormed(rows, nextId) ==> ea.id != eb.id
  {
    var ea := EnsureLabel(rows, nextId, a);
    var eb := EnsureLabel(ea.rows, ea.nextId, b);
    if LabelRowsWellFormed(rows, nextId) {
      var i :| 0 <= i < |ea.rows| && ea.rows[i].name == a && ea.rows[i].id == ea.id;
      var j :| 0 <= j < |eb.rows| && eb.rows[j].name == b && eb.rows[j].id == eb.id;
      assert eb.rows[i] == ea.rows[i];
      assert i != j;
      assert LabelRowsWellFormed(eb.rows, eb.nextId);
    }
  }

  /** `ensureLabel`: looks the name up and inserts a row when it is missing. */
  method EnsureLabelRow(db: CatalogDb, name: string) returns (id: nat)
    requires db.Valid()
    modifies db
    ensures db.Valid()
    ensures EnsureLabel(old(db.labelRows), old(db.nextLabelRowId), name) == Ensured(db.labelRows, db.nextLabelRowId, id)
    ensures db.images == old(db.images) && db.datasets == old(db.datasets) && db.links == old(db.links)
    ensures db.imageLabels == old(db.imageLabels) && db.nextImageLabelId == old(db.nextImageLabelId)
    ensures db.nextImageId == old(db.nextImageId) && db.nextDatasetId == old(db.nextDatasetId) && db.nextLinkId == old(db.nextLinkId)
  {
    ghost var e := EnsureLabel(db.labelRows, db.nextLabelRowId, name);
    var found := FirstLabelNamed(db.labelRows, name);
    if found.Some? && found.value != 0 {
      id := found.value;
    } else {
      id := db.nextLabelRowId;
      db.labelRows := db.labelRows + [LabelRow(id, name, name, FoodOtherCategory)];
      db.nextLabelRowId := db.nextLabelRowId + 1;
    }
    assert e == Ensured(db.labelRows, db.nextLabelRowId, id);
  }

  /** `getFoodOtherLabelIds`: ensures `food`, then `other`. */
  method EnsureFoodOtherLabels(db: CatalogDb) returns (foodId: nat, otherId: nat)
    requires db.Valid()
    modifies db
    ensures db.Valid()
    ensures GetFoodOtherLabelIds(old(db.labelRows), old(db.nextLabelRowId)) == FoodOtherIds(db.labelRows, db.nextLabelRowId, foodId, otherId)
    ensures foodId != otherId
    ensures db.images == old(db.images) && db.datasets == old(db.datasets) && db.links == old(db.links)
    ensures db.imageLabels == old(db.imageLabels) && db.nextImageLabelId == old(db.nextImageLabelId)
    ensures db.nextImageId == old(db.nextImageId) && db.nextDatasetId == old(db.nextDatasetId) && db.nextLinkId == old(db.nextLinkId)
  {
    ghost var before := db.labelRows;
    ghost var next := db.nextLabelRowId;
    foodId := EnsureLabelRow(db, "food");
    otherId := EnsureLabelRow(db, "other");
    assert GetFoodOtherLabelIds(before, next).foodId != GetFoodOtherLabelIds(before, next).otherId;
  }

  // ---------------------------------------------------------------------
  // Queries shared by the handlers
  // ---------------------------------------------------------------------

  /** The image row with this id, if any (ids are unique). */
  function ImageById(images: seq<CatalogImage>, id: nat): (r: Option<CatalogImage>)
    ensures r.Some? ==> r.value in images && r.value.id == id
    ensures r.None? ==> forall i :: 0 <= i < |images| ==> images[i].id != id
    decreases |images|
  {
    if |images| == 0 then None
    else if images[0].id == id then Some(images[0])
    else
      var r := ImageById(images[1..], id);
      assert forall i :: 1 <= i < |images| ==> images[i] == images[1..][i - 1];
      r
  }

  predicate IsFoodOther(l: ClassLabel, foodId: nat, otherId: nat) {
    l.labelId == foodId || l.labelId == otherId
  }

  /** `EXISTS (SELECT 1 FROM image_labels WHERE image_id = ? AND label_id IN (food, other))`. */
  predicate HasFoodOther(labels: seq<ClassLabel>, imageId: nat, foodId: nat, otherId: nat) {
    exists i :: 0 <= i < |labels| && labels[i].imageId == imageId && IsFoodOther(labels[i], foodId, otherId)
  }

  /** The food/other labels of one image, in table order. */
  function FoodOtherOf(labels: seq<ClassLabel>, imageId: nat, foodId: nat, otherId: nat): (r: seq<ClassLabel>)
    ensures forall l :: l in r ==> l in labels && l.imageId == imageId && IsFoodOther(l, foodId, otherId)
    ensures |r| > 0 <==> HasFoodOther(labels, imageId, foodId, otherId)
    decreases |labels|
  {
    if |labels| == 0 then []
    else
      var init := labels[..|labels| - 1];
      var l := labels[|labels| - 1];
      var r := FoodOtherOf(init, imageId, foodId, otherId);
      assert forall i :: 0 <= i < |init| ==> labels[i] == init[i];
      if l.imageId == imageId && IsFoodOther(l, foodId, otherId) then r + [l] else r
  }

  /** The labels that are neither food nor other, in table order. */
  function NotFoodOther(labels: seq<ClassLabel>, foodId: nat, otherId: nat): (r: seq<ClassLabel>)
    ensures forall l :: l in r <==> l in labels && !IsFoodOther(l, foodId, otherId)
    decreases |labels|
  {
    if |labels| == 0 then []
    else
      var init := labels[..|labels| - 1];
      var l := labels[|labels| - 1];
      assert labels == init + [l];
      if IsFoodOther(l, foodId, otherId) then NotFoodOther(init, foodId, otherId)
      else NotFoodOther(init, foodId, otherId) + [l]
  }

  // ---------------------------------------------------------------------
  // parseImagePath
  // ---------------------------------------------------------------------

  /** What `parseImagePath` returns; `folder` is `None` where the destructuring leaves it undefined. */
  datatype ParsedPath = ParsedPath(folder: Option<string>, file: string)

  const UnclassifiedPrefix: string := "/unclassified/"
  const ClassifiedPrefix: string := "/classified/"

  /**
   * `parseImagePath(src)`. An http(s) URL is replaced by its pathname
   * (`urlPathname`, `None` where `new URL` throws); then the
   * `/unclassified/F/rest`, `/classified/L/F/rest` and relative `F/rest`
   * forms are split on `/`; any other absolute path gives null.
   */
  function ParseImagePath(src: string, urlPathname: string -> Option<string>): (r: Option<ParsedPath>)
    ensures !StartsWith(src, "http://") && !StartsWith(src, "https://") ==>
      (r.None? <==> StartsWith(src, "/") && !StartsWith(src, UnclassifiedPrefix) && !StartsWith(src, ClassifiedPrefix))
    ensures r.Some? && r.value.folder.Some? ==> '/' !in r.value.folder.value
  {
    var pathname :=
      if StartsWith(src, "http://") || StartsWith(src, "https://") then urlPathname(src) else Some(src);
    match pathname
    case None => None
    case Some(p) =>
      if StartsWith(p, UnclassifiedPrefix) then
        var parts := Split(p[|UnclassifiedPrefix|..], '/');
        Some(ParsedPath(Some(parts[0]), Join(parts[1..], '/')))
      else if StartsWith(p, ClassifiedPrefix) then
        var rest := Split(p[|ClassifiedPrefix|..], '/')[1..];
        if |rest| == 0 then Some(ParsedPath(None, ""))
        else Some(ParsedPath(Some(rest[0]), Join(rest[1..], '/')))
      else if !StartsWith(p, "/") then
        var parts := Split(p, '/');
        Some(ParsedPath(Some(parts[0]), Join(parts[1..], '/')))
      else None
  }

  /** Splitting `folder + "/" + file` on `/` and re-joining the tail gives the folder and the whole file back. */
  lemma SplitFolderFile(folder: string, file: string)
    requires '/' !in folder
    ensures var parts := Split(folder + "/" + file, '/');
      parts[0] == folder && Join(parts[1..], '/') == file
  {
    SplitAfterFirst(folder, file, '/');
    assert folder + "/" + file == folder + ['/'] + file;
  }

  /** The `/unclassified` listing's `className/file` path, prefixed with `/unclassified/`, parses back to the pair. */
  lemma {:induction false} UnclassifiedPathRoundTrip(folder: string, file: string, urlPathname: string -> Option<string>)
    requires |folder| > 0 && '/' !in folder
    ensures ParseImagePath(UnclassifiedPrefix + folder + "/" + file, urlPathname) == Some(ParsedPath(Some(folder), file))
  {
    var src := UnclassifiedPrefix + folder + "/" + file;
    assert !StartsWith(src, "http://") && !StartsWith(src, "https://") by {
      assert src[1] == 'u';
    }
    assert StartsWith(src, UnclassifiedPrefix);
    assert src[|UnclassifiedPrefix|..] == folder + "/" + file;
    SplitFolderFile(folder, file);
  }

  /** A `/classified/L/F/rest` path drops the label segment and yields `(F, rest)`. */
  lemma {:induction false} ClassifiedPathRoundTrip(labelSegment: string, folder: string, file: string, urlPathname: string -> Option<string>)
    requires '/' !in labelSegment && '/' !in folder
    ensures ParseImagePath(ClassifiedPrefix + labelSegment + "/" + folder + "/" + file, urlPathname) == Some(ParsedPath(Some(folder), file))
  {
    var src := ClassifiedPrefix + labelSegment + "/" + folder + "/" + file;
    assert !StartsWith(src, "http://") && !StartsWith(src, "https://") by {
      assert src[1] == 'c';
    }
    assert !StartsWith(src, UnclassifiedPrefix) by {
      assert src[1] != UnclassifiedPrefix[1];
    }
    assert StartsWith(src, ClassifiedPrefix);
    var rel := src[|ClassifiedPrefix|..];
    assert rel == labelSegment + ['/'] + (folder + "/" + file);
    SplitAfterFirst(labelSegment, folder + "/" + file, '/');
    SplitFolderFile(folder, file);
  }

  /** `F/rest` with no `/` in `F` starts with `H/…` (no `/` in `H`) only when `F` is `H`. */
  lemma FirstSegmentPrefix(folder: string, file: string, h: string, rest: string)
    requires '/' !in folder && '/' !in h && folder != h
    ensures !StartsWith(folder + "/" + file, h + "/" + rest)
  {
    var src := folder + "/" + file;
    var p := h + "/" + rest;
    if |p| <= |src| {
      if |folder| < |h| {
        assert src[|folder|] == '/' && p[|folder|] == h[|folder|];
        assert src[..|p|][|folder|] != p[|folder|];
      } else if |folder| > |h| {
        assert src[|h|] == folder[|h|] && p[|h|] == '/';
        assert src[..|p|][|h|] != p[|h|];
      } else {
        var i :| 0 <= i < |h| && folder[i] != h[i];
        assert src[..|p|][i] != p[i];
      }
    }
  }

  /** A relative `F/rest` path yields `(F, rest)`, unless `F` is `http:` or `https:` and the path reads as a URL. */
  lemma {:induction false} RelativePathRoundTrip(folder: string, file: string, urlPathname: string -> Option<string>)
    requires |folder| > 0 && '/' !in folder && folder != "http:" && folder != "https:"
    ensures ParseImagePath(folder + "/" + file, urlPathname) == Some(ParsedPath(Some(folder), file))
  {
    var src := folder + "/" + file;
    assert src[0] == folder[0];
    assert !StartsWith(src, "/") && !StartsWith(src, UnclassifiedPrefix) && !StartsWith(src, ClassifiedPrefix);
    FirstSegmentPrefix(folder, file, "http:", "/");
    FirstSegmentPrefix(folder, file, "https:", "/");
    assert "http:" + "/" + "/" == "http://" && "https:" + "/" + "/" == "https://";
    SplitFolderFile(folder, file);
  }

  // ---------------------------------------------------------------------
  // /correct
  // ---------------------------------------------------------------------

  /**
   * `SELECT i.id FROM images i JOIN dataset_images di ... WHERE
   * di.folder_name = ? AND i.file_name = ?` with `.get`: the image of the
   * first link from that folder whose image has that file name. An
   * undefined folder binds NULL, which equals nothing.
   */
  function FindImage(images: seq<CatalogImage>, links: seq<DatasetLink>, folder: string, file: string): (r: Option<nat>)
    ensures r.Some? ==> exists k :: 0 <= k < |links| && links[k].folderName == folder && links[k].imageId == r.value
    ensures r.Some? ==> ImageById(images, r.value).Some? && ImageById(images, r.value).value.fileName == file
    ensures r.None? <==> forall k :: 0 <= k < |links| && links[k].folderName == folder ==>
                                     !(ImageById(images, links[k].imageId).Some? && ImageById(images, links[k].imageId).value.fileName == file)
    decreases |links|
  {
    if |links| == 0 then None
    else
      var img := ImageById(images, links[0].imageId);
      if links[0].folderName == folder && img.Some? && img.value.fileName == file then Some(links[0].imageId)
      else
        var r := FindImage(images, links[1..], folder, file);
        assert forall k :: 1 <= k < |links| ==> links[k] == links[1..][k - 1];
        r
  }

  /** A link from `folder` leads to the existing image `id`, whose file name is `file`. */
  predicate LinkedImageNamed(images: seq<CatalogImage>, links: seq<DatasetLink>, folder: string, file: string, id: nat) {
    ImageById(images, id).Some? && ImageById(images, id).value.fileName == file &&
    exists k :: 0 <= k < |links| && links[k].folderName == folder && links[k].imageId == id
  }

  /**
   * The image a source string resolves to: it parses, has a folder, matches
   * an image, and the id is non-zero. With non-zero ids, it resolves
   * exactly when some link of its folder leads to an image of its file name.
   */
  function Resolve(images: seq<CatalogImage>, links: seq<DatasetLink>, src: string, urlPathname: string -> Option<string>): (r: Option<nat>)
    ensures var p := ParseImagePath(src, urlPathname);
      r.Some? ==> p.Some? && p.value.folder.Some? && r.value != 0 &&
                  LinkedImageNamed(images, links, p.value.folder.value, p.value.file, r.value)
    ensures var p := ParseImagePath(src, urlPathname);
      p.Some? && p.value.folder.Some? && (forall k :: 0 <= k < |links| ==> links[k].imageId != 0) ==>
        (r.Some? <==> exists k :: 0 <= k < |links| && LinkedImageNamed(images, links, p.value.folder.value, p.value.file, links[k].imageId))
  {
    match ParseImagePath(src, urlPathname)
    case None => None
    case Some(p) =>
      if p.folder.None? then None
      else
        var found := FindImage(images, links, p.folder.value, p.file);
        if found.Some? && found.value != 0 then found else None
  }

  /** What each input resolves to, in input order. */
  function Resolutions(images: seq<CatalogImage>, links: seq<DatasetLink>, srcs: seq<string>, urlPathname: string -> Option<string>): (rs: seq<Option<nat>>)
    ensures |rs| == |srcs|
    ensures forall k :: 0 <= k < |srcs| ==> rs[k] == Resolve(images, links, srcs[k], urlPathname)
  {
    seq(|srcs|, k requires 0 <= k < |srcs| => Resolve(images, links, srcs[k], urlPathname))
  }

  /** The values of the present entries, in order. */
  function Somes(rs: seq<Option<nat>>): (ids: seq<nat>)
    ensures |ids| <= |rs|
    decreases |rs|
  {
    if |rs| == 0 then []
    else
      var last := rs[|rs| - 1];
      Somes(rs[..|rs| - 1]) + (if last.Some? then [last.value] else [])
  }

  /** The image ids of the inputs that resolved, in input order (an image given twice appears twice). */
  function ResolvedIds(images: seq<CatalogImage>, links: seq<DatasetLink>, srcs: seq<string>, urlPathname: string -> Option<string>): (ids: seq<nat>)
    ensures |ids| <= |srcs|
  {
    Somes(Resolutions(images, links, srcs, urlPathname))
  }

  lemma {:induction false} SomesFrom(rs: seq<Option<nat>>)
    ensures forall x :: x in Somes(rs) ==> Some(x) in rs
    decreases |rs|
  {
    if |rs| > 0 {
      SomesFrom(rs[..|rs| - 1]);
      assert forall y :: y in rs[..|rs| - 1] ==> y in rs;
    }
  }

  /** Every resolved id is a non-zero id of an existing image reached through a link. */
  lemma ResolvedImagesExist(images: seq<CatalogImage>, links: seq<DatasetLink>, srcs: seq<string>, urlPathname: string -> Option<string>)
    ensures forall x :: x in ResolvedIds(images, links, srcs, urlPathname) ==>
      x != 0 && ImageById(images, x).Some? && exists k :: 0 <= k < |links| && links[k].imageId == x
  {
    var rs := Resolutions(images, links, srcs, urlPathname);
    SomesFrom(rs);
    forall x | x in Somes(rs)
      ensures x != 0 && ImageById(images, x).Some? && exists k :: 0 <= k < |links| && links[k].imageId == x
    {
      var k :| 0 <= k < |rs| && rs[k] == Some(x);
      assert Resolve(images, links, srcs[k], urlPathname) == Some(x);
    }
  }

  /** One more entry appends its value, if it has one. */
  lemma SomesStep(rs: seq<Option<nat>>, i: nat)
    requires i < |rs|
    ensures Somes(rs[..i + 1]) == Somes(rs[..i]) + (if rs[i].Some? then [rs[i].value] else [])
  {
    assert rs[..i + 1][..i] == rs[..i];
  }

  /** The `image_labels` table and its next id. */
  datatype LabelTable = LabelTable(labels: seq<ClassLabel>, nextId: nat)

  /**
   * `DELETE FROM image_labels WHERE image_id = ? AND label_id IN (food, other)`:
   * removes exactly the image's food/other labels and keeps the rest.
   */
  function WithoutFoodOther(labels: seq<ClassLabel>, imageId: nat, foodId: nat, otherId: nat): (r: seq<ClassLabel>)
    ensures |r| <= |labels|
    ensures forall l :: l in r <==> l in labels && !(l.imageId == imageId && IsFoodOther(l, foodId, otherId))
    decreases |labels|
  {
    if |labels| == 0 then []
    else
      var init := labels[..|labels| - 1];
      var l := labels[|labels| - 1];
      var r := WithoutFoodOther(init, imageId, foodId, otherId);
      assert labels == init + [l];
      if l.imageId == imageId && IsFoodOther(l, foodId, otherId) then r else r + [l]
  }

  /** The reviewed manual label `/correct` inserts. */
  function CorrectionLabel(id: nat, imageId: nat, target: nat): ClassLabel {
    ClassLabel(id, imageId, target, 1.0, true, true)
  }

  /** One iteration of the transaction: delete the image's food/other labels, insert the target one. */
  function Relabel(t: LabelTable, imageId: nat, target: nat, foodId: nat, otherId: nat): (r: LabelTable)
    ensures r.nextId == t.nextId + 1
  {
    var kept := WithoutFoodOther(t.labels, imageId, foodId, otherId);
    LabelTable(kept + [CorrectionLabel(t.nextId, imageId, target)], t.nextId + 1)
  }

  /** Relabelling keeps every label id below the next id. */
  lemma RelabelWellFormed(t: LabelTable, imageId: nat, target: nat, foodId: nat, otherId: nat)
    requires ClassLabelsWellFormed(t.labels, t.nextId)
    ensures var r := Relabel(t, imageId, target, foodId, otherId);
      ClassLabelsWellFormed(r.labels, r.nextId)
  {
    var kept := WithoutFoodOther(t.labels, imageId, foodId, otherId);
    assert forall i :: 0 <= i < |kept| ==> kept[i] in t.labels;
  }

  /** The whole transaction over the resolved ids. */
  function Corrections(t: LabelTable, ids: seq<nat>, target: nat, foodId: nat, otherId: nat): (r: LabelTable)
    ensures r.nextId == t.nextId + |ids|
    decreases |ids|
  {
    if |ids| == 0 then t
    else Relabel(Corrections(t, ids[..|ids| - 1], target, foodId, otherId), ids[|ids| - 1], target, foodId, otherId)
  }

  /** The whole transaction keeps every label id below the next id. */
  lemma {:induction false} CorrectionsWellFormed(t: LabelTable, ids: seq<nat>, target: nat, foodId: nat, otherId: nat)
    requires ClassLabelsWellFormed(t.labels, t.nextId)
    ensures var r := Corrections(t, ids, target, foodId, otherId);
      ClassLabelsWellFormed(r.labels, r.nextId)
    decreases |ids|
  {
    if |ids| > 0 {
      CorrectionsWellFormed(t, ids[..|ids| - 1], target, foodId, otherId);
      RelabelWellFormed(Corrections(t, ids[..|ids| - 1], target, foodId, otherId), ids[|ids| - 1], target, foodId, otherId);
    }
  }

  lemma {:induction false} FoodOtherOfAppend(labels: seq<ClassLabel>, l: ClassLabel, x: nat, foodId: nat, otherId: nat)
    ensures FoodOtherOf(labels + [l], x, foodId, otherId) ==
      FoodOtherOf(labels, x, foodId, otherId) + (if l.imageId == x && IsFoodOther(l, foodId, otherId) then [l] else [])
  {
    assert (labels + [l])[..|labels|] == labels;
  }

  lemma {:induction false} NotFoodOtherAppend(labels: seq<ClassLabel>, l: ClassLabel, foodId: nat, otherId: nat)
    ensures NotFoodOther(labels + [l], foodId, otherId) ==
      NotFoodOther(labels, foodId, otherId) + (if IsFoodOther(l, foodId, otherId) then [] else [l])
  {
    assert (labels + [l])[..|labels|] == labels;
  }

  /** Deleting one image's food/other labels empties its list and leaves every other image's list alone. */
  lemma {:induction false} FoodOtherOfWithout(labels: seq<ClassLabel>, imageId: nat, x: nat, foodId: nat, otherId: nat)
    ensures FoodOtherOf(WithoutFoodOther(labels, imageId, foodId, otherId), x, foodId, otherId) ==
      (if x == imageId then [] else FoodOtherOf(labels, x, foodId, otherId))
    decreases |labels|
  {
    if |labels| > 0 {
      var init := labels[..|labels| - 1];
      var l := labels[|labels| - 1];
      FoodOtherOfWithout(init, imageId, x, foodId, otherId);
      var r := WithoutFoodOther(init, imageId, foodId, otherId);
      if !(l.imageId == imageId && IsFoodOther(l, foodId, otherId)) {
        FoodOtherOfAppend(r, l, x, foodId, otherId);
      }
    }
  }

  /** The delete never touches labels that are neither food nor other. */
  lemma {:induction false} NotFoodOtherWithout(labels: seq<ClassLabel>, imageId: nat, foodId: nat, otherId: nat)
    ensures NotFoodOther(WithoutFoodOther(labels, imageId, foodId, otherId), foodId, otherId) == NotFoodOther(labels, foodId, otherId)
    decreases |labels|
  {
    if |labels| > 0 {
      var init := labels[..|labels| - 1];
      var l := labels[|labels| - 1];
      NotFoodOtherWithout(init, imageId, foodId, otherId);
      var r := WithoutFoodOther(init, imageId, foodId, otherId);
      if !(l.imageId == imageId && IsFoodOther(l, foodId, otherId)) {
        NotFoodOtherAppend(r, l, foodId, otherId);
      }
    }
  }

  /** The food/other labels of an image are exactly one reviewed manual label of the target class at confidence 1.0. */
  predicate OnlyCorrection(ls: seq<ClassLabel>, target: nat) {
    |ls| == 1 && ls[0].labelId == target && ls[0].confidence == 1.0 && ls[0].isManual && ls[0].isReviewed
  }

  /** One relabelling leaves the image with just the new label and changes nothing else. */
  lemma RelabelEffect(t: LabelTable, id: nat, target: nat, foodId: nat, otherId: nat)
    requires target == foodId || target == otherId
    ensures var r := Relabel(t, id, target, foodId, otherId);
      forall x :: FoodOtherOf(r.labels, x, foodId, otherId) ==
        (if x == id then [CorrectionLabel(t.nextId, id, target)] else FoodOtherOf(t.labels, x, foodId, otherId))
    ensures NotFoodOther(Relabel(t, id, target, foodId, otherId).labels, foodId, otherId) == NotFoodOther(t.labels, foodId, otherId)
  {
    var kept := WithoutFoodOther(t.labels, id, foodId, otherId);
    var inserted := CorrectionLabel(t.nextId, id, target);
    forall x: nat
      ensures FoodOtherOf(kept + [inserted], x, foodId, otherId) ==
        (if x == id then [inserted] else FoodOtherOf(t.labels, x, foodId, otherId))
    {
      FoodOtherOfAppend(kept, inserted, x, foodId, otherId);
      FoodOtherOfWithout(t.labels, id, x, foodId, otherId);
    }
    NotFoodOtherAppend(kept, inserted, foodId, otherId);
    NotFoodOtherWithout(t.labels, id, foodId, otherId);
  }

  /**
   * After the transaction every resolved image has exactly one food/other
   * label: the target, with confidence 1.0, manual and reviewed. Images not
   * resolved keep their food/other labels, and no other label changes.
   */
  lemma {:induction false} CorrectionsLeaveOneLabel(t: LabelTable, ids: seq<nat>, target: nat, foodId: nat, otherId: nat)
    requires target == foodId || target == otherId
    ensures forall x :: x in ids ==> OnlyCorrection(FoodOtherOf(Corrections(t, ids, target, foodId, otherId).labels, x, foodId, otherId), target)
    ensures forall x :: x !in ids ==>
      FoodOtherOf(Corrections(t, ids, target, foodId, otherId).labels, x, foodId, otherId) == FoodOtherOf(t.labels, x, foodId, otherId)
    ensures NotFoodOther(Corrections(t, ids, target, foodId, otherId).labels, foodId, otherId) == NotFoodOther(t.labels, foodId, otherId)
    decreases |ids|
  {
    if |ids| > 0 {
      var init := ids[..|ids| - 1];
      var id := ids[|ids| - 1];
      CorrectionsLeaveOneLabel(t, init, target, foodId, otherId);
      var t0 := Corrections(t, init, target, foodId, otherId);
      assert Corrections(t, ids, target, foodId, otherId) == Relabel(t0, id, target, foodId, otherId);
      RelabelEffect(t0, id, target, foodId, otherId);
      assert forall x :: x in ids <==> x == id || x in init;
    }
  }

  /** One more input of the `/correct` loop: resolved, it relabels its image and counts; otherwise nothing changes. */
  lemma CorrectStep(rs: seq<Option<nat>>, i: nat, table: LabelTable, target: nat, foodId: nat, otherId: nat)
    requires i < |rs|
    ensures var done := Somes(rs[..i]);
      var next := Somes(rs[..i + 1]);
      |next| == |done| + (if rs[i].Some? then 1 else 0) &&
      Corrections(table, next, target, foodId, otherId) ==
        (if rs[i].Some? then Relabel(Corrections(table, done, target, foodId, otherId), rs[i].value, target, foodId, otherId)
         else Corrections(table, done, target, foodId, otherId))
  {
    SomesStep(rs, i);
    if rs[i].Some? {
      CorrectionsSnoc(table, Somes(rs[..i]), rs[i].value, target, foodId, otherId);
    } else {
      assert Somes(rs[..i]) + [] == Somes(rs[..i]);
    }
  }

  lemma CorrectionsSnoc(t: LabelTable, ids: seq<nat>, id: nat, target: nat, foodId: nat, otherId: nat)
    ensures Corrections(t, ids + [id], target, foodId, otherId) == Relabel(Corrections(t, ids, target, foodId, otherId), id, target, foodId, otherId)
  {
    assert (ids + [id])[..|ids|] == ids;
  }

  /** The reply of `POST /correct`. */
  datatype CorrectResponse = CorrectBadRequest(error: string) | Corrected(updatedCount: nat)

  /**
   * The transaction of `/correct`: for every input that resolves to an
   * image, delete its food/other labels and insert the target one; count
   * the inputs that resolved.
   */
  method CorrectTransaction(images: seq<CatalogImage>, links: seq<DatasetLink>, table: LabelTable, srcs: seq<string>,
                            target: nat, foodId: nat, otherId: nat, urlPathname: string -> Option<string>)
    returns (result: LabelTable, updatedCount: nat)
    ensures result == Corrections(table, ResolvedIds(images, links, srcs, urlPathname), target, foodId, otherId)
    ensures updatedCount == |ResolvedIds(images, links, srcs, urlPathname)|
  {
    ghost var rs := Resolutions(images, links, srcs, urlPathname);
    result := table;
    updatedCount := 0;
    var i := 0;
    while i < |srcs|
      invariant 0 <= i <= |srcs|
      invariant result == Corrections(table, Somes(rs[..i]), target, foodId, otherId)
      invariant updatedCount == |Somes(rs[..i])|
    {
      var resolved := Resolve(images, links, srcs[i], urlPathname);
      CorrectStep(rs, i, table, target, foodId, otherId);
      if resolved.Some? {
        var imageId := resolved.value;
        ghost var before := result;
        var kept := WithoutFoodOther(result.labels, imageId, foodId, otherId);
        result := LabelTable(kept + [CorrectionLabel(result.nextId, imageId, target)], result.nextId + 1);
        assert result == Relabel(before, imageId, target, foodId, otherId);
        updatedCount := updatedCount + 1;
      }
      i := i + 1;
    }
    assert rs[..i] == rs;
  }

  /**
   * `POST /correct`: validates the body, ensures the two label rows, then
   * runs the transaction and commits its label table.
   */
  method Correct(db: CatalogDb, className: Option<string>, images: Option<seq<string>>, urlPathname: string -> Option<string>)
    returns (resp: CorrectResponse)
    requires db.Valid()
    modifies db
    ensures db.Valid()
    ensures className.None? || (className.value != "food" && className.value != "other") ==>
      resp == CorrectBadRequest(InvalidClassNameMessage) && unchanged(db)
    ensures className.Some? && (className.value == "food" || className.value == "other") && (images.None? || |images.value| == 0) ==>
      resp == CorrectBadRequest(NoImagesMessage) && unchanged(db)
    ensures className.Some? && (className.value == "food" || className.value == "other") && images.Some? && |images.value| > 0 ==>
      var ids := GetFoodOtherLabelIds(old(db.labelRows), old(db.nextLabelRowId));
      var target := if className.value == "food" then ids.foodId else ids.otherId;
      var resolved := ResolvedIds(old(db.images), old(db.links), images.value, urlPathname);
      db.labelRows == ids.rows && db.nextLabelRowId == ids.nextId &&
      LabelTable(db.imageLabels, db.nextImageLabelId) ==
        Corrections(LabelTable(old(db.imageLabels), old(db.nextImageLabelId)), resolved, target, ids.foodId, ids.otherId) &&
      resp == Corrected(|resolved|)
    ensures db.images == old(db.images) && db.datasets == old(db.datasets) && db.links == old(db.links)
  {
    if className.None? || (className.value != "food" && className.value != "other") {
      return CorrectBadRequest(InvalidClassNameMessage);
    }
    if images.None? || |images.value| == 0 {
      return CorrectBadRequest(NoImagesMessage);
    }
    ghost var ids := GetFoodOtherLabelIds(db.labelRows, db.nextLabelRowId);
    ghost var resolved := ResolvedIds(db.images, db.links, images.value, urlPathname);
    var foodId, otherId := EnsureFoodOtherLabels(db);
    assert foodId == ids.foodId && otherId == ids.otherId;
    var target := if className.value == "food" then foodId else otherId;
    var table := LabelTable(db.imageLabels, db.nextImageLabelId);
    var result, updatedCount := CorrectTransaction(db.images, db.links, table, images.value, target, foodId, otherId, urlPathname);
    CorrectionsWellFormed(table, resolved, target, foodId, otherId);
    db.SetImageLabels(result.labels, result.nextId);
    resp := Corrected(updatedCount);
  }

  // ---------------------------------------------------------------------
  // /unclassified
  // ---------------------------------------------------------------------

  /** A row of the `/unclassified` query. */
  datatype UnclassifiedRow = UnclassifiedRow(folderName: string, imageId: nat, fileName: string, filePath: string)

  /** The row one link contributes: its image exists and carries neither label. */
  function ListedRow(link: DatasetLink, images: seq<CatalogImage>, labels: seq<ClassLabel>, foodId: nat, otherId: nat): Option<UnclassifiedRow> {
    var img := ImageById(images, link.imageId);
    if img.Some? && !HasFoodOther(labels, img.value.id, foodId, otherId) then
      Some(UnclassifiedRow(link.folderName, img.value.id, img.value.fileName, img.value.filePath))
    else None
  }

  /**
   * `dataset_images JOIN images WHERE NOT EXISTS (a food/other label)`:
   * one row per link whose image exists and carries neither label, in link order.
   */
  function UnclassifiedRows(links: seq<DatasetLink>, images: seq<CatalogImage>, labels: seq<ClassLabel>, foodId: nat, otherId: nat): (r: seq<UnclassifiedRow>)
    ensures |r| <= |links|
    ensures forall k :: 0 <= k < |r| ==> !HasFoodOther(labels, r[k].imageId, foodId, otherId) && ImageById(images, r[k].imageId).Some?
    ensures forall k :: 0 <= k < |links| && ListedRow(links[k], images, labels, foodId, otherId).Some? ==>
              ListedRow(links[k], images, labels, foodId, otherId).value in r
    ensures forall row :: row in r ==> exists k :: 0 <= k < |links| && ListedRow(links[k], images, labels, foodId, otherId) == Some(row)
    decreases |links|
  {
    if |links| == 0 then []
    else
      var n := |links| - 1;
      var init := UnclassifiedRows(links[..n], images, labels, foodId, otherId);
      assert forall k :: 0 <= k < n ==> links[..n][k] == links[k];
      var row := ListedRow(links[n], images, labels, foodId, otherId);
      if row.Some? then init + [row.value] else init
  }

  /** Once corrected, an image no longer shows in the `/unclassified` listing. */
  lemma CorrectedImagesLeaveUnclassified(links: seq<DatasetLink>, images: seq<CatalogImage>, t: LabelTable, ids: seq<nat>, target: nat, foodId: nat, otherId: nat)
    requires target == foodId || target == otherId
    ensures var r := Corrections(t, ids, target, foodId, otherId);
      forall k :: 0 <= k < |UnclassifiedRows(links, images, r.labels, foodId, otherId)| ==>
        UnclassifiedRows(links, images, r.labels, foodId, otherId)[k].imageId !in ids
  {
    CorrectionsLeaveOneLabel(t, ids, target, foodId, otherId);
    var r := Corrections(t, ids, target, foodId, otherId);
    forall x | x in ids
      ensures HasFoodOther(r.labels, x, foodId, otherId)
    {
      assert |FoodOtherOf(r.labels, x, foodId, otherId)| == 1;
    }
  }

  /** A class of the listing: its name and the `className/file` paths in it. */
  datatype ClassGroup = ClassGroup(className: string, filenames: seq<string>)

  /** `row.folder_name || "unknown"`. */
  function ClassOf(row: UnclassifiedRow): string {
    if row.folderName == "" then UnknownClass else row.folderName
  }

  function RelPath(row: UnclassifiedRow): string {
    ClassOf(row) + "/" + row.fileName
  }

  predicate DistinctClasses(gs: seq<ClassGroup>) {
    forall i, j :: 0 <= i < j < |gs| ==> gs[i].className != gs[j].className
  }

  /** Where a class sits in the listing, or -1. */
  function IndexOfClass(gs: seq<ClassGroup>, c: string): (i: int)
    ensures -1 <= i < |gs|
    ensures i >= 0 ==> gs[i].className == c
    ensures i == -1 <==> forall k :: 0 <= k < |gs| ==> gs[k].className != c
    decreases |gs|
  {
    if |gs| == 0 then -1
    else if gs[|gs| - 1].className == c then |gs| - 1
    else IndexOfClass(gs[..|gs| - 1], c)
  }

  /** `classesMap[className].images.push(relPath)`, creating the class at the end when new. */
  function AddToClass(gs: seq<ClassGroup>, c: string, path: string): (r: seq<ClassGroup>)
    ensures DistinctClasses(gs) ==> DistinctClasses(r)
  {
    var i := IndexOfClass(gs, c);
    if i >= 0 then gs[i := ClassGroup(c, gs[i].filenames + [path])] else gs + [ClassGroup(c, [path])]
  }

  /** `Object.values(classesMap)` after the loop over the rows. */
  function Grouped(rows: seq<UnclassifiedRow>): (gs: seq<ClassGroup>)
    ensures DistinctClasses(gs)
    decreases |rows|
  {
    if |rows| == 0 then []
    else
      var row := rows[|rows| - 1];
      AddToClass(Grouped(rows[..|rows| - 1]), ClassOf(row), RelPath(row))
  }

  /** The paths of the rows of one class, in row order: the reference the grouping is checked against. */
  function PathsOfClass(rows: seq<UnclassifiedRow>, c: string): (ps: seq<string>)
    ensures |ps| <= |rows|
    decreases |rows|
  {
    if |rows| == 0 then []
    else
      var row := rows[|rows| - 1];
      PathsOfClass(rows[..|rows| - 1], c) + (if ClassOf(row) == c then [RelPath(row)] else [])
  }

  /** Each listed class holds exactly the paths of its rows, and every class with a row is listed. */
  ghost predicate GroupsMatch(gs: seq<ClassGroup>, rows: seq<UnclassifiedRow>) {
    (forall k :: 0 <= k < |gs| ==> gs[k].filenames == PathsOfClass(rows, gs[k].className) && |gs[k].filenames| > 0) &&
    (forall c :: |PathsOfClass(rows, c)| > 0 ==> IndexOfClass(gs, c) >= 0)
  }

  /** The paths of one more row: its class gains its path, every other class is unchanged. */
  lemma PathsOfClassSnoc(init: seq<UnclassifiedRow>, row: UnclassifiedRow)
    ensures forall d :: PathsOfClass(init + [row], d) == PathsOfClass(init, d) + (if ClassOf(row) == d then [RelPath(row)] else [])
  {
    assert (init + [row])[..|init|] == init;
  }

  /** Adding one row's path keeps the listing in step with the rows. */
  lemma AddToClassMatches(init: seq<UnclassifiedRow>, row: UnclassifiedRow, g0: seq<ClassGroup>)
    requires DistinctClasses(g0) && GroupsMatch(g0, init)
    ensures GroupsMatch(AddToClass(g0, ClassOf(row), RelPath(row)), init + [row])
  {
    PathsOfClassSnoc(init, row);
    if IndexOfClass(g0, ClassOf(row)) >= 0 {
      AddToKnownClassMatches(init, row, g0);
    } else {
      AddToNewClassMatches(init, row, g0);
    }
  }

  lemma AddToKnownClassMatches(init: seq<UnclassifiedRow>, row: UnclassifiedRow, g0: seq<ClassGroup>)
    requires DistinctClasses(g0) && GroupsMatch(g0, init) && IndexOfClass(g0, ClassOf(row)) >= 0
    requires forall d :: PathsOfClass(init + [row], d) == PathsOfClass(init, d) + (if ClassOf(row) == d then [RelPath(row)] else [])
    ensures GroupsMatch(AddToClass(g0, ClassOf(row), RelPath(row)), init + [row])
  {
    var rows := init + [row];
    var c := ClassOf(row);
    var i := IndexOfClass(g0, c);
    var g := AddToClass(g0, c, RelPath(row));
    forall k | 0 <= k < |g|
      ensures g[k].filenames == PathsOfClass(rows, g[k].className) && |g[k].filenames| > 0
    {
      if k != i {
        assert g[k] == g0[k] && g0[k].className != c;
      }
    }
    forall d | |PathsOfClass(rows, d)| > 0
      ensures IndexOfClass(g, d) >= 0
    {
      if d == c {
        assert g[i].className == c;
      } else {
        var j := IndexOfClass(g0, d);
        assert g[j].className == d;
      }
    }
  }

  lemma AddToNewClassMatches(init: seq<UnclassifiedRow>, row: UnclassifiedRow, g0: seq<ClassGroup>)
    requires DistinctClasses(g0) && GroupsMatch(g0, init) && IndexOfClass(g0, ClassOf(row)) < 0
    requires forall d :: PathsOfClass(init + [row], d) == PathsOfClass(init, d) + (if ClassOf(row) == d then [RelPath(row)] else [])
    ensures GroupsMatch(AddToClass(g0, ClassOf(row), RelPath(row)), init + [row])
  {
    var rows := init + [row];
    var c := ClassOf(row);
    var g := AddToClass(g0, c, RelPath(row));
    assert |PathsOfClass(init, c)| == 0;
    forall k | 0 <= k < |g|
      ensures g[k].filenames == PathsOfClass(rows, g[k].className) && |g[k].filenames| > 0
    {
      if k < |g0| {
        assert g[k] == g0[k] && g0[k].className != c;
      }
    }
    forall d | |PathsOfClass(rows, d)| > 0
      ensures IndexOfClass(g, d) >= 0
    {
      if d == c {
        assert g[|g0|].className == c;
      } else {
        var j := IndexOfClass(g0, d);
        assert g[j].className == d;
      }
    }
  }

  /**
   * The grouping loses and reorders nothing: each class holds exactly the
   * paths of its rows in row order, and a class is listed exactly when one
   * of the rows belongs to it.
   */
  lemma {:induction false} GroupedByClass(rows: seq<UnclassifiedRow>)
    ensures forall k :: 0 <= k < |Grouped(rows)| ==> Grouped(rows)[k].filenames == PathsOfClass(rows, Grouped(rows)[k].className)
    ensures forall c :: IndexOfClass(Grouped(rows), c) >= 0 <==> |PathsOfClass(rows, c)| > 0
    decreases |rows|
  {
    GroupedMatches(rows);
    var g := Grouped(rows);
    forall c | IndexOfClass(g, c) >= 0
      ensures |PathsOfClass(rows, c)| > 0
    {
      assert g[IndexOfClass(g, c)].className == c;
    }
  }

  lemma {:induction false} GroupedMatches(rows: seq<UnclassifiedRow>)
    ensures GroupsMatch(Grouped(rows), rows)
    decreases |rows|
  {
    if |rows| > 0 {
      var init := rows[..|rows| - 1];
      var row := rows[|rows| - 1];
      GroupedMatches(init);
      assert rows == init + [row];
      AddToClassMatches(init, row, Grouped(init));
    }
  }

  /** The dictionary and its key order describe the listing `gs`. */
  predicate MapMatches(order: seq<string>, classesMap: map<string, seq<string>>, gs: seq<ClassGroup>) {
    |order| == |gs| &&
    (forall k :: 0 <= k < |order| ==> order[k] == gs[k].className && order[k] in classesMap && classesMap[order[k]] == gs[k].filenames) &&
    (forall c :: c in classesMap ==> c in order)
  }

  /** A class not yet in the dictionary becomes a new last key. */
  lemma MapAddNew(order: seq<string>, classesMap: map<string, seq<string>>, gs: seq<ClassGroup>, c: string, path: string)
    requires MapMatches(order, classesMap, gs) && c !in classesMap
    ensures MapMatches(order + [c], classesMap[c := [path]], AddToClass(gs, c, path))
  {
    assert forall k :: 0 <= k < |gs| ==> gs[k].className != c;
  }

  /** A class already in the dictionary gets the path appended to its list. */
  lemma MapAddExisting(order: seq<string>, classesMap: map<string, seq<string>>, gs: seq<ClassGroup>, c: string, path: string)
    requires MapMatches(order, classesMap, gs) && DistinctClasses(gs) && c in classesMap
    ensures MapMatches(order, classesMap[c := classesMap[c] + [path]], AddToClass(gs, c, path))
  {
    var j := IndexOfClass(gs, c);
    assert forall k :: 0 <= k < |order| && k != j ==> order[k] != c;
  }

  /** Some row's class is a key an empty object already answers (see `JsObject`). */
  predicate HasInheritedClass(rows: seq<UnclassifiedRow>) {
    exists i :: 0 <= i < |rows| && JsObject.Inherited(ClassOf(rows[i]))
  }

  /**
   * The grouping loop of `/unclassified`, over a dictionary and the order
   * its keys were first seen in; `None` when the loop throws.
   */
  method GroupUnclassified(rows: seq<UnclassifiedRow>) returns (groups: Option<seq<ClassGroup>>)
    ensures groups.None? <==> HasInheritedClass(rows)
    ensures groups.Some? ==> groups.value == Grouped(rows)
  {
    var order, classesMap, thrown := CollectClasses(rows);
    if thrown {
      return None;
    }
    var gs := [];
    var k := 0;
    while k < |order|
      invariant 0 <= k <= |order|
      invariant gs == Grouped(rows)[..k]
    {
      gs := gs + [ClassGroup(order[k], classesMap[order[k]])];
      k := k + 1;
    }
    return Some(gs);
  }

  /**
   * The first loop of the grouping: the map from class to paths and the
   * order classes were first seen. For a class the object inherits,
   * `!classesMap[className]` is false, so no entry is created, and reading
   * `images` of the inherited value gives `undefined`, whose `push` throws
   * a `TypeError` (`thrown`).
   */
  method CollectClasses(rows: seq<UnclassifiedRow>) returns (order: seq<string>, classesMap: map<string, seq<string>>, thrown: bool)
    ensures thrown <==> HasInheritedClass(rows)
    ensures !thrown ==> MapMatches(order, classesMap, Grouped(rows))
  {
    classesMap := map[];
    order := [];
    thrown := false;
    var i := 0;
    while i < |rows|
      invariant 0 <= i <= |rows|
      invariant MapMatches(order, classesMap, Grouped(rows[..i]))
      invariant forall c :: c in classesMap ==> !JsObject.Inherited(c)
    {
      ghost var g0 := Grouped(rows[..i]);
      var className := ClassOf(rows[i]);
      var relPath := RelPath(rows[i]);
      if className !in classesMap && JsObject.Inherited(className) {
        assert JsObject.Inherited(ClassOf(rows[i]));
        thrown := true;
        return;
      }
      GroupedStep(rows, i);
      if className !in classesMap {
        MapAddNew(order, classesMap, g0, className, relPath);
        classesMap := classesMap[className := [relPath]];
        order := order + [className];
      } else {
        MapAddExisting(order, classesMap, g0, className, relPath);
        classesMap := classesMap[className := classesMap[className] + [relPath]];
      }
      i := i + 1;
    }
    assert rows[..i] == rows;
    forall j | 0 <= j < |rows|
      ensures !JsObject.Inherited(ClassOf(rows[j]))
    {
      GroupedHasEveryClass(rows, j);
    }
  }

  /** A class appended to keeps every class the listing had. */
  lemma AddToClassKeeps(gs: seq<ClassGroup>, c: string, path: string, d: string)
    ensures IndexOfClass(AddToClass(gs, c, path), c) >= 0
    ensures IndexOfClass(gs, d) >= 0 ==> IndexOfClass(AddToClass(gs, c, path), d) >= 0
  {
    var r := AddToClass(gs, c, path);
    var i := IndexOfClass(gs, c);
    if i >= 0 {
      assert r[i].className == c;
    } else {
      assert r[|gs|].className == c;
    }
    if IndexOfClass(gs, d) >= 0 {
      var k := IndexOfClass(gs, d);
      assert r[k].className == d;
    }
  }

  /** Every row's class names a group of the listing. */
  lemma {:induction false} GroupedHasEveryClass(rows: seq<UnclassifiedRow>, j: nat)
    requires j < |rows|
    ensures IndexOfClass(Grouped(rows), ClassOf(rows[j])) >= 0
    decreases |rows|
  {
    var init := rows[..|rows| - 1];
    var row := rows[|rows| - 1];
    if j < |rows| - 1 {
      GroupedHasEveryClass(init, j);
      assert init[j] == rows[j];
    }
    AddToClassKeeps(Grouped(init), ClassOf(row), RelPath(row), ClassOf(rows[j]));
  }

  lemma GroupedStep(rows: seq<UnclassifiedRow>, i: nat)
    requires i < |rows|
    ensures Grouped(rows[..i + 1]) == AddToClass(Grouped(rows[..i]), ClassOf(rows[i]), RelPath(rows[i]))
  {
    assert rows[..i + 1][..i] == rows[..i];
  }

  /**
   * The answer of `GET /unclassified`: the class listing, or the 500 that
   * Express's default error handler sends when the handler throws.
   */
  datatype UnclassifiedResponse = Listing(classes: seq<ClassGroup>) | UnclassifiedFailed

  /**
   * `GET /unclassified`: ensures the labels, queries, groups. The label
   * rows are ensured before the grouping can throw, so they stay inserted
   * on the failure path too.
   */
  method Unclassified(db: CatalogDb) returns (resp: UnclassifiedResponse)
    requires db.Valid()
    modifies db
    ensures db.Valid()
    ensures var ids := GetFoodOtherLabelIds(old(db.labelRows), old(db.nextLabelRowId));
      var rows := UnclassifiedRows(db.links, db.images, db.imageLabels, ids.foodId, ids.otherId);
      db.labelRows == ids.rows && db.nextLabelRowId == ids.nextId &&
      (resp.UnclassifiedFailed? <==> HasInheritedClass(rows)) &&
      (resp.Listing? ==> resp.classes == Grouped(rows))
    ensures db.images == old(db.images) && db.links == old(db.links) && db.imageLabels == old(db.imageLabels)
  {
    var foodId, otherId := EnsureFoodOtherLabels(db);
    var rows := UnclassifiedRows(db.links, db.images, db.imageLabels, foodId, otherId);
    var groups := GroupUnclassified(rows);
    if groups.None? {
      return UnclassifiedFailed;
    }
    resp := Listing(groups.value);
  }

  // ---------------------------------------------------------------------
  // /classified
  // ---------------------------------------------------------------------

  /** A row of the `/classified` query. */
  datatype ClassifiedRow = ClassifiedRow(labelId: nat, folderName: string, fileName: string)

  /** The links of one image, as rows of the join, in link order. */
  function LinkRows(links: seq<DatasetLink>, img: CatalogImage, labelId: nat): (r: seq<ClassifiedRow>)
    ensures |r| <= |links|
    ensures forall k :: 0 <= k < |r| ==> r[k].labelId == labelId
    ensures forall row :: row in r <==> exists k :: 0 <= k < |links| && links[k].imageId == img.id &&
                                                    row == ClassifiedRow(labelId, links[k].folderName, img.fileName)
    decreases |links|
  {
    if |links| == 0 then []
    else
      var n := |links| - 1;
      var init := LinkRows(links[..n], img, labelId);
      assert forall k :: 0 <= k < n ==> links[..n][k] == links[k];
      var link := links[n];
      if link.imageId == img.id then init + [ClassifiedRow(labelId, link.folderName, img.fileName)] else init
  }

  /** `image_labels JOIN images JOIN dataset_images WHERE label_id IN (food, other)`, in label order. */
  function ClassifiedRows(labels: seq<ClassLabel>, images: seq<CatalogImage>, links: seq<DatasetLink>, foodId: nat, otherId: nat): (r: seq<ClassifiedRow>)
    ensures forall k :: 0 <= k < |r| ==> r[k].labelId == foodId || r[k].labelId == otherId
    ensures forall row :: row in r <==>
              exists i :: 0 <= i < |labels| && IsFoodOther(labels[i], foodId, otherId) &&
                          ImageById(images, labels[i].imageId).Some? &&
                          row in LinkRows(links, ImageById(images, labels[i].imageId).value, labels[i].labelId)
    decreases |labels|
  {
    if |labels| == 0 then []
    else
      var n := |labels| - 1;
      var init := ClassifiedRows(labels[..n], images, links, foodId, otherId);
      assert forall i :: 0 <= i < n ==> labels[..n][i] == labels[i];
      var l := labels[n];
      var img := ImageById(images, l.imageId);
      if IsFoodOther(l, foodId, otherId) && img.Some? then init + LinkRows(links, img.value, l.labelId) else init
  }

  /** The `folder/file` paths of the rows that go to one bucket: `food` when the label is food, `other` otherwise. */
  function BucketPaths(rows: seq<ClassifiedRow>, foodId: nat, food: bool): seq<string>
    decreases |rows|
  {
    if |rows| == 0 then []
    else
      var row := rows[|rows| - 1];
      BucketPaths(rows[..|rows| - 1], foodId, food) +
        (if (row.labelId == foodId) == food then [row.folderName + "/" + row.fileName] else [])
  }

  /** Every row lands in exactly one of the two buckets. */
  lemma {:induction false} BucketsPartitionRows(rows: seq<ClassifiedRow>, foodId: nat)
    ensures |BucketPaths(rows, foodId, true)| + |BucketPaths(rows, foodId, false)| == |rows|
    decreases |rows|
  {
    if |rows| > 0 {
      BucketsPartitionRows(rows[..|rows| - 1], foodId);
    }
  }

  /** The bucketing loop of `/classified`. */
  method BucketClassified(rows: seq<ClassifiedRow>, foodId: nat) returns (food: seq<string>, other: seq<string>)
    ensures food == BucketPaths(rows, foodId, true)
    ensures other == BucketPaths(rows, foodId, false)
    ensures |food| + |other| == |rows|
  {
    food, other := [], [];
    var i := 0;
    while i < |rows|
      invariant 0 <= i <= |rows|
      invariant food == BucketPaths(rows[..i], foodId, true)
      invariant other == BucketPaths(rows[..i], foodId, false)
    {
      assert rows[..i + 1][..i] == rows[..i];
      var relPath := rows[i].folderName + "/" + rows[i].fileName;
      if rows[i].labelId == foodId {
        food := food + [relPath];
      } else {
        other := other + [relPath];
      }
      i := i + 1;
    }
    assert rows[..i] == rows;
    BucketsPartitionRows(rows, foodId);
  }

  /** `GET /classified`: both buckets are always present, food first. */
  method Classified(db: CatalogDb) returns (groups: seq<ClassGroup>)
    requires db.Valid()
    modifies db
    ensures db.Valid()
    ensures var ids := GetFoodOtherLabelIds(old(db.labelRows), old(db.nextLabelRowId));
      var rows := ClassifiedRows(db.imageLabels, db.images, db.links, ids.foodId, ids.otherId);
      db.labelRows == ids.rows && db.nextLabelRowId == ids.nextId &&
      groups == [ClassGroup("food", BucketPaths(rows, ids.foodId, true)), ClassGroup("other", BucketPaths(rows, ids.foodId, false))]
    ensures db.images == old(db.images) && db.links == old(db.links) && db.imageLabels == old(db.imageLabels)
  {
    var foodId, otherId := EnsureFoodOtherLabels(db);
    var rows := ClassifiedRows(db.imageLabels, db.images, db.links, foodId, otherId);
    var food, other := BucketClassified(rows, foodId);
    groups := [ClassGroup("food", food), ClassGroup("other", other)];
  }
}
