/**
 * The training-set helpers (src/train-helper.ts): group the labelled
 * images by label, copy each one whose source file exists into
 * `dataset/<label>/<label>_<imageId>_<index><ext>`, and report the copies
 * made and the size of each group; count the image files per label folder
 * of the dataset; and say whether the dataset is ready.
 *
 * The file system is a parameter: the set of files that exist when the
 * copy starts, and the listing of the dataset directory. Copies are
 * returned as the sequence of (source, destination) pairs in the order
 * they are made.
 */
module Training {
  import opened Wrappers
  import opened Strings
  import Labels
  import JsObject
  import opened Filtering

  const NoLabeledImagesError: string := "沒有已標註的圖片，請先標註一些圖片"
  /** The message of the `TypeError` that `push` on an inherited value raises in Node.js. */
  const PushNotAFunction: string := "imagesByLabel[img.label].push is not a function"
  const DefaultExtension: string := ".jpg"
  const StatsExtensions: set<string> := {".jpg", ".jpeg", ".png", ".gif", ".webp"}

  /** What a group keeps of a labelled image. */
  datatype Member = Member(imageId: nat, filePath: string)

  /**
   * Where a copy goes: the label folder under the dataset directory and the
   * parts of the file name; the extension is taken from the stored path.
   */
  datatype Dest = Dest(datasetDir: string, tag: string, imageId: nat, index: nat, storedPath: string)

  /** One `copyFileSync(source, dest)`; `DestPath` spells the destination out. */
  datatype Copy = Copy(source: string, dest: Dest)

  /** The result of `prepareTrainingDataset`. */
  datatype PrepareResult = PrepareResult(success: bool, totalImages: nat, categories: map<string, nat>, error: Option<string>)

  // ---------------------------------------------------------------------
  // Grouping by label
  // ---------------------------------------------------------------------

  predicate DistinctLabels(labels: seq<string>) {
    forall i, j :: 0 <= i < j < |labels| ==> labels[i] != labels[j]
  }

  /** The labels in order of first appearance: the keys of `imagesByLabel` in insertion order. */
  function LabelOrder(imgs: seq<Labels.TrainingImage>): (r: seq<string>)
    ensures DistinctLabels(r)
    ensures forall l :: l in r <==> exists i :: 0 <= i < |imgs| && imgs[i].text == l
    decreases |imgs|
  {
    if |imgs| == 0 then []
    else
      var init := imgs[..|imgs| - 1];
      var x := imgs[|imgs| - 1];
      var r0 := LabelOrder(init);
      assert forall i :: 0 <= i < |init| ==> init[i] == imgs[i];
      if x.text in r0 then r0
      else
        assert forall i :: 0 <= i < |r0| ==> r0[i] in r0;
        r0 + [x.text]
  }

  /** The group of one label: its images in input order. */
  function Group(imgs: seq<Labels.TrainingImage>, tag: string): (r: seq<Member>)
    ensures |r| <= |imgs|
    ensures |r| == 0 <==> forall i :: 0 <= i < |imgs| ==> imgs[i].text != tag
    decreases |imgs|
  {
    if |imgs| == 0 then []
    else
      var init := imgs[..|imgs| - 1];
      var x := imgs[|imgs| - 1];
      assert forall i :: 0 <= i < |init| ==> init[i] == imgs[i];
      Group(init, tag) + (if x.text == tag then [Member(x.imageId, x.filePath)] else [])
  }

  /** Grouping keeps the input order: the group of a concatenation is the concatenation of the groups. */
  lemma {:induction false} GroupConcat(a: seq<Labels.TrainingImage>, b: seq<Labels.TrainingImage>, tag: string)
    ensures Group(a + b, tag) == Group(a, tag) + Group(b, tag)
    decreases |b|
  {
    if |b| == 0 {
      assert a + b == a;
    } else {
      var init := b[..|b| - 1];
      assert (a + b)[..|a + b| - 1] == a + init;
      assert (a + b)[|a + b| - 1] == b[|b| - 1];
      GroupConcat(a, init, tag);
    }
  }

  /** The sum of the group sizes of some labels. */
  function GroupSizes(imgs: seq<Labels.TrainingImage>, labels: seq<string>): nat
    decreases |labels|
  {
    if |labels| == 0 then 0
    else GroupSizes(imgs, labels[..|labels| - 1]) + |Group(imgs, labels[|labels| - 1])|
  }

  lemma {:induction false} GroupSizesSnocImage(imgs: seq<Labels.TrainingImage>, x: Labels.TrainingImage, labels: seq<string>)
    requires DistinctLabels(labels)
    ensures GroupSizes(imgs + [x], labels) == GroupSizes(imgs, labels) + (if x.text in labels then 1 else 0)
    decreases |labels|
  {
    assert (imgs + [x])[..|imgs|] == imgs;
    if |labels| > 0 {
      var init := labels[..|labels| - 1];
      assert DistinctLabels(init);
      GroupSizesSnocImage(imgs, x, init);
      assert x.text in labels <==> x.text in init || x.text == labels[|labels| - 1];
      assert labels[|labels| - 1] !in init;
    }
  }

  lemma {:induction false} GroupSizesNewLabel(imgs: seq<Labels.TrainingImage>, labels: seq<string>, l: string)
    ensures GroupSizes(imgs, labels + [l]) == GroupSizes(imgs, labels) + |Group(imgs, l)|
  {
    assert (labels + [l])[..|labels|] == labels;
  }

  /** Every labelled image falls in exactly one group: the group sizes add up to the number of images. */
  lemma {:induction false} GroupSizesCoverInput(imgs: seq<Labels.TrainingImage>)
    ensures GroupSizes(imgs, LabelOrder(imgs)) == |imgs|
    decreases |imgs|
  {
    if |imgs| > 0 {
      var init := imgs[..|imgs| - 1];
      var x := imgs[|imgs| - 1];
      assert imgs == init + [x];
      GroupSizesCoverInput(init);
      var order := LabelOrder(init);
      GroupSizesSnocImage(init, x, order);
      if x.text !in order {
        GroupSizesNewLabel(imgs, order, x.text);
        assert Group(init, x.text) == [];
        assert |Group(imgs, x.text)| == 1;
      }
    }
  }

  /** `imagesByLabel` agrees with the specification for the images seen so far. */
  ghost predicate GroupsMatch(seen: seq<Labels.TrainingImage>, order: seq<string>, groups: map<string, seq<Member>>) {
    order == LabelOrder(seen) &&
    (forall l :: l in groups <==> l in order) &&
    (forall l :: l in groups ==> groups[l] == Group(seen, l))
  }

  lemma GroupsMatchStep(seen: seq<Labels.TrainingImage>, x: Labels.TrainingImage, order: seq<string>, groups: map<string, seq<Member>>)
    requires GroupsMatch(seen, order, groups)
    ensures x.text in groups ==>
      GroupsMatch(seen + [x], order, groups[x.text := groups[x.text] + [Member(x.imageId, x.filePath)]])
    ensures x.text !in groups ==>
      GroupsMatch(seen + [x], order + [x.text], groups[x.text := [Member(x.imageId, x.filePath)]])
  {
    assert (seen + [x])[..|seen|] == seen;
    if x.text !in groups {
      assert Group(seen, x.text) == [];
    }
  }

  /** Some image's label is a key an empty object already answers (see `JsObject`). */
  predicate HasInheritedLabel(imgs: seq<Labels.TrainingImage>) {
    exists i :: 0 <= i < |imgs| && JsObject.Inherited(imgs[i].text)
  }

  /**
   * Lines 42-50: fills `imagesByLabel`, creating a group the first time a
   * label is seen. For a label the object inherits, `!imagesByLabel[label]`
   * is false, so no group is created and `push` on the inherited value
   * throws a `TypeError` (`thrown`), which leaves the loop.
   */
  method GroupByLabel(imgs: seq<Labels.TrainingImage>) returns (order: seq<string>, groups: map<string, seq<Member>>, thrown: bool)
    ensures thrown <==> HasInheritedLabel(imgs)
    ensures !thrown ==> order == LabelOrder(imgs)
    ensures !thrown ==> forall l :: l in groups <==> l in order
    ensures !thrown ==> forall l :: l in groups ==> groups[l] == Group(imgs, l)
  {
    order, groups, thrown := [], map[], false;
    var i := 0;
    while i < |imgs|
      invariant 0 <= i <= |imgs|
      invariant GroupsMatch(imgs[..i], order, groups)
      invariant forall j :: 0 <= j < i ==> !JsObject.Inherited(imgs[j].text)
    {
      var x := imgs[i];
      if x.text !in groups && JsObject.Inherited(x.text) {
        thrown := true;
        return;
      }
      assert imgs[..i + 1] == imgs[..i] + [x];
      GroupsMatchStep(imgs[..i], x, order, groups);
      var member := Member(x.imageId, x.filePath);
      if x.text !in groups {
        order := order + [x.text];
        groups := groups[x.text := [member]];
      } else {
        groups := groups[x.text := groups[x.text] + [member]];
      }
      i := i + 1;
    }
    assert imgs[..i] == imgs;
  }

  // ---------------------------------------------------------------------
  // Paths
  // ---------------------------------------------------------------------

  /**
   * Where an image is read from: a stored path with a folder is under the
   * images directory, a bare name under its label's folder. Either way the
   * source lies under the images directory.
   */
  function SourcePath(imagesDir: string, tag: string, filePath: string): (r: string)
    ensures StartsWith(r, imagesDir + "/")
  {
    if '/' in filePath then
      var r := JoinPath(imagesDir, filePath);
      assert r[..|imagesDir + "/"|] == imagesDir + "/";
      r
    else
      var r := JoinPath(JoinPath(imagesDir, tag), filePath);
      assert r[..|imagesDir + "/"|] == imagesDir + "/";
      r
  }

  /** The source file of an image always has the stored path's own file name. */
  lemma SourcePathKeepsFileName(imagesDir: string, tag: string, filePath: string)
    ensures Basename(SourcePath(imagesDir, tag, filePath)) == Basename(filePath)
  {
    if '/' in filePath {
      BasenameAfterSlash(imagesDir, filePath);
    } else {
      BasenameAfterSlash(JoinPath(imagesDir, tag), filePath);
      assert LastIndexOf(filePath, '/') == -1;
      assert Basename(filePath) == filePath[0..];
    }
  }

  /** `path.extname(filePath) || '.jpg'`. */
  function CopyExtension(filePath: string): (ext: string)
    ensures |ext| > 0 && ext[0] == '.'
    ensures Extname(filePath) != "" ==> ext == Extname(filePath)
  {
    var e := Extname(filePath);
    if e == "" then DefaultExtension else e
  }

  /** `${label}_${imageId}_${index}${ext}`. */
  function DestFileName(tag: string, imageId: nat, index: nat, ext: string): (name: string)
    ensures StartsWith(name, tag + "_") && EndsWith(name, ext)
  {
    var name := tag + "_" + NatToString(imageId) + "_" + NatToString(index) + ext;
    assert name[..|tag| + 1] == tag + "_";
    assert name[|name| - |ext|..] == ext;
    name
  }

  /** The copy of the `index`-th member of a label's group. */
  function CopyOf(imagesDir: string, datasetDir: string, tag: string, m: Member, index: nat): Copy {
    Copy(SourcePath(imagesDir, tag, m.filePath), Dest(datasetDir, tag, m.imageId, index, m.filePath))
  }

  /**
   * `path.join(labelDir, destFileName)`: the destination lies in its
   * label's folder, under a name that starts with the label and ends with
   * the copy's extension.
   */
  function DestPath(d: Dest): (r: string)
    ensures StartsWith(r, JoinPath(d.datasetDir, d.tag) + "/" + d.tag + "_")
    ensures EndsWith(r, CopyExtension(d.storedPath))
  {
    DestPathShape(d.datasetDir, d.tag, d.imageId, d.index, CopyExtension(d.storedPath));
    JoinPath(JoinPath(d.datasetDir, d.tag), DestFileName(d.tag, d.imageId, d.index, CopyExtension(d.storedPath)))
  }

  lemma PrefixedKeepsEnds(dir: string, name: string, start: string, end: string)
    requires StartsWith(name, start) && EndsWith(name, end)
    ensures StartsWith(dir + name, dir + start) && EndsWith(dir + name, end)
  {
    assert (dir + name)[..|dir + start|] == dir + name[..|start|];
    assert (dir + name)[|dir + name| - |end|..] == name[|name| - |end|..];
  }

  /** A destination path lies in its label's folder, under a name that starts with the label and ends with the extension. */
  lemma DestPathShape(datasetDir: string, tag: string, imageId: nat, index: nat, ext: string)
    ensures var p := JoinPath(JoinPath(datasetDir, tag), DestFileName(tag, imageId, index, ext));
      StartsWith(p, JoinPath(datasetDir, tag) + "/" + tag + "_") && EndsWith(p, ext)
  {
    var dir := JoinPath(datasetDir, tag) + "/";
    var name := DestFileName(tag, imageId, index, ext);
    PrefixedKeepsEnds(dir, name, tag + "_", ext);
    assert JoinPath(JoinPath(datasetDir, tag), name) == dir + name;
    assert dir + (tag + "_") == JoinPath(datasetDir, tag) + "/" + tag + "_";
  }

  /** A copy lands in its label's folder, under a name that starts with the label and keeps the image's extension. */
  lemma CopyDestination(imagesDir: string, datasetDir: string, tag: string, m: Member, index: nat)
    ensures var c := CopyOf(imagesDir, datasetDir, tag, m, index);
      StartsWith(DestPath(c.dest), JoinPath(datasetDir, tag) + "/" + tag + "_") &&
      EndsWith(DestPath(c.dest), CopyExtension(m.filePath)) &&
      c.source == SourcePath(imagesDir, tag, m.filePath)
  {
    DestPathShape(datasetDir, tag, m.imageId, index, CopyExtension(m.filePath));
  }

  // ---------------------------------------------------------------------
  // Copying
  // ---------------------------------------------------------------------

  /** The copies made for one group: each member whose source exists, with its position in the group as index. */
  function LabelCopies(imagesDir: string, datasetDir: string, existing: set<string>, tag: string, members: seq<Member>): (r: seq<Copy>)
    ensures |r| <= |members|
    ensures forall k :: 0 <= k < |r| ==> r[k].source in existing
    decreases |members|
  {
    if |members| == 0 then []
    else
      var n := |members| - 1;
      var c := CopyOf(imagesDir, datasetDir, tag, members[n], n);
      var r0 := LabelCopies(imagesDir, datasetDir, existing, tag, members[..n]);
      r0 + (if c.source in existing then [c] else [])
  }

  lemma LabelCopiesSnoc(imagesDir: string, datasetDir: string, existing: set<string>, tag: string, members: seq<Member>, n: nat)
    requires n < |members|
    ensures var c := CopyOf(imagesDir, datasetDir, tag, members[n], n);
      LabelCopies(imagesDir, datasetDir, existing, tag, members[..n + 1]) ==
      LabelCopies(imagesDir, datasetDir, existing, tag, members[..n]) + (if c.source in existing then [c] else [])
  {
    assert members[..n + 1][..n] == members[..n];
  }

  /** Every member whose source exists is copied, with its position in the group as index. */
  lemma {:induction false} LabelCopiesIncludes(imagesDir: string, datasetDir: string, existing: set<string>, tag: string, members: seq<Member>, k: nat)
    requires k < |members|
    requires CopyOf(imagesDir, datasetDir, tag, members[k], k).source in existing
    ensures CopyOf(imagesDir, datasetDir, tag, members[k], k) in LabelCopies(imagesDir, datasetDir, existing, tag, members)
    decreases |members|
  {
    var n := |members| - 1;
    var c := CopyOf(imagesDir, datasetDir, tag, members[k], k);
    var last := CopyOf(imagesDir, datasetDir, tag, members[n], n);
    var r0 := LabelCopies(imagesDir, datasetDir, existing, tag, members[..n]);
    var r := LabelCopies(imagesDir, datasetDir, existing, tag, members);
    assert r == r0 + (if last.source in existing then [last] else []) by {
      assert members[..n + 1] == members;
      LabelCopiesSnoc(imagesDir, datasetDir, existing, tag, members, n);
    }
    if k < n {
      assert c in r0 by {
        assert members[..n][k] == members[k];
        LabelCopiesIncludes(imagesDir, datasetDir, existing, tag, members[..n], k);
      }
    } else {
      assert c == last;
    }
  }

  /** Every member whose source exists is copied, with its position in the group as index; nothing else is copied. */
  lemma LabelCopiesExactly(imagesDir: string, datasetDir: string, existing: set<string>, tag: string, members: seq<Member>, k: nat)
    requires k < |members|
    ensures CopyOf(imagesDir, datasetDir, tag, members[k], k) in LabelCopies(imagesDir, datasetDir, existing, tag, members)
      <==> SourcePath(imagesDir, tag, members[k].filePath) in existing
  {
    var c := CopyOf(imagesDir, datasetDir, tag, members[k], k);
    var r := LabelCopies(imagesDir, datasetDir, existing, tag, members);
    if c in r {
      var i :| 0 <= i < |r| && r[i] == c;
    }
    if c.source in existing {
      LabelCopiesIncludes(imagesDir, datasetDir, existing, tag, members, k);
    }
  }


  /** All copies, group after group in the order the labels were first seen. */
  function AllCopies(imagesDir: string, datasetDir: string, existing: set<string>, imgs: seq<Labels.TrainingImage>, labels: seq<string>): (r: seq<Copy>)
    ensures |r| <= GroupSizes(imgs, labels)
    ensures forall k :: 0 <= k < |r| ==> r[k].source in existing
    decreases |labels|
  {
    if |labels| == 0 then []
    else
      var l := labels[|labels| - 1];
      AllCopies(imagesDir, datasetDir, existing, imgs, labels[..|labels| - 1]) + LabelCopies(imagesDir, datasetDir, existing, l, Group(imgs, l))
  }

  /** `categories`: the size of each label's group. */
  function Categories(imgs: seq<Labels.TrainingImage>): (m: map<string, nat>)
    ensures forall l :: l in m <==> exists i :: 0 <= i < |imgs| && imgs[i].text == l
  {
    SizesOf(imgs, LabelOrder(imgs))
  }

  /** Lines 71-89: the copies for one group, counting each one made. */
  method CopyGroup(imagesDir: string, datasetDir: string, existing: set<string>, tag: string, members: seq<Member>)
    returns (copies: seq<Copy>)
    ensures copies == LabelCopies(imagesDir, datasetDir, existing, tag, members)
  {
    copies := [];
    var index := 0;
    while index < |members|
      invariant 0 <= index <= |members|
      invariant copies == LabelCopies(imagesDir, datasetDir, existing, tag, members[..index])
    {
      LabelCopiesSnoc(imagesDir, datasetDir, existing, tag, members, index);
      var c := CopyOf(imagesDir, datasetDir, tag, members[index], index);
      if c.source in existing {
        copies := copies + [c];
      }
      index := index + 1;
    }
    assert members[..index] == members;
  }

  /** The group sizes of some labels, as `categories` holds them. */
  function SizesOf(imgs: seq<Labels.TrainingImage>, labels: seq<string>): map<string, nat> {
    map l | l in labels :: |Group(imgs, l)|
  }

  lemma CopyAllStep(imagesDir: string, datasetDir: string, existing: set<string>, imgs: seq<Labels.TrainingImage>, order: seq<string>, k: nat)
    requires k < |order|
    ensures AllCopies(imagesDir, datasetDir, existing, imgs, order[..k + 1]) ==
      AllCopies(imagesDir, datasetDir, existing, imgs, order[..k]) + LabelCopies(imagesDir, datasetDir, existing, order[k], Group(imgs, order[k]))
  {
    assert order[..k + 1][..k] == order[..k];
  }

  lemma SizesOfStep(imgs: seq<Labels.TrainingImage>, order: seq<string>, k: nat)
    requires k < |order|
    ensures SizesOf(imgs, order[..k + 1]) == SizesOf(imgs, order[..k])[order[k] := |Group(imgs, order[k])|]
  {
    assert order[..k + 1] == order[..k] + [order[k]];
  }

  /** Lines 62-92: every group in turn, its copies and its size. */
  method CopyAll(imagesDir: string, datasetDir: string, existing: set<string>, imgs: seq<Labels.TrainingImage>,
                 order: seq<string>, groups: map<string, seq<Member>>)
    returns (copies: seq<Copy>, total: nat, categories: map<string, nat>)
    requires forall l :: l in order ==> l in groups && groups[l] == Group(imgs, l)
    ensures copies == AllCopies(imagesDir, datasetDir, existing, imgs, order)
    ensures total == |copies| && categories == SizesOf(imgs, order)
  {
    categories := map[];
    copies := [];
    total := 0;
    var k := 0;
    while k < |order|
      invariant 0 <= k <= |order|
      invariant copies == AllCopies(imagesDir, datasetDir, existing, imgs, order[..k])
      invariant total == |copies|
      invariant categories == SizesOf(imgs, order[..k])
    {
      var tag := order[k];
      CopyAllStep(imagesDir, datasetDir, existing, imgs, order, k);
      SizesOfStep(imgs, order, k);
      var made := CopyGroup(imagesDir, datasetDir, existing, tag, groups[tag]);
      copies := copies + made;
      total := total + |made|;
      categories := categories[tag := |groups[tag]|];
      k := k + 1;
    }
    assert order[..k] == order;
  }

  /**
   * `prepareTrainingDataset`: fails with no labelled image; fails through
   * its `catch` when a label is a key `{}` inherits, before any directory
   * is made; otherwise groups, copies every image whose source exists, and
   * reports the number of copies made and the size of each group.
   */
  method PrepareTrainingDataset(imgs: seq<Labels.TrainingImage>, imagesDir: string, datasetDir: string, existing: set<string>)
    returns (result: PrepareResult, copies: seq<Copy>)
    ensures |imgs| == 0 ==> result == PrepareResult(false, 0, map[], Some(NoLabeledImagesError)) && copies == []
    ensures |imgs| > 0 && HasInheritedLabel(imgs) ==>
      result == PrepareResult(false, 0, map[], Some(PushNotAFunction)) && copies == []
    ensures |imgs| > 0 && !HasInheritedLabel(imgs) ==>
      copies == AllCopies(imagesDir, datasetDir, existing, imgs, LabelOrder(imgs)) &&
      result == PrepareResult(true, |copies|, Categories(imgs), None)
  {
    if |imgs| == 0 {
      return PrepareResult(false, 0, map[], Some(NoLabeledImagesError)), [];
    }
    var order, groups, thrown := GroupByLabel(imgs);
    if thrown {
      return PrepareResult(false, 0, map[], Some(PushNotAFunction)), [];
    }
    var total, categories;
    copies, total, categories := CopyAll(imagesDir, datasetDir, existing, imgs, order, groups);
    result := PrepareResult(true, total, categories, None);
  }

  /** The number of copies reported never exceeds the sum of the category sizes, which is the number of labelled images. */
  lemma CopiesWithinCategories(imagesDir: string, datasetDir: string, existing: set<string>, imgs: seq<Labels.TrainingImage>)
    ensures |AllCopies(imagesDir, datasetDir, existing, imgs, LabelOrder(imgs))| <= GroupSizes(imgs, LabelOrder(imgs)) == |imgs|
  {
    GroupSizesCoverInput(imgs);
  }

  // ---------------------------------------------------------------------
  // getDatasetStats and isDatasetReady
  // ---------------------------------------------------------------------

  /** An entry of the dataset directory: its name, whether it is a directory, and the names in it. */
  datatype DatasetEntry = DatasetEntry(name: string, isDirectory: bool, names: seq<string>)

  /** A name the statistics count as an image. */
  predicate IsStatsImage(name: string) {
    HasExtension(name, StatsExtensions)
  }

  /** The names that count as images in the statistics (`.gif` included): the length of the filter. */
  function StatsImageCount(names: seq<string>): (n: nat)
    ensures n == |Positions(names, IsStatsImage)|
    ensures n <= |names|
    decreases |names|
  {
    if |names| == 0 then 0
    else
      var k := |names| - 1;
      PositionsSnoc(names, IsStatsImage);
      StatsImageCount(names[..k]) + (if IsStatsImage(names[k]) then 1 else 0)
  }

  /** The label directories of the listing, in listing order: every directory entry and nothing else. */
  function LabelDirs(listing: seq<DatasetEntry>): (r: seq<DatasetEntry>)
    ensures forall k :: 0 <= k < |r| ==> r[k].isDirectory && r[k] in listing
    ensures forall e :: e in r <==> e in listing && e.isDirectory
    decreases |listing|
  {
    if |listing| == 0 then []
    else
      var init := listing[..|listing| - 1];
      var e := listing[|listing| - 1];
      var r0 := LabelDirs(init);
      assert listing == init + [e];
      r0 + (if e.isDirectory then [e] else [])
  }

  /** A label directory's name and the number of image files in it. */
  datatype DirCount = DirCount(name: string, count: nat)

  /** Each directory's count, computed once. */
  function Tally(dirs: seq<DatasetEntry>): (r: seq<DirCount>)
    ensures |r| == |dirs|
    ensures forall k :: 0 <= k < |dirs| ==> r[k] == DirCount(dirs[k].name, StatsImageCount(dirs[k].names))
  {
    seq(|dirs|, k requires 0 <= k < |dirs| => DirCount(dirs[k].name, StatsImageCount(dirs[k].names)))
  }

  /** The sum of the image counts of some directories. */
  function TotalImages(cs: seq<DirCount>): nat
    decreases |cs|
  {
    if |cs| == 0 then 0 else TotalImages(cs[..|cs| - 1]) + cs[|cs| - 1].count
  }

  /** The count of each directory, later directories overwriting earlier ones of the same name. */
  function CountsOf(cs: seq<DirCount>): map<string, nat>
    decreases |cs|
  {
    if |cs| == 0 then map[]
    else
      var c := cs[|cs| - 1];
      CountsOf(cs[..|cs| - 1])[c.name := c.count]
  }

  lemma TallyStep(cs: seq<DirCount>, i: nat)
    requires i < |cs|
    ensures TotalImages(cs[..i + 1]) == TotalImages(cs[..i]) + cs[i].count
    ensures CountsOf(cs[..i + 1]) == CountsOf(cs[..i])[cs[i].name := cs[i].count]
  {
    assert cs[..i + 1][..i] == cs[..i];
  }

  datatype DatasetStats = DatasetStats(totalImages: nat, categories: map<string, nat>)

  /** `getDatasetStats`: nothing when the directory is missing, else the image count of every label directory and their total. */
  method GetDatasetStats(datasetExists: bool, listing: seq<DatasetEntry>) returns (stats: DatasetStats)
    ensures !datasetExists ==> stats == DatasetStats(0, map[])
    ensures datasetExists ==>
      var tally := Tally(LabelDirs(listing));
      stats == DatasetStats(TotalImages(tally), CountsOf(tally))
  {
    if !datasetExists {
      return DatasetStats(0, map[]);
    }
    var dirs := LabelDirs(listing);
    ghost var tally := Tally(dirs);
    var categories: map<string, nat> := map[];
    var total := 0;
    var i := 0;
    while i < |dirs|
      invariant 0 <= i <= |dirs|
      invariant total == TotalImages(tally[..i]) && categories == CountsOf(tally[..i])
    {
      var count := StatsImageCount(dirs[i].names);
      assert tally[i] == DirCount(dirs[i].name, count);
      TallyStep(tally, i);
      categories := categories[dirs[i].name := count];
      total := total + count;
      i := i + 1;
    }
    assert tally[..i] == tally;
    stats := DatasetStats(total, categories);
  }

  predicate DistinctNames(cs: seq<DirCount>) {
    forall i, j :: 0 <= i < j < |cs| ==> cs[i].name != cs[j].name
  }

  /** The sum of the counts the map holds for the given names, in order. */
  function SumCounts(names: seq<string>, counts: map<string, nat>): nat
    decreases |names|
  {
    if |names| == 0 then 0
    else SumCounts(names[..|names| - 1], counts) + (if names[|names| - 1] in counts then counts[names[|names| - 1]] else 0)
  }

  function Names(cs: seq<DirCount>): (r: seq<string>)
    ensures |r| == |cs| && forall k :: 0 <= k < |cs| ==> r[k] == cs[k].name
  {
    seq(|cs|, k requires 0 <= k < |cs| => cs[k].name)
  }

  lemma {:induction false} SumCountsUnchanged(names: seq<string>, counts: map<string, nat>, n: string, v: nat)
    requires n !in names
    ensures SumCounts(names, counts[n := v]) == SumCounts(names, counts)
    decreases |names|
  {
    if |names| > 0 {
      assert names[..|names| - 1] + [names[|names| - 1]] == names;
      SumCountsUnchanged(names[..|names| - 1], counts, n, v);
    }
  }

  /** Label directory names never repeat, so the total is the sum of the per-label counts. */
  lemma {:induction false} TotalIsSumOfCategories(cs: seq<DirCount>)
    requires DistinctNames(cs)
    ensures TotalImages(cs) == SumCounts(Names(cs), CountsOf(cs))
    ensures forall k :: 0 <= k < |cs| ==> cs[k].name in CountsOf(cs)
    decreases |cs|
  {
    if |cs| > 0 {
      var init := cs[..|cs| - 1];
      var c := cs[|cs| - 1];
      assert DistinctNames(init);
      TotalIsSumOfCategories(init);
      assert Names(cs) == Names(init) + [c.name];
      assert c.name !in Names(init);
      SumCountsUnchanged(Names(init), CountsOf(init), c.name, c.count);
      assert Names(cs)[..|cs| - 1] == Names(init);
    }
  }

  /** `isDatasetReady`: the directory exists, holds at least one image, and has at least one category. */
  method IsDatasetReady(datasetExists: bool, listing: seq<DatasetEntry>) returns (ready: bool)
    ensures var tally := Tally(LabelDirs(listing));
      ready <==> datasetExists && TotalImages(tally) > 0 && |CountsOf(tally)| > 0
  {
    if !datasetExists {
      return false;
    }
    var stats := GetDatasetStats(datasetExists, listing);
    ready := stats.totalImages > 0 && |stats.categories| > 0;
  }

  lemma {:induction false} TotalPositiveHasCount(cs: seq<DirCount>)
    ensures TotalImages(cs) > 0 <==> exists k :: 0 <= k < |cs| && cs[k].count > 0
    ensures TotalImages(cs) > 0 ==> |CountsOf(cs)| > 0
    decreases |cs|
  {
    if |cs| > 0 {
      var init := cs[..|cs| - 1];
      TotalPositiveHasCount(init);
      assert forall k :: 0 <= k < |init| ==> init[k] == cs[k];
      assert cs[|cs| - 1].name in CountsOf(cs);
    }
  }

  /** The dataset is ready exactly when some label directory holds an image file. */
  lemma ReadyIffSomeImage(datasetExists: bool, listing: seq<DatasetEntry>)
    ensures var tally := Tally(LabelDirs(listing));
      (datasetExists && TotalImages(tally) > 0 && |CountsOf(tally)| > 0) <==>
      datasetExists && exists k :: 0 <= k < |LabelDirs(listing)| && StatsImageCount(LabelDirs(listing)[k].names) > 0
  {
    var tally := Tally(LabelDirs(listing));
    TotalPositiveHasCount(tally);
  }
}
