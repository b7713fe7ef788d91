/**
 * The annotation store (src/image-label-helper.ts): the `images` table as
 * the labelling tools see it (with the search keyword, used as the country
 * folder) and the `image_labels` table of free-text labels, each manual or
 * predicted, reviewed or not. SQLite assigns ids from 1 and never reuses
 * them; queries without ORDER BY return rows in id order.
 */
module Labels {
  import opened Wrappers
  import opened Strings
  import opened Records

  /** A row of `images` with the columns the labelling tools read and write. */
  datatype ImageRecord = ImageRecord(
    id: nat,
    keyword: string,
    url: string,
    altText: string,
    fileName: string,
    downloadStatus: DownloadStatus,
    processStatus: ProcessStatus,
    createdAt: nat)

  /** A row of `image_labels`. */
  datatype ImageLabel = ImageLabel(
    id: nat,
    imageId: nat,
    text: string,
    confidence: real,
    isManual: bool,
    reviewed: bool,
    createdAt: nat,
    updatedAt: nat)

  /** The fields a caller passes to `saveImageLabel`. */
  datatype LabelData = LabelData(imageId: nat, text: string, confidence: real, isManual: bool, reviewed: bool)

  predicate DistinctLabelIds(labels: seq<ImageLabel>) {
    forall i, j :: 0 <= i < j < |labels| ==> labels[i].id != labels[j].id
  }

  predicate HasLabelId(labels: seq<ImageLabel>, id: int) {
    exists i :: 0 <= i < |labels| && labels[i].id == id
  }

  /** Constraints of the two tables: unique urls, distinct ids below the next ids to assign. */
  predicate TablesWellFormed(images: seq<ImageRecord>, labels: seq<ImageLabel>, nextImageId: nat, nextLabelId: nat) {
    nextImageId >= 1 && nextLabelId >= 1 &&
    (forall i, j :: 0 <= i < j < |images| ==> images[i].url != images[j].url && images[i].id != images[j].id) &&
    (forall i :: 0 <= i < |images| ==> 1 <= images[i].id < nextImageId) &&
    DistinctLabelIds(labels) &&
    (forall i :: 0 <= i < |labels| ==> 1 <= labels[i].id < nextLabelId)
  }

  // ---------------------------------------------------------------------
  // saveImageLabel
  // ---------------------------------------------------------------------

  /** The labels of one image, in table order. */
  function LabelsOf(labels: seq<ImageLabel>, imageId: nat): (r: seq<ImageLabel>)
    ensures forall x :: x in r <==> x in labels && x.imageId == imageId
    ensures |r| <= |labels|
    decreases |labels|
  {
    if |labels| == 0 then []
    else
      var rest := LabelsOf(labels[..|labels| - 1], imageId);
      var last := labels[|labels| - 1];
      assert labels == labels[..|labels| - 1] + [last];
      if last.imageId == imageId then rest + [last] else rest
  }

  /** The row `saveImageLabel` appends: the caller's fields, the next id, both timestamps `now`. */
  function NewLabel(data: LabelData, id: nat, now: nat): (l: ImageLabel)
    ensures l.id == id && l.imageId == data.imageId && l.text == data.text && l.confidence == data.confidence
    ensures l.isManual == data.isManual && l.reviewed == data.reviewed && l.createdAt == now && l.updatedAt == now
  {
    ImageLabel(id, data.imageId, data.text, data.confidence, data.isManual, data.reviewed, now, now)
  }

  /** Saving a label adds exactly one to that image's labels and leaves every other image's labels alone. */
  lemma SaveAddsOneLabel(labels: seq<ImageLabel>, l: ImageLabel, imageId: nat)
    ensures |LabelsOf(labels + [l], imageId)| == |LabelsOf(labels, imageId)| + (if l.imageId == imageId then 1 else 0)
  {
    assert (labels + [l])[..|labels|] == labels;
  }

  // ---------------------------------------------------------------------
  // getImageLabels
  // ---------------------------------------------------------------------

  /** `a` sorts strictly before `b` under ORDER BY is_manual DESC, confidence DESC. */
  predicate RanksAbove(a: ImageLabel, b: ImageLabel) {
    (a.isManual && !b.isManual) || (a.isManual == b.isManual && a.confidence > b.confidence)
  }

  predicate SortedByRank(s: seq<ImageLabel>) {
    forall i, j :: 0 <= i < j < |s| ==> !RanksAbove(s[j], s[i])
  }

  function InsertByRank(s: seq<ImageLabel>, x: ImageLabel): (r: seq<ImageLabel>)
    ensures multiset(r) == multiset(s) + multiset{x}
    ensures |r| == |s| + 1
    decreases |s|
  {
    if |s| == 0 then [x]
    else if RanksAbove(x, s[0]) then [x] + s
    else
      assert s == [s[0]] + s[1..];
      [s[0]] + InsertByRank(s[1..], x)
  }

  lemma {:induction false} InsertByRankSorted(s: seq<ImageLabel>, x: ImageLabel)
    requires SortedByRank(s)
    ensures SortedByRank(InsertByRank(s, x))
    decreases |s|
  {
    if |s| > 0 && !(RanksAbove(x, s[0])) {
      var tail := InsertByRank(s[1..], x);
      InsertByRankSorted(s[1..], x);
      var r := [s[0]] + tail;
      assert r == InsertByRank(s, x);
      forall y | y in tail ensures !RanksAbove(y, s[0]) {
        assert y in multiset(tail);
        assert y in multiset(s[1..]) || y == x;
      }
      forall i, j | 0 <= i < j < |r| ensures !RanksAbove(r[j], r[i]) {
        if i == 0 {
          assert r[j] in tail;
        } else {
          assert r[i] == tail[i - 1] && r[j] == tail[j - 1];
        }
      }
    }
  }

  /** Insertion sort by rank; rows of equal rank keep their table order. */
  function SortByRank(s: seq<ImageLabel>): (r: seq<ImageLabel>)
    ensures SortedByRank(r) && multiset(r) == multiset(s)
    decreases |s|
  {
    if |s| == 0 then []
    else
      var init := s[..|s| - 1];
      assert s == init + [s[|s| - 1]];
      InsertByRankSorted(SortByRank(init), s[|s| - 1]);
      InsertByRank(SortByRank(init), s[|s| - 1])
  }

  /**
   * `getImageLabels(imageId)`: exactly that image's labels, each once, manual
   * labels first and, within each kind, by confidence descending.
   */
  function GetImageLabels(labels: seq<ImageLabel>, imageId: nat): (r: seq<ImageLabel>)
    ensures multiset(r) == multiset(LabelsOf(labels, imageId))
    ensures forall x :: x in r <==> x in labels && x.imageId == imageId
    ensures SortedByRank(r)
    ensures forall i, j :: 0 <= i < j < |r| && r[j].isManual ==> r[i].isManual
  {
    var r := SortByRank(LabelsOf(labels, imageId));
    assert forall x :: x in r <==> x in multiset(r);
    r
  }

  // ---------------------------------------------------------------------
  // deleteImageLabel, markLabelAsReviewed
  // ---------------------------------------------------------------------

  /** `DELETE FROM image_labels WHERE id = ?`. */
  function WithoutLabel(labels: seq<ImageLabel>, id: int): (r: seq<ImageLabel>)
    ensures forall x :: x in r <==> x in labels && x.id != id
    ensures |r| <= |labels|
    ensures !HasLabelId(labels, id) ==> r == labels
    decreases |labels|
  {
    if |labels| == 0 then []
    else
      var rest := WithoutLabel(labels[..|labels| - 1], id);
      var last := labels[|labels| - 1];
      assert labels == labels[..|labels| - 1] + [last];
      assert !HasLabelId(labels, id) ==> !HasLabelId(labels[..|labels| - 1], id);
      if last.id == id then rest else rest + [last]
  }

  /** With distinct ids, deleting an existing id removes exactly one row. */
  lemma {:induction false} WithoutLabelCount(labels: seq<ImageLabel>, id: int)
    requires DistinctLabelIds(labels)
    ensures |WithoutLabel(labels, id)| == |labels| - (if HasLabelId(labels, id) then 1 else 0)
    decreases |labels|
  {
    if |labels| > 0 {
      var init := labels[..|labels| - 1];
      WithoutLabelCount(init, id);
      var last := labels[|labels| - 1];
      if last.id == id {
        assert !HasLabelId(init, id);
      } else {
        assert HasLabelId(labels, id) ==> HasLabelId(init, id);
      }
    }
  }

  /** `UPDATE image_labels SET reviewed = 1, updated_at = now WHERE id = ?`. */
  function MarkReviewed(labels: seq<ImageLabel>, id: int, now: nat): (r: seq<ImageLabel>)
    ensures |r| == |labels|
    ensures forall i :: 0 <= i < |labels| ==>
      r[i] == if labels[i].id == id then labels[i].(reviewed := true, updatedAt := now) else labels[i]
  {
    seq(|labels|, i requires 0 <= i < |labels| =>
      if labels[i].id == id then labels[i].(reviewed := true, updatedAt := now) else labels[i])
  }

  /**
   * Marking is idempotent: the second call finds the row again and only
   * its timestamp moves; the reviewed flags are those of a single call.
   */
  lemma MarkReviewedTwice(labels: seq<ImageLabel>, id: int, t1: nat, t2: nat)
    ensures HasLabelId(MarkReviewed(labels, id, t1), id) == HasLabelId(labels, id)
    ensures MarkReviewed(MarkReviewed(labels, id, t1), id, t2) == MarkReviewed(labels, id, t2)
  {
    var once := MarkReviewed(labels, id, t1);
    if HasLabelId(labels, id) {
      var i :| 0 <= i < |labels| && labels[i].id == id;
      assert once[i].id == id;
    }
    if HasLabelId(once, id) {
      var i :| 0 <= i < |once| && once[i].id == id;
      assert labels[i].id == id;
    }
  }

  // ---------------------------------------------------------------------
  // getImageIdFromPath, createImageRecordIfNotExists
  // ---------------------------------------------------------------------

  /** The first-strategy match: `file_name = country/filename`. */
  predicate ExactPathMatch(img: ImageRecord, country: string, filename: string) {
    img.fileName == country + "/" + filename
  }

  /** The second-strategy match: `file_name LIKE '%/filename' OR file_name = filename` (LIKE read literally). */
  predicate FileNameMatch(img: ImageRecord, filename: string) {
    EndsWith(img.fileName, "/" + filename) || img.fileName == filename
  }

  /** Index of the first row satisfying `p`, or -1. */
  function FirstWhere(images: seq<ImageRecord>, p: ImageRecord -> bool): (i: int)
    ensures -1 <= i < |images|
    ensures i >= 0 ==> p(images[i]) && forall j :: 0 <= j < i ==> !p(images[j])
    ensures i == -1 ==> forall j :: 0 <= j < |images| ==> !p(images[j])
    decreases |images|
  {
    if |images| == 0 then -1
    else if p(images[0]) then 0
    else var k := FirstWhere(images[1..], p); if k == -1 then -1 else k + 1
  }

  /**
   * `getImageIdFromPath`: the id of the first row whose file name is
   * `country/filename`; failing that, of the first row whose file name ends
   * in `/filename` or equals `filename`; otherwise null.
   */
  function GetImageIdFromPath(images: seq<ImageRecord>, country: string, filename: string): (r: Option<nat>)
    ensures r.Some? ==> exists i :: 0 <= i < |images| && images[i].id == r.value &&
                          (ExactPathMatch(images[i], country, filename) || FileNameMatch(images[i], filename))
    ensures r.None? <==> forall i :: 0 <= i < |images| ==>
                          !ExactPathMatch(images[i], country, filename) && !FileNameMatch(images[i], filename)
    ensures (exists i :: 0 <= i < |images| && ExactPathMatch(images[i], country, filename)) ==>
              r.Some? && exists i :: 0 <= i < |images| && images[i].id == r.value && ExactPathMatch(images[i], country, filename)
  {
    var i := FirstWhere(images, (img: ImageRecord) => ExactPathMatch(img, country, filename));
    if i >= 0 then Some(images[i].id)
    else
      var k := FirstWhere(images, (img: ImageRecord) => FileNameMatch(img, filename));
      if k >= 0 then Some(images[k].id) else None
  }

  const UniqueUrlError: string := "UNIQUE constraint failed: images.url"

  /** The row `createImageRecordIfNotExists` inserts for a local file. */
  function LocalImageRecord(id: nat, country: string, filename: string, now: nat): ImageRecord {
    ImageRecord(id, country, "", "[" + country + "] " + filename, country + "/" + filename, Downloaded, Processed, now)
  }

  predicate ImageUrlTaken(images: seq<ImageRecord>, url: string) {
    exists i :: 0 <= i < |images| && images[i].url == url
  }

  datatype CreateResult = CreateResult(images: seq<ImageRecord>, nextImageId: nat, id: Result<nat, string>)

  /**
   * `createImageRecordIfNotExists`: the existing id when the lookup finds
   * one; otherwise a new row with an empty url, which the UNIQUE url column
   * rejects once any row already has an empty url.
   */
  function CreateImageRecord(images: seq<ImageRecord>, nextImageId: nat, country: string, filename: string, now: nat): (r: CreateResult)
    ensures GetImageIdFromPath(images, country, filename).Some? ==>
              r == CreateResult(images, nextImageId, Ok(GetImageIdFromPath(images, country, filename).value))
    ensures GetImageIdFromPath(images, country, filename).None? && ImageUrlTaken(images, "") ==>
              r == CreateResult(images, nextImageId, Err(UniqueUrlError))
    ensures r.id.Ok? && GetImageIdFromPath(images, country, filename).None? ==>
              r.images == images + [LocalImageRecord(nextImageId, country, filename, now)] &&
              r.id.value == nextImageId && r.nextImageId == nextImageId + 1
  {
    match GetImageIdFromPath(images, country, filename)
    case Some(id) => CreateResult(images, nextImageId, Ok(id))
    case None =>
      if ImageUrlTaken(images, "") then CreateResult(images, nextImageId, Err(UniqueUrlError))
      else CreateResult(images + [LocalImageRecord(nextImageId, country, filename, now)], nextImageId + 1, Ok(nextImageId))
  }

  /** Calling it again with the same arguments returns the same id and inserts nothing. */
  lemma CreateImageRecordIdempotent(images: seq<ImageRecord>, nextImageId: nat, country: string, filename: string, t1: nat, t2: nat)
    requires CreateImageRecord(images, nextImageId, country, filename, t1).id.Ok?
    ensures var first := CreateImageRecord(images, nextImageId, country, filename, t1);
            CreateImageRecord(first.images, first.nextImageId, country, filename, t2) == first
  {
    var first := CreateImageRecord(images, nextImageId, country, filename, t1);
    if GetImageIdFromPath(images, country, filename).None? {
      var n := |images|;
      assert first.images[n] == LocalImageRecord(nextImageId, country, filename, t1);
      assert ExactPathMatch(first.images[n], country, filename);
      assert forall j :: 0 <= j < n ==> first.images[j] == images[j];
      assert GetImageIdFromPath(first.images, country, filename) == Some(nextImageId);
    }
  }

  /**
   * As written, two different local files cannot both get a row: the first
   * creation stores url '', so creating a second record whose lookup misses
   * fails on the UNIQUE url column.
   */
  lemma SecondLocalRecordRejected(images: seq<ImageRecord>, nextImageId: nat, c1: string, f1: string, c2: string, f2: string, t1: nat, t2: nat)
    requires GetImageIdFromPath(images, c1, f1).None?
    requires CreateImageRecord(images, nextImageId, c1, f1, t1).id.Ok?
    requires var first := CreateImageRecord(images, nextImageId, c1, f1, t1);
             GetImageIdFromPath(first.images, c2, f2).None?
    ensures var first := CreateImageRecord(images, nextImageId, c1, f1, t1);
            CreateImageRecord(first.images, first.nextImageId, c2, f2, t2).id == Err(UniqueUrlError)
  {
    var first := CreateImageRecord(images, nextImageId, c1, f1, t1);
    assert first.images[|images|].url == "";
  }

  // ---------------------------------------------------------------------
  // getLabeledStats
  // ---------------------------------------------------------------------

  datatype LabeledStats = LabeledStats(totalLabeled: nat, totalManual: nat, totalAI: nat, totalReviewed: nat)

  function LabeledImageIds(labels: seq<ImageLabel>): set<nat> {
    set i | 0 <= i < |labels| :: labels[i].imageId
  }

  function CountManual(labels: seq<ImageLabel>, manual: bool): (n: nat)
    ensures n <= |labels|
    decreases |labels|
  {
    if |labels| == 0 then 0
    else CountManual(labels[..|labels| - 1], manual) + (if labels[|labels| - 1].isManual == manual then 1 else 0)
  }

  function CountReviewed(labels: seq<ImageLabel>): (n: nat)
    ensures n <= |labels|
    decreases |labels|
  {
    if |labels| == 0 then 0
    else CountReviewed(labels[..|labels| - 1]) + (if labels[|labels| - 1].reviewed then 1 else 0)
  }

  lemma {:induction false} ManualPlusAI(labels: seq<ImageLabel>)
    ensures CountManual(labels, true) + CountManual(labels, false) == |labels|
    decreases |labels|
  {
    if |labels| > 0 {
      ManualPlusAI(labels[..|labels| - 1]);
    }
  }

  lemma {:induction false} LabeledImageIdsBound(labels: seq<ImageLabel>)
    ensures |LabeledImageIds(labels)| <= |labels|
    ensures |labels| > 0 ==> |LabeledImageIds(labels)| >= 1
    decreases |labels|
  {
    if |labels| > 0 {
      var init := labels[..|labels| - 1];
      LabeledImageIdsBound(init);
      assert LabeledImageIds(labels) == LabeledImageIds(init) + {labels[|labels| - 1].imageId};
    }
  }

  /** Positions of the rows whose `is_manual` is `manual`: what `SUM(CASE WHEN is_manual …)` counts. */
  function ManualRows(labels: seq<ImageLabel>, manual: bool): set<nat> {
    set i | 0 <= i < |labels| && labels[i].isManual == manual
  }

  /** Positions of the reviewed rows. */
  function ReviewedRows(labels: seq<ImageLabel>): set<nat> {
    set i | 0 <= i < |labels| && labels[i].reviewed
  }

  lemma {:induction false} CountManualRows(labels: seq<ImageLabel>, manual: bool)
    ensures CountManual(labels, manual) == |ManualRows(labels, manual)|
    decreases |labels|
  {
    if |labels| > 0 {
      var n := |labels| - 1;
      CountManualRows(labels[..n], manual);
      assert ManualRows(labels, manual) ==
             ManualRows(labels[..n], manual) + (if labels[n].isManual == manual then {n} else {});
    }
  }

  lemma {:induction false} CountReviewedRows(labels: seq<ImageLabel>)
    ensures CountReviewed(labels) == |ReviewedRows(labels)|
    decreases |labels|
  {
    if |labels| > 0 {
      var n := |labels| - 1;
      CountReviewedRows(labels[..n]);
      assert ReviewedRows(labels) == ReviewedRows(labels[..n]) + (if labels[n].reviewed then {n} else {});
    }
  }

  /**
   * `getLabeledStats`: the number of distinct labelled images, the numbers of
   * manual, predicted and reviewed rows (manual and predicted add up to the
   * number of labels); all 0 on an empty table.
   */
  function GetLabeledStats(labels: seq<ImageLabel>): (st: LabeledStats)
    ensures st.totalManual == |ManualRows(labels, true)| && st.totalAI == |ManualRows(labels, false)|
    ensures st.totalReviewed == |ReviewedRows(labels)|
    ensures st.totalManual + st.totalAI == |labels|
    ensures st.totalReviewed <= |labels| && st.totalLabeled <= |labels|
    ensures st.totalLabeled == 0 <==> |labels| == 0
    ensures st.totalLabeled == |LabeledImageIds(labels)|
  {
    ManualPlusAI(labels);
    LabeledImageIdsBound(labels);
    CountManualRows(labels, true);
    CountManualRows(labels, false);
    CountReviewedRows(labels);
    LabeledStats(|LabeledImageIds(labels)|, CountManual(labels, true), CountManual(labels, false), CountReviewed(labels))
  }

  // ---------------------------------------------------------------------
  // getLabeledImagesForTraining
  // ---------------------------------------------------------------------

  datatype TrainingImage = TrainingImage(imageId: nat, filePath: string, text: string, isManual: bool)

  /** `keyword ? keyword/file_name : file_name`. */
  function RecordPath(img: ImageRecord): string {
    if img.keyword != "" then img.keyword + "/" + img.fileName else img.fileName
  }

  /** A label that training may use: manual or reviewed. */
  predicate Trusted(l: ImageLabel) {
    l.isManual || l.reviewed
  }

  function Entry(l: ImageLabel, img: ImageRecord): TrainingImage {
    TrainingImage(l.imageId, RecordPath(img), l.text, l.isManual)
  }

  /** The join rows of trusted labels with their images, in label order (ids are unique, so one image per label). */
  function TrustedJoin(labels: seq<ImageLabel>, images: seq<ImageRecord>): (r: seq<TrainingImage>)
    ensures forall e :: e in r <==> JoinedFrom(labels, images, e)
    decreases |labels|
  {
    if |labels| == 0 then []
    else
      var init := labels[..|labels| - 1];
      var l := labels[|labels| - 1];
      var rest := TrustedJoin(init, images);
      var img := FirstImage(images, l.imageId);
      var r := if Trusted(l) && img.Some? then rest + [Entry(l, img.value)] else rest;
      assert forall i :: 0 <= i < |init| ==> labels[i] == init[i];
      r
  }

  /** `e` is the join row of some trusted label with the image it names. */
  predicate JoinedFrom(labels: seq<ImageLabel>, images: seq<ImageRecord>, e: TrainingImage) {
    exists i :: 0 <= i < |labels| && Trusted(labels[i]) && FirstImage(images, labels[i].imageId).Some? &&
      e == Entry(labels[i], FirstImage(images, labels[i].imageId).value)
  }

  function FirstImage(images: seq<ImageRecord>, id: nat): (r: Option<ImageRecord>)
    ensures r.Some? ==> r.value in images && r.value.id == id
    ensures r.None? ==> forall k :: 0 <= k < |images| ==> images[k].id != id
    ensures r.Some? ==> exists k :: 0 <= k < |images| && images[k] == r.value
  {
    var k := FirstWhere(images, (img: ImageRecord) => img.id == id);
    if k >= 0 then Some(images[k]) else None
  }

  /** Keeps the first occurrence of each row (SELECT DISTINCT). */
  function Distinct(s: seq<TrainingImage>): (r: seq<TrainingImage>)
    ensures forall e :: e in r <==> e in s
    ensures forall i, j :: 0 <= i < j < |r| ==> r[i] != r[j]
    decreases |s|
  {
    if |s| == 0 then []
    else
      var rest := Distinct(s[..|s| - 1]);
      var last := s[|s| - 1];
      assert s == s[..|s| - 1] + [last];
      if last in rest then rest else rest + [last]
  }

  /** `a` sorts strictly before `b` under ORDER BY image_id. */
  predicate IdAbove(a: TrainingImage, b: TrainingImage) {
    a.imageId < b.imageId
  }

  predicate SortedById(s: seq<TrainingImage>) {
    forall i, j :: 0 <= i < j < |s| ==> !IdAbove(s[j], s[i])
  }

  function InsertById(s: seq<TrainingImage>, x: TrainingImage): (r: seq<TrainingImage>)
    ensures multiset(r) == multiset(s) + multiset{x}
    ensures |r| == |s| + 1
    decreases |s|
  {
    if |s| == 0 then [x]
    else if x.imageId < s[0].imageId then [x] + s
    else
      assert s == [s[0]] + s[1..];
      [s[0]] + InsertById(s[1..], x)
  }

  lemma {:induction false} InsertByIdSorted(s: seq<TrainingImage>, x: TrainingImage)
    requires SortedById(s)
    ensures SortedById(InsertById(s, x))
    decreases |s|
  {
    if |s| > 0 && !(x.imageId < s[0].imageId) {
      var tail := InsertById(s[1..], x);
      InsertByIdSorted(s[1..], x);
      var r := [s[0]] + tail;
      assert r == InsertById(s, x);
      forall y | y in tail ensures !IdAbove(y, s[0]) {
        assert y in multiset(tail);
        assert y in multiset(s[1..]) || y == x;
      }
      forall i, j | 0 <= i < j < |r| ensures !IdAbove(r[j], r[i]) {
        if i == 0 {
          assert r[j] in tail;
        } else {
          assert r[i] == tail[i - 1] && r[j] == tail[j - 1];
        }
      }
    }
  }

  function SortById(s: seq<TrainingImage>): (r: seq<TrainingImage>)
    ensures SortedById(r) && multiset(r) == multiset(s)
    decreases |s|
  {
    if |s| == 0 then []
    else
      var init := s[..|s| - 1];
      assert s == init + [s[|s| - 1]];
      InsertByIdSorted(SortById(init), s[|s| - 1]);
      InsertById(SortById(init), s[|s| - 1])
  }

  lemma MultisetKeepsDistinct(s: seq<TrainingImage>, r: seq<TrainingImage>)
    requires multiset(r) == multiset(s)
    requires forall i, j :: 0 <= i < j < |s| ==> s[i] != s[j]
    ensures forall i, j :: 0 <= i < j < |r| ==> r[i] != r[j]
  {
    forall i, j | 0 <= i < j < |r| ensures r[i] != r[j] {
      if r[i] == r[j] {
        assert multiset(r)[r[i]] >= 2 by {
          assert r == r[..i] + [r[i]] + r[i + 1..j] + [r[j]] + r[j + 1..];
        }
        SeqDistinctCountOne(s, r[i]);
        assert false;
      }
    }
  }

  lemma {:induction false} SeqDistinctCountOne(s: seq<TrainingImage>, x: TrainingImage)
    requires forall i, j :: 0 <= i < j < |s| ==> s[i] != s[j]
    ensures multiset(s)[x] <= 1
    decreases |s|
  {
    if |s| > 0 {
      var init := s[..|s| - 1];
      SeqDistinctCountOne(init, x);
      assert s == init + [s[|s| - 1]];
      if s[|s| - 1] == x {
        assert x !in init;
      }
    }
  }

  /**
   * `getLabeledImagesForTraining`: one entry per distinct (image, label,
   * manual) of a manual or reviewed label whose image exists, ordered by
   * image id, with the file path `keyword/file_name` (or `file_name`).
   */
  function GetLabeledImagesForTraining(labels: seq<ImageLabel>, images: seq<ImageRecord>): (r: seq<TrainingImage>)
    ensures forall e :: e in r <==> e in TrustedJoin(labels, images)
    ensures forall i, j :: 0 <= i < j < |r| ==> r[i] != r[j]
    ensures SortedById(r)
  {
    var d := Distinct(TrustedJoin(labels, images));
    var r := SortById(d);
    MultisetKeepsDistinct(d, r);
    assert forall e :: e in r <==> e in multiset(r);
    r
  }

  /** Only manual or reviewed labels reach training. */
  lemma TrainingUsesTrustedLabels(labels: seq<ImageLabel>, images: seq<ImageRecord>, e: TrainingImage)
    requires e in GetLabeledImagesForTraining(labels, images)
    ensures exists i :: 0 <= i < |labels| && Trusted(labels[i]) && labels[i].imageId == e.imageId && labels[i].text == e.text
  {
  }

  /**
   * As written, a row made by `createImageRecordIfNotExists` has keyword
   * `country` and file name `country/filename`, so its training path
   * repeats the country: `country/country/filename`.
   */
  lemma LocalRecordTrainingPath(id: nat, country: string, filename: string, now: nat)
    requires country != ""
    ensures RecordPath(LocalImageRecord(id, country, filename, now)) == country + "/" + country + "/" + filename
  {
  }

  // ---------------------------------------------------------------------
  // getUnlabeledImages
  // ---------------------------------------------------------------------

  datatype UnlabeledImage = UnlabeledImage(id: nat, filePath: string, country: string, filename: string)

  predicate IsLabeled(labels: seq<ImageLabel>, imageId: nat) {
    exists i :: 0 <= i < |labels| && labels[i].imageId == imageId
  }

  function Unlabeled(images: seq<ImageRecord>, labels: seq<ImageLabel>): (r: seq<UnlabeledImage>)
    ensures |r| <= |images|
    ensures forall u :: u in r ==> !IsLabeled(labels, u.id)
    ensures forall k :: 0 <= k < |images| && !IsLabeled(labels, images[k].id) ==>
              UnlabeledImage(images[k].id, RecordPath(images[k]), images[k].keyword, images[k].fileName) in r
    decreases |images|
  {
    if |images| == 0 then []
    else
      var init := images[..|images| - 1];
      var img := images[|images| - 1];
      var rest := Unlabeled(init, labels);
      assert forall k :: 0 <= k < |init| ==> images[k] == init[k];
      if IsLabeled(labels, img.id) then rest
      else rest + [UnlabeledImage(img.id, RecordPath(img), img.keyword, img.fileName)]
  }

  function ImageIds(images: seq<ImageRecord>): set<nat> {
    set k | 0 <= k < |images| :: images[k].id
  }

  lemma IsLabeledIff(labels: seq<ImageLabel>, id: nat)
    ensures IsLabeled(labels, id) <==> id in LabeledImageIds(labels)
  {
    if id in LabeledImageIds(labels) {
      var i :| 0 <= i < |labels| && labels[i].imageId == id;
    }
  }

  lemma UnlabeledLength(images: seq<ImageRecord>, labels: seq<ImageLabel>)
    requires |images| > 0
    ensures |Unlabeled(images, labels)| ==
            |Unlabeled(images[..|images| - 1], labels)| + (if IsLabeled(labels, images[|images| - 1].id) then 0 else 1)
  {
  }

  lemma ImageIdsStep(images: seq<ImageRecord>)
    requires |images| > 0
    requires forall i, j :: 0 <= i < j < |images| ==> images[i].id != images[j].id
    ensures ImageIds(images) == ImageIds(images[..|images| - 1]) + {images[|images| - 1].id}
    ensures images[|images| - 1].id !in ImageIds(images[..|images| - 1])
  {
    var n := |images| - 1;
    var init := images[..n];
    assert forall k :: 0 <= k < n ==> init[k] == images[k];
    assert ImageIds(images) == ImageIds(init) + {images[n].id};
  }

  lemma NewIdSplit(ids: set<nat>, id: nat, l: set<nat>)
    requires id !in ids
    ensures |(ids + {id}) * l| == |ids * l| + (if id in l then 1 else 0)
  {
    if id in l {
      assert (ids + {id}) * l == (ids * l) + {id};
    } else {
      assert (ids + {id}) * l == ids * l;
    }
  }

  /** One more image: it lands in the unlabeled list or among the labelled ids, never both. */
  lemma UnlabeledPlusLabeledStep(images: seq<ImageRecord>, labels: seq<ImageLabel>)
    requires |images| > 0
    requires forall i, j :: 0 <= i < j < |images| ==> images[i].id != images[j].id
    requires var init := images[..|images| - 1];
             |Unlabeled(init, labels)| + |ImageIds(init) * LabeledImageIds(labels)| == |init|
    ensures |Unlabeled(images, labels)| + |ImageIds(images) * LabeledImageIds(labels)| == |images|
  {
    var n := |images| - 1;
    var id := images[n].id;
    UnlabeledLength(images, labels);
    ImageIdsStep(images);
    NewIdSplit(ImageIds(images[..n]), id, LabeledImageIds(labels));
    IsLabeledIff(labels, id);
  }

  /**
   * With distinct image ids, every image is either in the unlabeled list or
   * has its id among the labelled ones.
   */
  lemma {:induction false} UnlabeledPlusLabeled(images: seq<ImageRecord>, labels: seq<ImageLabel>)
    requires forall i, j :: 0 <= i < j < |images| ==> images[i].id != images[j].id
    ensures |Unlabeled(images, labels)| + |ImageIds(images) * LabeledImageIds(labels)| == |images|
    decreases |images|
  {
    if |images| > 0 {
      var init := images[..|images| - 1];
      assert forall i :: 0 <= i < |init| ==> init[i] == images[i];
      UnlabeledPlusLabeled(init, labels);
      UnlabeledPlusLabeledStep(images, labels);
    }
  }

  /** SQLite `LIMIT n`: a negative limit means no limit. */
  function Limit<T>(s: seq<T>, limit: int): (r: seq<T>)
    ensures limit >= 0 ==> |r| == if |s| < limit then |s| else limit
    ensures limit < 0 ==> r == s
    ensures r == s[..|r|]
  {
    if limit < 0 || |s| <= limit then s else s[..limit]
  }

  /** `getUnlabeledImages(limit)`: images with no label row, in table order, at most `limit` of them. */
  function GetUnlabeledImages(images: seq<ImageRecord>, labels: seq<ImageLabel>, limit: int): (r: seq<UnlabeledImage>)
    ensures limit >= 0 ==> |r| <= limit
    ensures forall u :: u in r ==> !IsLabeled(labels, u.id)
    ensures |r| <= |Unlabeled(images, labels)| && r == Unlabeled(images, labels)[..|r|]
    ensures limit < 0 || |Unlabeled(images, labels)| <= limit ==> r == Unlabeled(images, labels)
    ensures 0 <= limit < |Unlabeled(images, labels)| ==> |r| == limit
  {
    var all := Unlabeled(images, labels);
    var r := Limit(all, limit);
    assert forall u :: u in r ==> u in all;
    r
  }

  // ---------------------------------------------------------------------
  // The database
  // ---------------------------------------------------------------------

  /** The labelling database: the images the tools know about and their labels. */
  class LabelDb {
    var images: seq<ImageRecord>
    var labels: seq<ImageLabel>
    var nextImageId: nat
    var nextLabelId: nat

    ghost predicate Valid()
      reads this
    {
      TablesWellFormed(images, labels, nextImageId, nextLabelId)
    }

    constructor ()
      ensures Valid() && images == [] && labels == []
    {
      images, labels := [], [];
      nextImageId, nextLabelId := 1, 1;
    }

    /** `saveImageLabel`: appends one row, with no duplicate check, and returns its new id. */
    method SaveImageLabel(data: LabelData, now: nat) returns (id: nat)
      requires Valid()
      modifies this
      ensures Valid()
      ensures id == old(nextLabelId) && nextLabelId == id + 1
      ensures labels == old(labels) + [NewLabel(data, id, now)]
      ensures images == old(images) && nextImageId == old(nextImageId)
    {
      id := nextLabelId;
      labels := labels + [NewLabel(data, id, now)];
      nextLabelId := nextLabelId + 1;
    }

    /** `deleteImageLabel`: removes the row with that id; true exactly when there was one. */
    method DeleteImageLabel(labelId: int) returns (deleted: bool)
      requires Valid()
      modifies this
      ensures Valid()
      ensures deleted == HasLabelId(old(labels), labelId)
      ensures labels == WithoutLabel(old(labels), labelId)
      ensures |labels| == |old(labels)| - (if deleted then 1 else 0)
      ensures images == old(images) && nextImageId == old(nextImageId) && nextLabelId == old(nextLabelId)
    {
      deleted := HasLabelId(labels, labelId);
      WithoutLabelCount(labels, labelId);
      var before := labels;
      labels := WithoutLabel(labels, labelId);
      assert forall i :: 0 <= i < |labels| ==> labels[i] in before;
      forall i, j | 0 <= i < j < |labels| ensures labels[i].id != labels[j].id {
        SubsequenceIds(before, labelId, i, j);
      }
    }

    /** `markLabelAsReviewed`: sets `reviewed` on the row with that id; true exactly when there is one. */
    method MarkLabelAsReviewed(labelId: int, now: nat) returns (changed: bool)
      requires Valid()
      modifies this
      ensures Valid()
      ensures changed == HasLabelId(old(labels), labelId)
      ensures labels == MarkReviewed(old(labels), labelId, now)
      ensures images == old(images) && nextImageId == old(nextImageId) && nextLabelId == old(nextLabelId)
    {
      changed := HasLabelId(labels, labelId);
      labels := MarkReviewed(labels, labelId, now);
    }

    /** `createImageRecordIfNotExists`: the existing id, or the id of a newly inserted local-file row. */
    method CreateImageRecordIfNotExists(country: string, filename: string, now: nat) returns (r: Result<nat, string>)
      requires Valid()
      modifies this
      ensures Valid()
      ensures var c := CreateImageRecord(old(images), old(nextImageId), country, filename, now);
              images == c.images && nextImageId == c.nextImageId && r == c.id
      ensures labels == old(labels) && nextLabelId == old(nextLabelId)
    {
      var c := CreateImageRecord(images, nextImageId, country, filename, now);
      images, nextImageId, r := c.images, c.nextImageId, c.id;
    }
  }

  /** Deleting keeps the surviving rows' ids distinct. */
  lemma SubsequenceIds(labels: seq<ImageLabel>, id: int, i: nat, j: nat)
    requires DistinctLabelIds(labels)
    requires i < j < |WithoutLabel(labels, id)|
    ensures WithoutLabel(labels, id)[i].id != WithoutLabel(labels, id)[j].id
    decreases |labels|
  {
    var init := labels[..|labels| - 1];
    var rest := WithoutLabel(init, id);
    var last := labels[|labels| - 1];
    assert DistinctLabelIds(init);
    if last.id != id && j == |rest| {
      assert WithoutLabel(labels, id)[i] in init;
      var k :| 0 <= k < |init| && init[k] == WithoutLabel(labels, id)[i];
      assert labels[k] == init[k];
    } else {
      SubsequenceIds(init, id, i, j);
    }
  }
}
