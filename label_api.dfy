/**
 * The labelling endpoints of the HTTP server (src/server.ts): parsing the
 * `country_filename` image id, validating a posted label and filling in its
 * defaults, the lookup-or-create flow in front of the label store, the
 * batch-classify persistence loop, the unlabeled-count arithmetic and the
 * delete/review result mapping. Express routing and JSON encoding are not
 * modelled; a handler returns the response it would send.
 */
module LabelApi {
  import opened Wrappers
  import opened Strings
  import opened Labels
  import opened Classifier

  // Response messages.
  const EmptyLabelMessage: string := "\U{6A19}\U{7C64}\U{4E0D}\U{80FD}\U{70BA}\U{7A7A}"
  const FileMissingMessage: string := "\U{5716}\U{7247}\U{6587}\U{4EF6}\U{4E0D}\U{5B58}\U{5728}"
  const LabelDeletedMessage: string := "\U{6A19}\U{7C64}\U{5DF2}\U{522A}\U{9664}"
  const LabelMissingMessage: string := "\U{6A19}\U{7C64}\U{4E0D}\U{5B58}\U{5728}"
  const LabelReviewedMessage: string := "\U{6A19}\U{7C64}\U{5DF2}\U{6A19}\U{8A18}\U{70BA}\U{5DF2}\U{5BE9}\U{6838}"
  const ModelUnavailableMessage: string :=
    "\U{6A21}\U{578B}\U{5C1A}\U{672A}\U{8A13}\U{7DF4}\U{6216}\U{4E0D}\U{53EF}\U{7528}\U{FF0C}\U{8ACB}\U{5148}\U{8A13}\U{7DF4}\U{6A21}\U{578B}"
  const NoImageFilesMessage: string := "\U{672A}\U{627E}\U{5230}\U{6709}\U{6548}\U{7684}\U{5716}\U{7247}\U{6587}\U{4EF6}"

  // ---------------------------------------------------------------------
  // Image ids
  // ---------------------------------------------------------------------

  /** The id the image listings give a file: `country_file`. */
  function ImageIdOf(country: string, file: string): string {
    country + "_" + file
  }

  /**
   * `const [country, ...parts] = imageId.split("_")` and `parts.join("_")`:
   * the country is the text before the first `_`, the filename everything
   * after it.
   */
  function SplitImageId(imageId: string): (r: (string, string))
    ensures '_' !in r.0
    ensures '_' in imageId ==> imageId == r.0 + "_" + r.1
    ensures '_' !in imageId ==> r == (imageId, "")
  {
    var parts := Split(imageId, '_');
    assert '_' !in parts[0];
    assert |parts| == 1 ==> Join(parts, '_') == parts[0];
    assert |parts| > 1 ==> Join(parts, '_') == parts[0] + "_" + Join(parts[1..], '_');
    (parts[0], Join(parts[1..], '_'))
  }

  /** An id built from a country folder without `_` splits back into that folder and file, whatever the file name holds. */
  lemma SplitImageIdRoundTrip(country: string, file: string)
    requires '_' !in country
    ensures SplitImageId(ImageIdOf(country, file)) == (country, file)
  {
    SplitAfterFirst(country, file, '_');
    assert ImageIdOf(country, file) == country + ['_'] + file;
  }

  /** A folder name holding `_` does not survive: `South_Korea_a.jpg` reads as country `South`. */
  lemma UnderscoreCountryMisread()
    ensures SplitImageId(ImageIdOf("South_Korea", "a.jpg")).0 == "South"
  {
    assert ImageIdOf("South_Korea", "a.jpg") == "South" + ['_'] + "Korea_a.jpg";
    SplitAfterFirst("South", "Korea_a.jpg", '_');
  }

  /** The file the image id names, relative to the images folder (`path.join(imagesDir, country, filename)`). */
  function ImagePath(country: string, filename: string): string {
    country + "/" + filename
  }

  // ---------------------------------------------------------------------
  // POST /api/images/:imageId/label
  // ---------------------------------------------------------------------

  /** A JSON value of the request body, by its JavaScript `typeof`. */
  datatype JsonValue = JString(s: string) | JNumber(n: real) | JBool(b: bool) | JNull | JObject

  /** `{ label, isManual, confidence }`; `None` is an absent field. */
  datatype LabelBody = LabelBody(text: Option<JsonValue>, isManual: Option<JsonValue>, confidence: Option<JsonValue>)

  /** The label passes `!label || typeof label !== "string" || label.trim() === ""` exactly when it is a non-blank string. */
  predicate ValidLabel(text: Option<JsonValue>)
    ensures ValidLabel(text) <==> text.Some? && text.value.JString? && !AllWhitespace(text.value.s)
  {
    if text.Some? && text.value.JString? then
      TrimEmptyIffBlank(text.value.s);
      Trim(text.value.s) != ""
    else false
  }

  datatype LabelFlags = LabelFlags(isManual: bool, confidence: real, reviewed: bool)

  /**
   * The defaults: a missing or non-boolean `isManual` counts as manual; a
   * non-number `confidence` is 1.0 for manual labels and 0.0 otherwise; a
   * manual label is saved as already reviewed.
   */
  function LabelDefaults(isManual: Option<JsonValue>, confidence: Option<JsonValue>): (f: LabelFlags)
    ensures f.isManual == (if isManual.Some? && isManual.value.JBool? then isManual.value.b else true)
    ensures confidence.Some? && confidence.value.JNumber? ==> f.confidence == confidence.value.n
    ensures !(confidence.Some? && confidence.value.JNumber?) ==> f.confidence == if f.isManual then 1.0 else 0.0
    ensures f.reviewed == f.isManual
  {
    var manual := match isManual case Some(JBool(b)) => b case _ => true;
    var conf := match confidence case Some(JNumber(n)) => n case _ => if manual then 1.0 else 0.0;
    LabelFlags(manual, conf, manual)
  }

  /** A body with only a label is saved as a manual, reviewed label of full confidence. */
  lemma BareLabelIsManual()
    ensures LabelDefaults(None, None) == LabelFlags(true, 1.0, true)
  {
  }

  /** The stored label of a valid body is the trimmed text: non-empty, with no whitespace at either end. */
  lemma StoredLabelTrimmed(text: Option<JsonValue>)
    requires ValidLabel(text)
    ensures var t := Trim(text.value.s); t != "" && !IsJsWhitespace(t[0]) && !IsJsWhitespace(t[|t| - 1])
  {
    TrimmedEnds(text.value.s);
  }

  datatype LabelResponse =
    | Saved(labelId: nat, imageId: nat)
    | BadRequest(message: string)
    | NotFound(message: string)
    | ServerError(message: string)

  /**
   * POST `/label`: rejects a blank label; finds the image row from the id,
   * creating one when only the file exists (404 when neither does); then
   * saves exactly one label with the trimmed text and the defaults.
   */
  method PostLabel(db: LabelDb, fileExists: string -> bool, imageId: string, body: LabelBody, now: nat)
    returns (resp: LabelResponse)
    requires db.Valid()
    modifies db
    ensures db.Valid()
    ensures !ValidLabel(body.text) ==> resp == BadRequest(EmptyLabelMessage)
    ensures resp.BadRequest? || resp.NotFound? ==> unchanged(db)
    ensures var (country, filename) := SplitImageId(imageId);
            resp.NotFound? <==> ValidLabel(body.text) && GetImageIdFromPath(old(db.images), country, filename).None? &&
                                !fileExists(ImagePath(country, filename))
    ensures var (country, filename) := SplitImageId(imageId);
            var found := GetImageIdFromPath(old(db.images), country, filename);
            resp.Saved? ==>
              (found.Some? ==> resp.imageId == found.value && db.images == old(db.images)) &&
              (found.None? ==> db.images == CreateImageRecord(old(db.images), old(db.nextImageId), country, filename, now).images &&
                               resp.imageId == old(db.nextImageId))
    ensures resp.Saved? ==>
              var f := LabelDefaults(body.isManual, body.confidence);
              resp.labelId == db.nextLabelId - 1 &&
              db.labels == old(db.labels) + [NewLabel(LabelData(resp.imageId, Trim(body.text.value.s), f.confidence, f.isManual, f.reviewed), resp.labelId, now)]
    ensures resp.ServerError? ==> db.labels == old(db.labels)
    ensures var (country, filename) := SplitImageId(imageId);
            var found := GetImageIdFromPath(old(db.images), country, filename);
            var created := CreateImageRecord(old(db.images), old(db.nextImageId), country, filename, now).id;
            (resp.Saved? <==> ValidLabel(body.text) &&
                              (found.Some? || (fileExists(ImagePath(country, filename)) && created.Ok?))) &&
            (resp.ServerError? <==> ValidLabel(body.text) && found.None? &&
                                    fileExists(ImagePath(country, filename)) && created.Err?) &&
            (resp.ServerError? ==> resp.message == created.error)
  {
    if !ValidLabel(body.text) {
      return BadRequest(EmptyLabelMessage);
    }
    var (country, filename) := SplitImageId(imageId);
    var found := GetImageIdFromPath(db.images, country, filename);
    var dbImageId: nat;
    if found.Some? {
      dbImageId := found.value;
    } else {
      if !fileExists(ImagePath(country, filename)) {
        return NotFound(FileMissingMessage);
      }
      var created := db.CreateImageRecordIfNotExists(country, filename, now);
      if created.Err? {
        return ServerError(created.error);
      }
      dbImageId := created.value;
    }
    var f := LabelDefaults(body.isManual, body.confidence);
    var labelId := db.SaveImageLabel(LabelData(dbImageId, Trim(body.text.value.s), f.confidence, f.isManual, f.reviewed), now);
    resp := Saved(labelId, dbImageId);
  }

  // ---------------------------------------------------------------------
  // GET /api/images/:imageId/labels
  // ---------------------------------------------------------------------

  datatype LabelsResponse = LabelList(labels: seq<ImageLabel>) | LabelsError(message: string)

  /**
   * GET `/labels`: the image's labels in rank order; an empty list, and no
   * new row, when neither a row nor the file exists; a row is created
   * first when only the file exists.
   */
  method GetLabels(db: LabelDb, fileExists: string -> bool, imageId: string, now: nat) returns (resp: LabelsResponse)
    requires db.Valid()
    modifies db
    ensures db.Valid()
    ensures db.labels == old(db.labels)
    ensures var (country, filename) := SplitImageId(imageId);
            var found := GetImageIdFromPath(old(db.images), country, filename);
            (found.Some? ==> resp == LabelList(GetImageLabels(db.labels, found.value)) && db.images == old(db.images)) &&
            (found.None? && !fileExists(ImagePath(country, filename)) ==> resp == LabelList([]) && db.images == old(db.images)) &&
            (found.None? && fileExists(ImagePath(country, filename)) ==>
               var c := CreateImageRecord(old(db.images), old(db.nextImageId), country, filename, now);
               db.images == c.images &&
               resp == if c.id.Ok? then LabelList(GetImageLabels(db.labels, c.id.value)) else LabelsError(c.id.error))
  {
    var (country, filename) := SplitImageId(imageId);
    var found := GetImageIdFromPath(db.images, country, filename);
    var dbImageId: nat;
    if found.Some? {
      dbImageId := found.value;
    } else if fileExists(ImagePath(country, filename)) {
      var created := db.CreateImageRecordIfNotExists(country, filename, now);
      if created.Err? {
        return LabelsError(created.error);
      }
      dbImageId := created.value;
    } else {
      return LabelList([]);
    }
    resp := LabelList(GetImageLabels(db.labels, dbImageId));
  }

  // ---------------------------------------------------------------------
  // POST /api/images/:imageId/classify
  // ---------------------------------------------------------------------

  datatype ClassifyResponse =
    | Predictions(predictions: seq<Prediction>)
    | ClassifyUnavailable(message: string)
    | ClassifyNotFound(message: string)
    | ClassifyFailed(message: string)

  /** The number of predictions asked for when the body gives none (`const { topK = 3 } = req.body`). */
  const DefaultTopK: int := 3

  /**
   * POST `/classify`: 503 without a model, 404 without the file, otherwise
   * the classifier's outcome for the body's `topK`, or 3 when the body has
   * none.
   */
  function ClassifyEndpoint(modelAvailable: bool, fileExists: string -> bool, imageId: string, topK: Option<int>,
                            classify: (string, int) -> Result<seq<Prediction>, string>): (r: ClassifyResponse)
    ensures !modelAvailable <==> r == ClassifyUnavailable(ModelUnavailableMessage)
    ensures r.ClassifyNotFound? <==> modelAvailable && !fileExists(ImagePath(SplitImageId(imageId).0, SplitImageId(imageId).1))
    ensures topK.Some? && r.Predictions? ==> Ok(r.predictions) == classify(ImagePath(SplitImageId(imageId).0, SplitImageId(imageId).1), topK.value)
    ensures topK.Some? && r.ClassifyFailed? ==> Err(r.message) == classify(ImagePath(SplitImageId(imageId).0, SplitImageId(imageId).1), topK.value)
    ensures topK.None? && r.Predictions? ==> Ok(r.predictions) == classify(ImagePath(SplitImageId(imageId).0, SplitImageId(imageId).1), DefaultTopK)
    ensures topK.None? && r.ClassifyFailed? ==> Err(r.message) == classify(ImagePath(SplitImageId(imageId).0, SplitImageId(imageId).1), DefaultTopK)
    ensures modelAvailable && fileExists(ImagePath(SplitImageId(imageId).0, SplitImageId(imageId).1)) ==>
              r.Predictions? || r.ClassifyFailed?
  {
    var k := if topK.Some? then topK.value else DefaultTopK;
    if !modelAvailable then ClassifyUnavailable(ModelUnavailableMessage)
    else
      var (country, filename) := SplitImageId(imageId);
      var path := ImagePath(country, filename);
      if !fileExists(path) then ClassifyNotFound(FileMissingMessage)
      else match classify(path, k)
        case Ok(predictions) => Predictions(predictions)
        case Err(message) => ClassifyFailed(message)
  }

  // ---------------------------------------------------------------------
  // GET /api/stats/labels
  // ---------------------------------------------------------------------

  const ImageExtensions: set<string> := {".jpg", ".jpeg", ".png", ".gif", ".webp"}

  /** The image files of one folder listing. */
  function ImageFiles(files: seq<string>): (r: seq<string>)
    ensures |r| <= |files|
    ensures forall f :: f in r <==> f in files && HasExtension(f, ImageExtensions)
    decreases |files|
  {
    if |files| == 0 then []
    else
      var init := files[..|files| - 1];
      var f := files[|files| - 1];
      assert files == init + [f];
      if HasExtension(f, ImageExtensions) then ImageFiles(init) + [f] else ImageFiles(init)
  }

  /** Image files over all country folders. */
  function ImageFileTotal(folders: seq<seq<string>>): nat
    decreases |folders|
  {
    if |folders| == 0 then 0 else ImageFileTotal(folders[..|folders| - 1]) + |ImageFiles(folders[|folders| - 1])|
  }

  function FileTotal(folders: seq<seq<string>>): nat
    decreases |folders|
  {
    if |folders| == 0 then 0 else FileTotal(folders[..|folders| - 1]) + |folders[|folders| - 1]|
  }

  /** The `forEach` that adds up each country folder's image files. */
  method CountImageFiles(folders: seq<seq<string>>) returns (totalImages: nat)
    ensures totalImages == ImageFileTotal(folders)
    ensures totalImages <= FileTotal(folders)
  {
    totalImages := 0;
    var i := 0;
    while i < |folders|
      invariant 0 <= i <= |folders|
      invariant totalImages == ImageFileTotal(folders[..i])
      invariant totalImages <= FileTotal(folders[..i])
    {
      totalImages := totalImages + |ImageFiles(folders[i])|;
      assert folders[..i + 1][..i] == folders[..i];
      i := i + 1;
    }
    assert folders[..i] == folders;
  }

  /** `Math.max(0, totalImages - totalLabeled)`: never negative, and the exact difference whenever that is not. */
  function UnlabeledCount(totalImages: int, totalLabeled: int): (n: nat)
    ensures totalLabeled <= totalImages ==> n + totalLabeled == totalImages
    ensures totalImages < totalLabeled ==> n == 0
  {
    if totalImages - totalLabeled > 0 then totalImages - totalLabeled else 0
  }

  /**
   * The count the stats endpoint shows is the length of the unlabeled list
   * when the images it counts are the table's rows (ids distinct) and every
   * label refers to one of them.
   */
  lemma UnlabeledCountMatchesList(images: seq<ImageRecord>, labels: seq<ImageLabel>)
    requires forall i, j :: 0 <= i < j < |images| ==> images[i].id != images[j].id
    requires LabeledImageIds(labels) <= ImageIds(images)
    ensures UnlabeledCount(|images|, GetLabeledStats(labels).totalLabeled) == |Unlabeled(images, labels)|
  {
    UnlabeledPlusLabeled(images, labels);
    assert ImageIds(images) * LabeledImageIds(labels) == LabeledImageIds(labels);
  }

  // ---------------------------------------------------------------------
  // DELETE .../labels/:labelId and PUT .../labels/:labelId/review
  // ---------------------------------------------------------------------

  datatype ActionResponse = ActionResponse(success: bool, message: string)

  /** DELETE: `success` is the helper's boolean for `parseInt(labelId)`; a non-numeric id matches no row. */
  method DeleteLabel(db: LabelDb, labelIdParam: string) returns (resp: ActionResponse)
    requires db.Valid()
    modifies db
    ensures db.Valid()
    ensures var id := ParseInt(labelIdParam);
            resp.success == (id.Some? && HasLabelId(old(db.labels), id.value)) &&
            db.labels == (if id.Some? then WithoutLabel(old(db.labels), id.value) else old(db.labels))
    ensures resp.message == if resp.success then LabelDeletedMessage else LabelMissingMessage
    ensures db.images == old(db.images)
  {
    var id := ParseInt(labelIdParam);
    var success := false;
    if id.Some? {
      success := db.DeleteImageLabel(id.value);
    }
    resp := ActionResponse(success, if success then LabelDeletedMessage else LabelMissingMessage);
  }

  /** PUT `/review`: `success` is the helper's boolean for `parseInt(labelId)`. */
  method ReviewLabel(db: LabelDb, labelIdParam: string, now: nat) returns (resp: ActionResponse)
    requires db.Valid()
    modifies db
    ensures db.Valid()
    ensures var id := ParseInt(labelIdParam);
            resp.success == (id.Some? && HasLabelId(old(db.labels), id.value)) &&
            db.labels == (if id.Some? then MarkReviewed(old(db.labels), id.value, now) else old(db.labels))
    ensures resp.message == if resp.success then LabelReviewedMessage else LabelMissingMessage
    ensures db.images == old(db.images)
  {
    var id := ParseInt(labelIdParam);
    var success := false;
    if id.Some? {
      success := db.MarkLabelAsReviewed(id.value, now);
    }
    resp := ActionResponse(success, if success then LabelReviewedMessage else LabelMissingMessage);
  }

  /** The id a label row reports in JSON reads back to that row through the route parameter. */
  lemma RouteIdRoundTrip(labels: seq<ImageLabel>, k: nat)
    requires k < |labels|
    ensures ParseInt(NatToString(labels[k].id)) == Some(labels[k].id as int)
    ensures HasLabelId(labels, ParseInt(NatToString(labels[k].id)).value)
  {
    ParseIntOfNatToString(labels[k].id);
  }

  // ---------------------------------------------------------------------
  // POST /api/images/batch-classify
  // ---------------------------------------------------------------------

  function FullPath(imagesDir: string, filePath: string): string {
    imagesDir + "/" + filePath
  }

  /** The unlabeled images whose file exists. */
  function Present(imagesDir: string, unlabeled: seq<UnlabeledImage>, fileExists: string -> bool): (r: seq<UnlabeledImage>)
    ensures |r| <= |unlabeled|
    ensures forall u :: u in r <==> u in unlabeled && fileExists(FullPath(imagesDir, u.filePath))
    decreases |unlabeled|
  {
    if |unlabeled| == 0 then []
    else
      var init := unlabeled[..|unlabeled| - 1];
      var u := unlabeled[|unlabeled| - 1];
      assert forall v :: v in init ==> v in unlabeled;
      if fileExists(FullPath(imagesDir, u.filePath)) then Present(imagesDir, init, fileExists) + [u]
      else Present(imagesDir, init, fileExists)
  }

  /** The filter keeps the order of the list: filtering two parts and joining them is filtering the whole. */
  lemma {:induction false} PresentAppend(imagesDir: string, a: seq<UnlabeledImage>, b: seq<UnlabeledImage>, fileExists: string -> bool)
    ensures Present(imagesDir, a + b, fileExists) == Present(imagesDir, a, fileExists) + Present(imagesDir, b, fileExists)
    decreases |b|
  {
    if |b| == 0 {
      assert a + b == a;
    } else {
      var n := |b| - 1;
      assert (a + b)[..|a + b| - 1] == a + b[..n];
      PresentAppend(imagesDir, a, b[..n], fileExists);
    }
  }

  /** `unlabeledImages.map(img => path.join(imagesDir, img.filePath)).filter(fs.existsSync)`: the paths of the present images. */
  function ImagePaths(imagesDir: string, unlabeled: seq<UnlabeledImage>, fileExists: string -> bool): (r: seq<string>)
    ensures |r| == |Present(imagesDir, unlabeled, fileExists)|
    ensures forall i :: 0 <= i < |r| ==> r[i] == FullPath(imagesDir, Present(imagesDir, unlabeled, fileExists)[i].filePath)
    decreases |unlabeled|
  {
    if |unlabeled| == 0 then []
    else
      var init := unlabeled[..|unlabeled| - 1];
      var path := FullPath(imagesDir, unlabeled[|unlabeled| - 1].filePath);
      if fileExists(path) then ImagePaths(imagesDir, init, fileExists) + [path]
      else ImagePaths(imagesDir, init, fileExists)
  }

  /** A result is skipped when it carries a (non-empty) error or has no predictions. */
  predicate Skipped(r: BatchResult) {
    (r.error.Some? && r.error.value != "") || |r.predictions| == 0
  }

  /**
   * The save of result `i` succeeds: not skipped, the top prediction has a
   * class name (the label column is NOT NULL) and `unlabeledImages[i]`
   * exists (otherwise reading its id throws inside the try).
   */
  predicate Saves(r: BatchResult, i: nat, images: seq<UnlabeledImage>) {
    !Skipped(r) && r.predictions[0].name.Some? && i < |images|
  }

  /** The AI label saved for a result: its top prediction, unreviewed, on the image at the same index. */
  function SavedData(r: BatchResult, img: UnlabeledImage): (d: LabelData)
    requires |r.predictions| > 0 && r.predictions[0].name.Some?
    ensures !d.isManual && !d.reviewed && d.imageId == img.id
  {
    LabelData(img.id, r.predictions[0].name.value, r.predictions[0].confidence, false, false)
  }

  /** The labels the persist loop saves, in order: result `i` goes to `images[i]`. */
  function PersistedData(results: seq<BatchResult>, images: seq<UnlabeledImage>): (d: seq<LabelData>)
    ensures |d| <= |results|
    ensures forall k :: 0 <= k < |d| ==> !d[k].isManual && !d[k].reviewed
    decreases |results|
  {
    if |results| == 0 then []
    else
      var n := |results| - 1;
      var rest := PersistedData(results[..n], images);
      if Saves(results[n], n, images) then rest + [SavedData(results[n], images[n])] else rest
  }

  /** The rows the store gains when `data` is saved in order from label id `firstId`. */
  function SavedRows(data: seq<LabelData>, firstId: nat, now: nat): (rows: seq<ImageLabel>)
    ensures |rows| == |data|
    ensures forall k :: 0 <= k < |data| ==> rows[k] == NewLabel(data[k], firstId + k, now)
  {
    seq(|data|, k requires 0 <= k < |data| => NewLabel(data[k], firstId + k, now))
  }

  /** `x` is the label saved for some usable result, on the image at that result's index. */
  ghost predicate SavedFrom(results: seq<BatchResult>, images: seq<UnlabeledImage>, x: LabelData) {
    exists i :: 0 <= i < |results| && Saves(results[i], i, images) && x == SavedData(results[i], images[i])
  }

  lemma SavedFromPrefix(results: seq<BatchResult>, images: seq<UnlabeledImage>, n: nat, x: LabelData)
    requires n <= |results| && SavedFrom(results[..n], images, x)
    ensures SavedFrom(results, images, x)
  {
    var i :| 0 <= i < n && Saves(results[..n][i], i, images) && x == SavedData(results[..n][i], images[i]);
    assert results[..n][i] == results[i];
  }

  /** Every saved label comes from a usable result and the image at that result's index. */
  lemma {:induction false} PersistedDataFrom(results: seq<BatchResult>, images: seq<UnlabeledImage>)
    ensures forall k :: 0 <= k < |PersistedData(results, images)| ==> SavedFrom(results, images, PersistedData(results, images)[k])
    decreases |results|
  {
    if |results| > 0 {
      var n := |results| - 1;
      var rest := PersistedData(results[..n], images);
      var d := PersistedData(results, images);
      PersistedDataFrom(results[..n], images);
      forall k | 0 <= k < |d|
        ensures SavedFrom(results, images, d[k])
      {
        if k < |rest| {
          assert d[k] == rest[k];
          SavedFromPrefix(results, images, n, rest[k]);
        } else {
          assert Saves(results[n], n, images) && d[k] == SavedData(results[n], images[n]);
        }
      }
    }
  }

  lemma AppendRow(base: seq<ImageLabel>, rows: seq<ImageLabel>, x: ImageLabel)
    ensures base + rows + [x] == base + (rows + [x])
  {
  }

  /** One more result of the persist loop: a usable one adds its label, with the next id. */
  lemma PersistStep(results: seq<BatchResult>, unlabeled: seq<UnlabeledImage>, i: nat, firstId: nat, now: nat)
    requires i < |results|
    ensures var before := PersistedData(results[..i], unlabeled);
      var after := PersistedData(results[..i + 1], unlabeled);
      if Saves(results[i], i, unlabeled) then
        var data := SavedData(results[i], unlabeled[i]);
        after == before + [data] &&
        SavedRows(after, firstId, now) == SavedRows(before, firstId, now) + [NewLabel(data, firstId + |before|, now)]
      else after == before
  {
    assert results[..i + 1][..i] == results[..i];
  }

  /**
   * The persist loop: saves each usable result's top prediction as an
   * unreviewed AI label on `unlabeledImages[i]` and counts the saves.
   */
  method PersistPredictions(db: LabelDb, results: seq<BatchResult>, unlabeled: seq<UnlabeledImage>, now: nat)
    returns (savedCount: nat)
    requires db.Valid()
    modifies db
    ensures db.Valid()
    ensures savedCount == |PersistedData(results, unlabeled)| && savedCount <= |results|
    ensures db.labels == old(db.labels) + SavedRows(PersistedData(results, unlabeled), old(db.nextLabelId), now)
    ensures db.images == old(db.images)
  {
    savedCount := 0;
    ghost var saved: seq<LabelData> := [];
    ghost var rows: seq<ImageLabel> := [];
    ghost var firstId := db.nextLabelId;
    var i := 0;
    while i < |results|
      invariant 0 <= i <= |results|
      invariant db.Valid() && db.images == old(db.images)
      invariant saved == PersistedData(results[..i], unlabeled) && savedCount == |saved|
      invariant db.nextLabelId == firstId + savedCount
      invariant rows == SavedRows(saved, firstId, now)
      invariant db.labels == old(db.labels) + rows
    {
      PersistStep(results, unlabeled, i, firstId, now);
      var didSave := PersistOne(db, results[i], i, unlabeled, now);
      if didSave {
        ghost var row := NewLabel(SavedData(results[i], unlabeled[i]), firstId + |saved|, now);
        AppendRow(old(db.labels), rows, row);
        saved := saved + [SavedData(results[i], unlabeled[i])];
        rows := rows + [row];
        savedCount := savedCount + 1;
      }
      i := i + 1;
    }
    assert results[..i] == results;
  }

  /** One iteration of the persist loop: a usable result saves its top prediction on `unlabeledImages[i]`. */
  method PersistOne(db: LabelDb, result: BatchResult, i: nat, unlabeled: seq<UnlabeledImage>, now: nat) returns (saved: bool)
    requires db.Valid()
    modifies db
    ensures db.Valid() && db.images == old(db.images)
    ensures saved == Saves(result, i, unlabeled)
    ensures saved ==>
      db.nextLabelId == old(db.nextLabelId) + 1 &&
      db.labels == old(db.labels) + [NewLabel(SavedData(result, unlabeled[i]), old(db.nextLabelId), now)]
    ensures !saved ==> db.labels == old(db.labels) && db.nextLabelId == old(db.nextLabelId)
  {
    saved := false;
    if Saves(result, i, unlabeled) {
      var data := SavedData(result, unlabeled[i]);
      var _ := db.SaveImageLabel(data, now);
      saved := true;
    }
  }

  datatype BatchResponse =
    | BatchUnavailable(message: string)
    | NothingToClassify
    | NoImageFiles(message: string)
    | Started(total: nat)

  /** `{ topK = 1, batchSize = 8, saveResults = true }`: the destructuring defaults for absent fields. */
  datatype BatchBody = BatchBody(topK: Option<int>, batchSize: Option<int>, saveResults: Option<bool>)

  function OrDefault<T>(v: Option<T>, fallback: T): T {
    if v.Some? then v.value else fallback
  }

  /**
   * POST `/batch-classify`: 503 before any work without a model; nothing to
   * do without unlabeled images; 404 when none of their files exists;
   * otherwise the existing files are classified in batches and, unless
   * `saveResults` is false, the usable results are saved by index against
   * `unlabeledImages`. `unlabeled` is what the store's per-country query
   * returned. The background job runs after the response, here in sequence.
   */
  method BatchClassify(db: LabelDb, modelAvailable: bool, unlabeled: seq<UnlabeledImage>, body: BatchBody,
                       imagesDir: string, fileExists: string -> bool,
                       classify: (string, int) -> Result<seq<Prediction>, string>, now: nat)
    returns (resp: BatchResponse, savedCount: nat)
    requires db.Valid()
    requires OrDefault(body.batchSize, 8) >= 1
    modifies db
    ensures db.Valid() && db.images == old(db.images)
    ensures !modelAvailable ==> resp == BatchUnavailable(ModelUnavailableMessage)
    ensures modelAvailable && |unlabeled| == 0 ==> resp == NothingToClassify
    ensures resp.BatchUnavailable? || resp.NothingToClassify? || resp.NoImageFiles? ==>
              savedCount == 0 && db.labels == old(db.labels)
    ensures var paths := ImagePaths(imagesDir, unlabeled, fileExists);
            modelAvailable && |unlabeled| > 0 ==>
              (resp.NoImageFiles? <==> |paths| == 0) &&
              (resp.Started? ==> resp.total == |paths| && savedCount <= |paths|)
    ensures resp.Started? ==>
              var results := BatchResults(ImagePaths(imagesDir, unlabeled, fileExists), OrDefault(body.topK, 1), classify);
              var saved := if OrDefault(body.saveResults, true) then PersistedData(results, unlabeled) else [];
              savedCount == |saved| && db.labels == old(db.labels) + SavedRows(saved, old(db.nextLabelId), now)
  {
    if !modelAvailable {
      return BatchUnavailable(ModelUnavailableMessage), 0;
    }
    if |unlabeled| == 0 {
      return NothingToClassify, 0;
    }
    var paths := ImagePaths(imagesDir, unlabeled, fileExists);
    if |paths| == 0 {
      return NoImageFiles(NoImageFilesMessage), 0;
    }
    resp := Started(|paths|);
    var results := ClassifyImagesBatch(paths, OrDefault(body.topK, 1), OrDefault(body.batchSize, 8), classify);
    savedCount := 0;
    if OrDefault(body.saveResults, true) {
      savedCount := PersistPredictions(db, results, unlabeled, now);
    }
  }

  /**
   * As written, results are paired with `unlabeledImages[i]` although the
   * paths were filtered by file existence: when the first image's file is
   * missing, the prediction for the second image is saved on the first.
   */
  lemma MisalignedPairing()
    ensures var a := UnlabeledImage(1, "A/a.jpg", "A", "a.jpg");
            var b := UnlabeledImage(2, "B/b.jpg", "B", "b.jpg");
            var onDisk := (p: string) => p == "img/B/b.jpg";
            var paths := ImagePaths("img", [a, b], onDisk);
            var results := [BatchResult("img/B/b.jpg", [Prediction(Some("food"), 0.9)], None)];
            paths == ["img/B/b.jpg"] &&
            PersistedData(results, [a, b]) == [LabelData(1, "food", 0.9, false, false)]
  {
    var a := UnlabeledImage(1, "A/a.jpg", "A", "a.jpg");
    var b := UnlabeledImage(2, "B/b.jpg", "B", "b.jpg");
    var onDisk := (p: string) => p == "img/B/b.jpg";
    assert FullPath("img", a.filePath) == "img/A/a.jpg";
    assert FullPath("img", b.filePath) == "img/B/b.jpg";
    assert [a, b][..1] == [a];
    assert ImagePaths("img", [a], onDisk) == [];
    var results := [BatchResult("img/B/b.jpg", [Prediction(Some("food"), 0.9)], None)];
    assert results[..0] == [];
  }

  /**
   * Pairing results with the images whose files exist (the list the paths
   * were built from) saves every label on the image whose file was
   * classified.
   */
  lemma AlignedPairingLabelsClassifiedImage(imagesDir: string, unlabeled: seq<UnlabeledImage>, fileExists: string -> bool,
                                            topK: int, classify: (string, int) -> Result<seq<Prediction>, string>)
    ensures var present := Present(imagesDir, unlabeled, fileExists);
            var results := BatchResults(ImagePaths(imagesDir, unlabeled, fileExists), topK, classify);
            forall d :: d in PersistedData(results, present) ==>
              exists i :: 0 <= i < |results| && i < |present| && d.imageId == present[i].id &&
                          results[i].path == FullPath(imagesDir, present[i].filePath) && present[i] in unlabeled
  {
    var present := Present(imagesDir, unlabeled, fileExists);
    var results := BatchResults(ImagePaths(imagesDir, unlabeled, fileExists), topK, classify);
    PersistedDataFrom(results, present);
    forall d | d in PersistedData(results, present)
      ensures exists i :: 0 <= i < |results| && i < |present| && d.imageId == present[i].id &&
                          results[i].path == FullPath(imagesDir, present[i].filePath) && present[i] in unlabeled
    {
      var data := PersistedData(results, present);
      var k :| 0 <= k < |data| && data[k] == d;
      assert SavedFrom(results, present, data[k]);
      var i :| 0 <= i < |results| && Saves(results[i], i, present) && data[k] == SavedData(results[i], present[i]);
      assert present[i] in present;
    }
  }

  /**
   * The batch endpoint with the pairing corrected: results are saved against
   * the images whose files exist, so every saved label sits on the image
   * whose file produced it (AlignedPairingLabelsClassifiedImage).
   */
  method BatchClassifyAligned(db: LabelDb, modelAvailable: bool, unlabeled: seq<UnlabeledImage>, body: BatchBody,
                              imagesDir: string, fileExists: string -> bool,
                              classify: (string, int) -> Result<seq<Prediction>, string>, now: nat)
    returns (resp: BatchResponse, savedCount: nat)
    requires db.Valid()
    requires OrDefault(body.batchSize, 8) >= 1
    modifies db
    ensures db.Valid() && db.images == old(db.images)
    ensures !modelAvailable ==> resp == BatchUnavailable(ModelUnavailableMessage)
    ensures modelAvailable && |unlabeled| == 0 ==> resp == NothingToClassify
    ensures resp.BatchUnavailable? || resp.NothingToClassify? || resp.NoImageFiles? ==>
              savedCount == 0 && db.labels == old(db.labels)
    ensures var paths := ImagePaths(imagesDir, unlabeled, fileExists);
            modelAvailable && |unlabeled| > 0 ==>
              (resp.NoImageFiles? <==> |paths| == 0) &&
              (resp.Started? ==> resp.total == |paths| && savedCount <= |paths|)
    ensures resp.Started? ==>
              var results := BatchResults(ImagePaths(imagesDir, unlabeled, fileExists), OrDefault(body.topK, 1), classify);
              var saved := if OrDefault(body.saveResults, true) then PersistedData(results, Present(imagesDir, unlabeled, fileExists)) else [];
              savedCount == |saved| && db.labels == old(db.labels) + SavedRows(saved, old(db.nextLabelId), now)
  {
    if !modelAvailable {
      return BatchUnavailable(ModelUnavailableMessage), 0;
    }
    if |unlabeled| == 0 {
      return NothingToClassify, 0;
    }
    var paths := ImagePaths(imagesDir, unlabeled, fileExists);
    if |paths| == 0 {
      return NoImageFiles(NoImageFilesMessage), 0;
    }
    resp := Started(|paths|);
    var results := ClassifyImagesBatch(paths, OrDefault(body.topK, 1), OrDefault(body.batchSize, 8), classify);
    savedCount := 0;
    if OrDefault(body.saveResults, true) {
      savedCount := PersistPredictions(db, results, Present(imagesDir, unlabeled, fileExists), now);
    }
  }
}
