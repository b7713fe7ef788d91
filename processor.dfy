/**
 * Normalising the downloaded images (src/ImageProcessor.ts): fit the image
 * into the configured box, re-encode it as JPEG at falling quality until the
 * file is small enough, shrink it as a last resort, and record the outcome
 * in the `images` table.
 *
 * The image library is a pair of parameters: `meta(file)` is the raw file's
 * metadata (width, height; 0 for a missing value) or the error it raised,
 * and `encode(file, width, height, quality)` is the size and final
 * dimensions of the JPEG written for those settings, or the error it raised.
 */
module Processor {
  import opened Wrappers
  import opened Records
  import Config

  datatype Encoded = Encoded(size: nat, width: int, height: int)

  const MissingRawMessage: string := "\U{539F}\U{59CB}\U{6587}\U{4EF6}\U{4E0D}\U{5B58}\U{5728}"
  const NoDimensionsMessage: string := "\U{7121}\U{6CD5}\U{8B80}\U{53D6}\U{5716}\U{50CF}\U{5C3A}\U{5BF8}"
  const CannotCompressMessage: string :=
    "\U{7121}\U{6CD5}\U{5C07}\U{5716}\U{50CF}\U{58D3}\U{7E2E}\U{81F3}\U{6307}\U{5B9A}\U{5927}\U{5C0F}"

  /** The source's bound on the number of quality reductions. */
  const MaxAttempts: nat := 10
  const QualityStep: int := 5

  /** `Math.round` on a real: the nearest integer, halves rounded up. */
  function Round(x: real): int {
    (x + 0.5).Floor
  }

  function MaxReal(a: real, b: real): real {
    if a >= b then a else b
  }

  function MinInt(a: int, b: int): int {
    if a <= b then a else b
  }

  /**
   * `calculateResizeAndCrop`: an image that already fits the box keeps its
   * size; any other image is scaled to cover the box and centre-cropped, so
   * its target is exactly the box.
   */
  function CalculateResizeAndCrop(originalWidth: int, originalHeight: int, maxWidth: int, maxHeight: int): (r: (int, int))
    requires originalWidth > 0 && originalHeight > 0
    ensures originalWidth <= maxWidth && originalHeight <= maxHeight ==> r == (originalWidth, originalHeight)
    ensures !(originalWidth <= maxWidth && originalHeight <= maxHeight) ==> r == (maxWidth, maxHeight)
  {
    if originalWidth <= maxWidth && originalHeight <= maxHeight then (originalWidth, originalHeight)
    else
      var widthRatio := maxWidth as real / originalWidth as real;
      var heightRatio := maxHeight as real / originalHeight as real;
      var scale := MaxReal(widthRatio, heightRatio);
      CoverReachesBox(originalWidth, maxWidth, scale);
      CoverReachesBox(originalHeight, maxHeight, scale);
      (MinInt(Round(originalWidth as real * scale), maxWidth), MinInt(Round(originalHeight as real * scale), maxHeight))
  }

  /** Scaling by at least `limit / side` takes the side to at least `limit`, and rounding keeps it there. */
  lemma CoverReachesBox(side: int, limit: int, scale: real)
    requires side > 0 && scale >= limit as real / side as real
    ensures Round(side as real * scale) >= limit
  {
    var s := side as real;
    assert s * (limit as real / s) == limit as real;
    assert s * scale >= s * (limit as real / s);
  }

  /** Integer square root. */
  function Isqrt(n: nat): (r: nat)
    ensures r * r <= n < (r + 1) * (r + 1)
    decreases n
  {
    if n < 2 then n
    else
      var s := Isqrt(n / 4);
      IsqrtStep(n, s);
      if (2 * s + 1) * (2 * s + 1) <= n then 2 * s + 1 else 2 * s
  }

  lemma IsqrtStep(n: nat, s: nat)
    requires s * s <= n / 4 < (s + 1) * (s + 1)
    ensures (2 * s) * (2 * s) <= n < (2 * s + 2) * (2 * s + 2)
  {
    assert (2 * s) * (2 * s) == 4 * (s * s);
    assert (2 * s + 2) * (2 * s + 2) == 4 * ((s + 1) * (s + 1));
    assert n / 4 + 1 <= (s + 1) * (s + 1);
  }

  /**
   * `Math.floor(side * Math.sqrt(maxFileSize / fileSize))` in exact
   * arithmetic: the largest `r` with `r² · fileSize <= side² · maxFileSize`.
   */
  function ShrinkSide(side: nat, fileSize: nat): (r: nat)
    requires fileSize > 0
    ensures r * r * fileSize <= side * side * Config.MaxFileSize < (r + 1) * (r + 1) * fileSize
  {
    var q := side * side * Config.MaxFileSize / fileSize;
    var r := Isqrt(q);
    ScaleBounds(r * r, q, (r + 1) * (r + 1), side * side * Config.MaxFileSize, fileSize);
    r
  }

  lemma ScaleBounds(lo: nat, q: nat, hi: nat, x: nat, d: nat)
    requires d > 0 && q == x / d && lo <= q < hi
    ensures lo * d <= x < hi * d
  {
    assert q * d <= x < (q + 1) * d;
    assert lo * d <= q * d;
    assert (q + 1) * d <= hi * d;
  }

  /** Shrinking a file over the size limit never enlarges a side. */
  lemma ShrinkSideAtMost(side: nat, fileSize: nat)
    requires fileSize > Config.MaxFileSize
    ensures ShrinkSide(side, fileSize) <= side
  {
    ScaledSideAtMost(side, ShrinkSide(side, fileSize), fileSize, Config.MaxFileSize);
  }

  lemma ScaledSideAtMost(side: nat, r: nat, fileSize: nat, limit: nat)
    requires fileSize > limit && r * r * fileSize <= side * side * limit
    ensures r <= side
  {
    var ss := side * side;
    if r > side {
      MulLe(side + 1, r, side + 1);
      MulLe(side + 1, r, r);
      assert r * r >= ss + 1;
      MulLe(ss + 1, r * r, fileSize);
      MulLe(limit, fileSize, ss);
      assert false;
    }
  }

  lemma MulLe(a: nat, b: nat, c: nat)
    requires a <= b
    ensures a * c <= b * c && c * a <= c * b
  {
  }

  /** How the re-encoding loop ends. */
  datatype Compression =
    | Fits(quality: int, result: Encoded)
    | Shrunk(width: int, height: int, result: Encoded)
    | EncodeFailed(message: string)
    | Exhausted

  /**
   * The re-encoding loop from `quality` on, after `attempt` reductions: stop
   * at the first encoding within the size limit; above the minimum quality,
   * lower it by 5 and count an attempt; at the minimum, shrink the
   * dimensions once and keep that encoding whatever its size.
   */
  function Compress(file: string, width: int, height: int, quality: int, attempt: nat,
                    encode: (string, int, int, int) -> Result<Encoded, string>): (c: Compression)
    ensures c.Fits? ==> c.result.size <= Config.MaxFileSize && c.quality <= quality &&
                        encode(file, width, height, c.quality) == Ok(c.result)
    ensures c.Shrunk? ==> c.width >= 0 && c.height >= 0 &&
                          encode(file, c.width, c.height, Config.JpegQualityMin) == Ok(c.result)
    decreases MaxAttempts - attempt
  {
    if attempt >= MaxAttempts then Exhausted
    else match encode(file, width, height, quality)
      case Err(m) => EncodeFailed(m)
      case Ok(e) =>
        if e.size <= Config.MaxFileSize then Fits(quality, e)
        else if quality > Config.JpegQualityMin then
          Compress(file, width, height, quality - QualityStep, attempt + 1, encode)
        else
          var w := ShrinkSide(if width < 0 then 0 else width, e.size);
          var h := ShrinkSide(if height < 0 then 0 else height, e.size);
          match encode(file, w, h, Config.JpegQualityMin)
          case Err(m) => EncodeFailed(m)
          case Ok(e2) => Shrunk(w, h, e2)
  }

  /** The quality tried at attempt `a` when starting from the maximum. */
  function QualityAt(a: nat): int {
    Config.JpegQualityMax - QualityStep * a
  }

  /** Starting from the maximum quality the loop reaches the minimum after six reductions, so it never runs out of attempts. */
  lemma {:induction false} CompressNeverExhausted(file: string, width: int, height: int, a: nat,
                                                  encode: (string, int, int, int) -> Result<Encoded, string>)
    requires a <= 6
    ensures Compress(file, width, height, QualityAt(a), a, encode) != Exhausted
    decreases 6 - a
  {
    if a < 6 {
      CompressNeverExhausted(file, width, height, a + 1, encode);
    }
  }

  /**
   * A result that fits was encoded at one of the qualities 80, 75, …, 50 and
   * is within the size limit, and it is the first that fits: every higher
   * quality tried encoded a file over the limit.
   */
  lemma {:induction false} FitsWithinLimit(file: string, width: int, height: int, a: nat,
                                           encode: (string, int, int, int) -> Result<Encoded, string>)
    requires a <= 6
    ensures var c := Compress(file, width, height, QualityAt(a), a, encode);
            c.Fits? ==> c.result.size <= Config.MaxFileSize &&
                        exists b :: a <= b <= 6 && c.quality == QualityAt(b) && encode(file, width, height, c.quality) == Ok(c.result)
    ensures var c := Compress(file, width, height, QualityAt(a), a, encode);
            c.Fits? ==> forall b :: a <= b <= 6 && QualityAt(b) > c.quality ==>
                          encode(file, width, height, QualityAt(b)).Ok? &&
                          encode(file, width, height, QualityAt(b)).value.size > Config.MaxFileSize
    decreases 6 - a
  {
    if a < 6 {
      FitsWithinLimit(file, width, height, a + 1, encode);
    }
  }

  /** The dimensions are shrunk only after every quality from `QualityAt(a)` down to 50 produced a file over the limit. */
  lemma {:induction false} ShrunkOnlyAfterAllQualities(file: string, width: int, height: int, a: nat,
                                                       encode: (string, int, int, int) -> Result<Encoded, string>)
    requires a <= 6
    ensures Compress(file, width, height, QualityAt(a), a, encode).Shrunk? ==>
              forall b :: a <= b <= 6 ==> encode(file, width, height, QualityAt(b)).Ok? &&
                                          encode(file, width, height, QualityAt(b)).value.size > Config.MaxFileSize
    decreases 6 - a
  {
    if a < 6 {
      ShrunkOnlyAfterAllQualities(file, width, height, a + 1, encode);
    }
  }

  /** The shrunk dimensions never exceed the ones that were being encoded. */
  lemma ShrunkWithinDimensions(file: string, width: nat, height: nat, quality: int, attempt: nat,
                               encode: (string, int, int, int) -> Result<Encoded, string>)
    ensures var c := Compress(file, width, height, quality, attempt, encode);
            c.Shrunk? ==> c.width <= width && c.height <= height
    decreases MaxAttempts - attempt
  {
    if attempt < MaxAttempts {
      var r := encode(file, width, height, quality);
      if r.Ok? && r.value.size > Config.MaxFileSize {
        if quality > Config.JpegQualityMin {
          ShrunkWithinDimensions(file, width, height, quality - QualityStep, attempt + 1, encode);
        } else {
          ShrinkSideAtMost(width, r.value.size);
          ShrinkSideAtMost(height, r.value.size);
        }
      }
    }
  }

  /** What `processImage` does with one image. */
  datatype Outcome =
    | NotEligible                 // no id or no file name: returns false, touches nothing
    | Succeeded(result: Encoded)  // recorded as processed
    | FailedWith(message: string)

  function ProcessedName(fileName: string): string {
    "processed_" + fileName
  }

  /** The outcome of `processImage`, from the raw files present and the library's answers. */
  function ProcessOutcome(image: Image, rawFiles: set<string>,
                          meta: string -> Result<(int, int), string>,
                          encode: (string, int, int, int) -> Result<Encoded, string>): (o: Outcome)
    ensures o.NotEligible? <==> image.id == 0 || image.fileName == ""
    ensures o.Succeeded? ==> image.fileName in rawFiles
    ensures image.id != 0 && image.fileName != "" && image.fileName !in rawFiles ==> o == FailedWith(MissingRawMessage)
    ensures image.id != 0 && image.fileName != "" && image.fileName in rawFiles && meta(image.fileName).Err? ==>
              o == FailedWith(meta(image.fileName).error)
    ensures image.id != 0 && image.fileName != "" && image.fileName in rawFiles && meta(image.fileName).Ok? &&
            (meta(image.fileName).value.0 <= 0 || meta(image.fileName).value.1 <= 0) ==>
              o == FailedWith(NoDimensionsMessage)
    ensures image.id != 0 && image.fileName != "" && image.fileName in rawFiles && meta(image.fileName).Ok? &&
            meta(image.fileName).value.0 > 0 && meta(image.fileName).value.1 > 0 ==>
              var dims := meta(image.fileName).value;
              var target := CalculateResizeAndCrop(dims.0, dims.1, Config.MaxWidth, Config.MaxHeight);
              var c := Compress(image.fileName, target.0, target.1, Config.JpegQualityMax, 0, encode);
              (c.Fits? || c.Shrunk? ==> o == Succeeded(c.result)) &&
              (c.EncodeFailed? ==> o == FailedWith(c.message))
  {
    if image.id == 0 || image.fileName == "" then NotEligible
    else if image.fileName !in rawFiles then FailedWith(MissingRawMessage)
    else match meta(image.fileName)
      case Err(m) => FailedWith(m)
      case Ok(dims) =>
        if dims.0 <= 0 || dims.1 <= 0 then FailedWith(NoDimensionsMessage)
        else
          var target := CalculateResizeAndCrop(dims.0, dims.1, Config.MaxWidth, Config.MaxHeight);
          match Compress(image.fileName, target.0, target.1, Config.JpegQualityMax, 0, encode)
          case Fits(_, e) => Succeeded(e)
          case Shrunk(_, _, e) => Succeeded(e)
          case EncodeFailed(m) => FailedWith(m)
          case Exhausted => FailedWith(CannotCompressMessage)
  }

  /** `processImage` never reports that the image could not be compressed: the attempt bound is never reached. */
  lemma NeverCannotCompress(image: Image, rawFiles: set<string>,
                            meta: string -> Result<(int, int), string>,
                            encode: (string, int, int, int) -> Result<Encoded, string>)
    ensures ProcessOutcome(image, rawFiles, meta, encode) != FailedWith(CannotCompressMessage) ||
            meta(image.fileName) == Err(CannotCompressMessage) ||
            exists w, h, q :: encode(image.fileName, w, h, q) == Err(CannotCompressMessage)
  {
    if image.id != 0 && image.fileName != "" && image.fileName in rawFiles && meta(image.fileName).Ok? {
      var dims := meta(image.fileName).value;
      if dims.0 > 0 && dims.1 > 0 {
        var target := CalculateResizeAndCrop(dims.0, dims.1, Config.MaxWidth, Config.MaxHeight);
        CompressNeverExhausted(image.fileName, target.0, target.1, 0, encode);
        var c := Compress(image.fileName, target.0, target.1, Config.JpegQualityMax, 0, encode);
        if c.EncodeFailed? && c.message == CannotCompressMessage {
          EncodeFailedComesFromEncoder(image.fileName, target.0, target.1, Config.JpegQualityMax, 0, encode);
        }
      }
    }
  }

  /** An encoder failure reported by the loop is one the encoder produced. */
  lemma {:induction false} EncodeFailedComesFromEncoder(file: string, width: int, height: int, quality: int, attempt: nat,
                                                        encode: (string, int, int, int) -> Result<Encoded, string>)
    ensures var c := Compress(file, width, height, quality, attempt, encode);
            c.EncodeFailed? ==> exists w, h, q :: encode(file, w, h, q) == Err(c.message)
    decreases MaxAttempts - attempt
  {
    if attempt < MaxAttempts {
      var r := encode(file, width, height, quality);
      if r.Ok? && r.value.size > Config.MaxFileSize && quality > Config.JpegQualityMin {
        EncodeFailedComesFromEncoder(file, width, height, quality - QualityStep, attempt + 1, encode);
      } else if r.Ok? && r.value.size > Config.MaxFileSize {
        var w := ShrinkSide(if width < 0 then 0 else width, r.value.size);
        var h := ShrinkSide(if height < 0 then 0 else height, r.value.size);
        var c := Compress(file, width, height, quality, attempt, encode);
        if c.EncodeFailed? {
          assert encode(file, w, h, Config.JpegQualityMin) == Err(c.message);
        }
      }
    }
  }

  /**
   * A processed image either fits within the size limit, or it is the
   * shrunk fallback, tried only once every quality from 80 down to 50 had
   * produced a file over the limit, and kept whatever its size.
   */
  lemma SucceededFitsOrShrunkLast(image: Image, rawFiles: set<string>,
                                  meta: string -> Result<(int, int), string>,
                                  encode: (string, int, int, int) -> Result<Encoded, string>)
    requires ProcessOutcome(image, rawFiles, meta, encode).Succeeded?
    ensures var dims := meta(image.fileName).value;
            var target := CalculateResizeAndCrop(dims.0, dims.1, Config.MaxWidth, Config.MaxHeight);
            ProcessOutcome(image, rawFiles, meta, encode).result.size <= Config.MaxFileSize ||
            forall b :: 0 <= b <= 6 ==> encode(image.fileName, target.0, target.1, QualityAt(b)).Ok? &&
                                        encode(image.fileName, target.0, target.1, QualityAt(b)).value.size > Config.MaxFileSize
  {
    var dims := meta(image.fileName).value;
    var target := CalculateResizeAndCrop(dims.0, dims.1, Config.MaxWidth, Config.MaxHeight);
    assert QualityAt(0) == Config.JpegQualityMax;
    FitsWithinLimit(image.fileName, target.0, target.1, 0, encode);
    ShrunkOnlyAfterAllQualities(image.fileName, target.0, target.1, 0, encode);
  }

  /** The row update `processImage` makes for an outcome. */
  function OutcomePatch(image: Image, o: Outcome): (p: Option<Patch>)
    ensures p.None? <==> o.NotEligible?
    ensures p.Some? ==> p.value.processStatus == Some(if o.Succeeded? then Processed else ProcessFailed)
    ensures p.Some? ==> p.value.downloadStatus.None?
    ensures o.Succeeded? ==> p.value.fileName == Some(ProcessedName(image.fileName)) && p.value.fileSize == Some(o.result.size as int)
    ensures o.Succeeded? ==> p.value.width == Some(o.result.width) && p.value.height == Some(o.result.height) &&
                             p.value.errorMessage.None?
    ensures o.FailedWith? ==> p.value.errorMessage == Some(o.message) && p.value.fileName.None? &&
                              p.value.fileSize.None? && p.value.width.None? && p.value.height.None?
  {
    match o
    case NotEligible => None
    case Succeeded(e) =>
      Some(Patch(Some(ProcessedName(image.fileName)), None, Some(Processed), Some(e.size as int), Some(e.width), Some(e.height), None))
    case FailedWith(m) => Some(Patch(None, None, Some(ProcessFailed), None, None, None, Some(m)))
  }

  function StepRows(rows: seq<Image>, image: Image, o: Outcome, now: nat): seq<Image> {
    match OutcomePatch(image, o)
    case None => rows
    case Some(p) => Updated(rows, image.id, p, now)
  }

  /**
   * The processed directory after one `processImage`: the output file is
   * written when encoding gets that far and removed again on failure.
   */
  function StepFiles(files: set<string>, image: Image, o: Outcome): (r: set<string>)
    ensures o.Succeeded? ==> ProcessedName(image.fileName) in r
    ensures o.FailedWith? ==> ProcessedName(image.fileName) !in r
    ensures forall f :: f != ProcessedName(image.fileName) ==> (f in r <==> f in files)
  {
    if o.Succeeded? then files + {ProcessedName(image.fileName)}
    else if o.FailedWith? then files - {ProcessedName(image.fileName)}
    else files
  }

  /** The processed directory after processing `images` in order. */
  function BatchProcessedFiles(files: set<string>, images: seq<Image>, rawFiles: set<string>,
                               meta: string -> Result<(int, int), string>,
                               encode: (string, int, int, int) -> Result<Encoded, string>): set<string>
    decreases |images|
  {
    if |images| == 0 then files
    else
      var n := |images| - 1;
      StepFiles(BatchProcessedFiles(files, images[..n], rawFiles, meta, encode), images[n],
                ProcessOutcome(images[n], rawFiles, meta, encode))
  }

  lemma ProcessedNameInjective(a: string, b: string)
    requires ProcessedName(a) == ProcessedName(b)
    ensures a == b
  {
    assert a == ProcessedName(a)[|"processed_"|..];
    assert b == ProcessedName(b)[|"processed_"|..];
  }

  /**
   * Every file a batch leaves in the processed directory was there before
   * or is the output of an image of the batch that succeeded.
   */
  lemma {:induction false} BatchProcessedFilesFromSuccesses(files: set<string>, images: seq<Image>, rawFiles: set<string>,
                                                            meta: string -> Result<(int, int), string>,
                                                            encode: (string, int, int, int) -> Result<Encoded, string>,
                                                            f: string)
    requires f in BatchProcessedFiles(files, images, rawFiles, meta, encode) && f !in files
    ensures exists k :: 0 <= k < |images| && ProcessOutcome(images[k], rawFiles, meta, encode).Succeeded? &&
                        f == ProcessedName(images[k].fileName)
    decreases |images|
  {
    var n := |images| - 1;
    var before := BatchProcessedFiles(files, images[..n], rawFiles, meta, encode);
    if f == ProcessedName(images[n].fileName) && ProcessOutcome(images[n], rawFiles, meta, encode).Succeeded? {
    } else {
      assert f in before;
      BatchProcessedFilesFromSuccesses(files, images[..n], rawFiles, meta, encode, f);
      var k :| 0 <= k < n && ProcessOutcome(images[..n][k], rawFiles, meta, encode).Succeeded? &&
               f == ProcessedName(images[..n][k].fileName);
      assert images[..n][k] == images[k];
    }
  }

  /**
   * The output of an image that succeeded stays in the processed directory
   * unless a later image of the batch has the same file name.
   */
  lemma {:induction false} SuccessfulOutputKept(files: set<string>, images: seq<Image>, rawFiles: set<string>,
                                                meta: string -> Result<(int, int), string>,
                                                encode: (string, int, int, int) -> Result<Encoded, string>, k: nat)
    requires k < |images| && ProcessOutcome(images[k], rawFiles, meta, encode).Succeeded?
    requires forall j :: k < j < |images| ==> images[j].fileName != images[k].fileName
    ensures ProcessedName(images[k].fileName) in BatchProcessedFiles(files, images, rawFiles, meta, encode)
    decreases |images|
  {
    var n := |images| - 1;
    if k < n {
      assert images[..n][k] == images[k];
      SuccessfulOutputKept(files, images[..n], rawFiles, meta, encode, k);
      if ProcessedName(images[n].fileName) == ProcessedName(images[k].fileName) {
        ProcessedNameInjective(images[n].fileName, images[k].fileName);
      }
    }
  }

  /** The table after processing `images` in order, the k-th at time `clock(k)`. */
  function BatchRows(rows: seq<Image>, images: seq<Image>, rawFiles: set<string>,
                     meta: string -> Result<(int, int), string>,
                     encode: (string, int, int, int) -> Result<Encoded, string>, clock: nat -> nat): (r: seq<Image>)
    ensures |r| == |rows|
    ensures forall j :: 0 <= j < |rows| ==> r[j].id == rows[j].id && r[j].url == rows[j].url
    decreases |images|
  {
    if |images| == 0 then rows
    else
      var n := |images| - 1;
      StepRows(BatchRows(rows, images[..n], rawFiles, meta, encode, clock), images[n],
               ProcessOutcome(images[n], rawFiles, meta, encode), clock(n))
  }

  /** Positions of the images whose processing succeeded. */
  function SucceededAt(images: seq<Image>, rawFiles: set<string>,
                       meta: string -> Result<(int, int), string>,
                       encode: (string, int, int, int) -> Result<Encoded, string>): set<nat>
  {
    set k | 0 <= k < |images| && ProcessOutcome(images[k], rawFiles, meta, encode).Succeeded?
  }

  /** The number of images whose processing reports success. */
  function SuccessCount(images: seq<Image>, rawFiles: set<string>,
                        meta: string -> Result<(int, int), string>,
                        encode: (string, int, int, int) -> Result<Encoded, string>): (n: nat)
    ensures n == |SucceededAt(images, rawFiles, meta, encode)|
    ensures n <= |images|
    decreases |images|
  {
    if |images| == 0 then 0
    else
      var k := |images| - 1;
      assert SucceededAt(images, rawFiles, meta, encode) ==
             SucceededAt(images[..k], rawFiles, meta, encode) +
             (if ProcessOutcome(images[k], rawFiles, meta, encode).Succeeded? then {k} else {});
      SuccessCount(images[..k], rawFiles, meta, encode) +
        (if ProcessOutcome(images[k], rawFiles, meta, encode).Succeeded? then 1 else 0)
  }

  /** Every row the batch names has that image's processing outcome as its status. */
  predicate Settled(r: seq<Image>, images: seq<Image>, rawFiles: set<string>,
                    meta: string -> Result<(int, int), string>,
                    encode: (string, int, int, int) -> Result<Encoded, string>) {
    forall k, j :: 0 <= k < |images| && 0 <= j < |r| && r[j].id == images[k].id && images[k].fileName != "" ==>
      r[j].processStatus == (if ProcessOutcome(images[k], rawFiles, meta, encode).Succeeded? then Processed else ProcessFailed)
  }

  /**
   * With distinct, non-zero ids in the batch and in the table, each named
   * row with a file name ends "processed" or "failed", as its own outcome says.
   */
  lemma {:induction false} BatchSettlesEveryRow(rows: seq<Image>, images: seq<Image>, rawFiles: set<string>,
                                                meta: string -> Result<(int, int), string>,
                                                encode: (string, int, int, int) -> Result<Encoded, string>, clock: nat -> nat)
    requires NumberedDistinct(rows) && NumberedDistinct(images)
    ensures Settled(BatchRows(rows, images, rawFiles, meta, encode, clock), images, rawFiles, meta, encode)
    decreases |images|
  {
    if |images| > 0 {
      var n := |images| - 1;
      var init := images[..n];
      assert NumberedDistinct(init);
      BatchSettlesEveryRow(rows, init, rawFiles, meta, encode, clock);
      var prev := BatchRows(rows, init, rawFiles, meta, encode, clock);
      var r := BatchRows(rows, images, rawFiles, meta, encode, clock);
      var last := images[n];
      var o := ProcessOutcome(last, rawFiles, meta, encode);
      assert Settled(prev, init, rawFiles, meta, encode);
      forall k, j | 0 <= k < |images| && 0 <= j < |r| && r[j].id == images[k].id && images[k].fileName != ""
        ensures r[j].processStatus == (if ProcessOutcome(images[k], rawFiles, meta, encode).Succeeded? then Processed else ProcessFailed)
      {
        if k < n {
          assert images[k] == init[k];
          assert prev[j].id == images[k].id != last.id;
        } else {
          assert forall i :: 0 <= i < j ==> prev[i].id != last.id;
          var p := OutcomePatch(last, o);
          assert r == Updated(prev, last.id, p.value, clock(n));
          assert r[j] == Apply(prev[j], p.value, clock(n));
        }
      }
    }
  }

  /** The processed image directory and the processor's operations over it. */
  class ImageProcessor {
    /** Names of the files present in the processed image directory. */
    var processedFiles: set<string>

    constructor (existing: set<string>)
      ensures processedFiles == existing
    {
      processedFiles := existing;
    }

    /**
     * `processImage`: checks the id and file name, the raw file and its
     * dimensions, then re-encodes at falling quality until the file fits,
     * shrinking once at the lowest quality; records the outcome and removes
     * the processed file on failure.
     */
    method ProcessImage(store: ImageStore, image: Image, rawFiles: set<string>,
                        meta: string -> Result<(int, int), string>,
                        encode: (string, int, int, int) -> Result<Encoded, string>, now: nat)
      returns (ok: bool)
      requires store.Valid()
      modifies this, store
      ensures store.Valid() && store.nextId == old(store.nextId)
      ensures var o := ProcessOutcome(image, rawFiles, meta, encode);
              ok == o.Succeeded? &&
              store.rows == StepRows(old(store.rows), image, o, now) &&
              processedFiles == StepFiles(old(processedFiles), image, o)
    {
      if image.id == 0 || image.fileName == "" {
        return false;
      }
      var processedName := ProcessedName(image.fileName);
      var failure: string;
      if image.fileName !in rawFiles {
        failure := MissingRawMessage;
      } else {
        var m := meta(image.fileName);
        if m.Err? {
          failure := m.error;
        } else if m.value.0 <= 0 || m.value.1 <= 0 {
          failure := NoDimensionsMessage;
        } else {
          var target := CalculateResizeAndCrop(m.value.0, m.value.1, Config.MaxWidth, Config.MaxHeight);
          var c := Reencode(image.fileName, target.0, target.1, encode);
          processedFiles := processedFiles + {processedName};
          match c {
            case Fits(_, e) =>
              store.UpdateImage(image.id, Patch(Some(processedName), None, Some(Processed), Some(e.size as int),
                                                Some(e.width), Some(e.height), None), now);
              return true;
            case Shrunk(_, _, e) =>
              store.UpdateImage(image.id, Patch(Some(processedName), None, Some(Processed), Some(e.size as int),
                                                Some(e.width), Some(e.height), None), now);
              return true;
            case EncodeFailed(msg) =>
              failure := msg;
            case Exhausted =>
              failure := CannotCompressMessage;
          }
        }
      }
      store.UpdateImage(image.id, Patch(None, None, Some(ProcessFailed), None, None, None, Some(failure)), now);
      processedFiles := processedFiles - {processedName};
      ok := false;
    }

    /**
     * The re-encoding loop of `processImage` at the target size: JPEG quality
     * from 80 down in steps of 5 until the file fits, a single shrink at the
     * lowest quality, and at most ten reductions.
     */
    static method Reencode(file: string, width: int, height: int,
                           encode: (string, int, int, int) -> Result<Encoded, string>)
      returns (c: Compression)
      ensures c == Compress(file, width, height, Config.JpegQualityMax, 0, encode)
      ensures c.Fits? ==> c.result.size <= Config.MaxFileSize
      ensures c != Exhausted
    {
      CompressNeverExhausted(file, width, height, 0, encode);
      FitsWithinLimit(file, width, height, 0, encode);
      var quality := Config.JpegQualityMax;
      var attemptCount: nat := 0;
      while attemptCount < MaxAttempts
        invariant attemptCount <= MaxAttempts
        invariant Compress(file, width, height, quality, attemptCount, encode) ==
                  Compress(file, width, height, Config.JpegQualityMax, 0, encode)
        decreases MaxAttempts - attemptCount
      {
        var written := encode(file, width, height, quality);
        if written.Err? {
          return EncodeFailed(written.error);
        }
        var fileSize := written.value.size;
        if fileSize <= Config.MaxFileSize {
          return Fits(quality, written.value);
        }
        if quality > Config.JpegQualityMin {
          quality := quality - QualityStep;
        } else {
          var newWidth := ShrinkSide(if width < 0 then 0 else width, fileSize);
          var newHeight := ShrinkSide(if height < 0 then 0 else height, fileSize);
          var rewritten := encode(file, newWidth, newHeight, Config.JpegQualityMin);
          if rewritten.Err? {
            return EncodeFailed(rewritten.error);
          }
          return Shrunk(newWidth, newHeight, rewritten.value);
        }
        attemptCount := attemptCount + 1;
      }
      return Exhausted;
    }

    /** `processImagesBatch`: processes `images` one after another, counting successes and failures. */
    method ProcessImagesBatch(store: ImageStore, images: seq<Image>, rawFiles: set<string>,
                              meta: string -> Result<(int, int), string>,
                              encode: (string, int, int, int) -> Result<Encoded, string>, clock: nat -> nat)
      returns (completed: nat, succeeded: nat, failed: nat)
      requires store.Valid()
      modifies this, store
      ensures store.Valid() && store.nextId == old(store.nextId)
      ensures store.rows == BatchRows(old(store.rows), images, rawFiles, meta, encode, clock)
      ensures processedFiles == BatchProcessedFiles(old(processedFiles), images, rawFiles, meta, encode)
      ensures completed == |images| && succeeded == SuccessCount(images, rawFiles, meta, encode) && succeeded + failed == completed
    {
      completed, succeeded, failed := 0, 0, 0;
      while completed < |images|
        invariant completed <= |images|
        invariant processedFiles == BatchProcessedFiles(old(processedFiles), images[..completed], rawFiles, meta, encode)
        invariant store.Valid() && store.nextId == old(store.nextId)
        invariant store.rows == BatchRows(old(store.rows), images[..completed], rawFiles, meta, encode, clock)
        invariant succeeded == SuccessCount(images[..completed], rawFiles, meta, encode) && succeeded + failed == completed
      {
        var success := ProcessImage(store, images[completed], rawFiles, meta, encode, clock(completed));
        if success {
          succeeded := succeeded + 1;
        } else {
          failed := failed + 1;
        }
        assert images[..completed + 1][..completed] == images[..completed];
        completed := completed + 1;
      }
      assert images[..completed] == images;
    }

    /**
     * `processPendingImages`: selects up to `limit` downloaded rows still
     * pending processing (0 means no limit) and processes them; afterwards
     * each selected row with a file name is "processed" or "failed".
     */
    method ProcessPendingImages(store: ImageStore, limit: int, rawFiles: set<string>,
                                meta: string -> Result<(int, int), string>,
                                encode: (string, int, int, int) -> Result<Encoded, string>, clock: nat -> nat)
      requires store.Valid()
      modifies this, store
      ensures store.Valid()
      ensures var pending := GetImagesByStatus(old(store.rows), "downloaded", "pending", limit);
              store.rows == BatchRows(old(store.rows), pending, rawFiles, meta, encode, clock) &&
              Settled(store.rows, pending, rawFiles, meta, encode) &&
              processedFiles == BatchProcessedFiles(old(processedFiles), pending, rawFiles, meta, encode)
    {
      var pending := GetImagesByStatus(store.rows, "downloaded", "pending", limit);
      GetImagesByStatusNumberedDistinct(store.rows, store.nextId, "downloaded", "pending", limit);
      assert NumberedDistinct(store.rows);
      BatchSettlesEveryRow(store.rows, pending, rawFiles, meta, encode, clock);
      if |pending| == 0 {
        return;
      }
      var _, _, _ := ProcessImagesBatch(store, pending, rawFiles, meta, encode, clock);
    }
  }
}
