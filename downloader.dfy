/**
 * Downloading the raw images (src/ImageDownloader.ts): one HTTP fetch per
 * image, a status update in the `images` table, and a batch driver that
 * runs the downloads in chunks of `concurrency`.
 *
 * The network is a parameter: `fetch(url)` is what the request produced
 * (a response, a transport error or a timeout). The clock is a parameter
 * too: `clock(k)` is `Date.now()` when the k-th image of a batch starts.
 */
module Downloader {
  import opened Wrappers
  import opened Strings
  import opened Records
  import Config

  /** What one HTTP GET produced. `writeError` is the file stream's error, if it raised one. */
  datatype FetchOutcome =
    | Response(statusCode: nat, statusMessage: string, contentType: Option<string>, writeError: Option<string>)
    | RequestError(message: string)
    | TimedOut

  const TimeoutMessage: string := "\U{4E0B}\U{8F09}\U{8D85}\U{6642}"
  const InvalidContentTypePrefix: string := "\U{7121}\U{6548}\U{7684}\U{5167}\U{5BB9}\U{985E}\U{578B}: "

  /** The response is accepted: status 200, a content type beginning with "image/", and the file written. */
  predicate Accepted(o: FetchOutcome) {
    o.Response? && o.statusCode == 200 && o.contentType.Some? &&
    StartsWith(o.contentType.value, "image/") && o.writeError.None?
  }

  /**
   * `downloadFile`: resolves when the body was written, otherwise rejects
   * with the first failing check's message, in the order the source checks them.
   */
  function DownloadFile(o: FetchOutcome): (r: Result<(), string>)
    ensures r.Ok? <==> Accepted(o)
    ensures o.TimedOut? ==> r == Err(TimeoutMessage)
    ensures o.RequestError? ==> r == Err(o.message)
    ensures o.Response? && o.statusCode != 200 ==> r.Err? && StartsWith(r.error, "HTTP ")
    ensures o.Response? && o.statusCode == 200 && !(o.contentType.Some? && StartsWith(o.contentType.value, "image/")) ==>
              r.Err? && StartsWith(r.error, InvalidContentTypePrefix)
  {
    match o
    case TimedOut => Err(TimeoutMessage)
    case RequestError(m) => Err(m)
    case Response(code, msg, ct, we) =>
      if code != 200 then Err("HTTP " + NatToString(code) + ": " + msg)
      else if !(ct.Some? && StartsWith(ct.value, "image/")) then
        Err(InvalidContentTypePrefix + (if ct.Some? then ct.value else "undefined"))
      else if we.Some? then Err(we.value)
      else Ok(())
  }

  /** `image_${id}_${Date.now()}.jpg`. */
  function RawFileName(id: nat, now: nat): (name: string)
    ensures StartsWith(name, "image_") && EndsWith(name, ".jpg")
  {
    "image_" + NatToString(id) + "_" + NatToString(now) + ".jpg"
  }

  lemma {:induction false} NatToStringSingleDigit(n: nat)
    ensures |NatToString(n)| == 1 <==> n < 10
  {
    if n >= 10 {
      assert |NatToString(n)| == |NatToString(n / 10)| + 1;
    }
  }

  /** Decimal rendering is injective. */
  lemma {:induction false} NatToStringInjective(n: nat, m: nat)
    requires NatToString(n) == NatToString(m)
    ensures n == m
    decreases n
  {
    NatToStringSingleDigit(n);
    NatToStringSingleDigit(m);
    if n >= 10 {
      var s := NatToString(n);
      assert s[..|s| - 1] == NatToString(n / 10) && s[|s| - 1] == DigitChar(n % 10);
      assert s[..|s| - 1] == NatToString(m / 10) && s[|s| - 1] == DigitChar(m % 10);
      NatToStringInjective(n / 10, m / 10);
    }
  }

  /** Two digit strings followed by '_' agree on their first part when the texts agree. */
  lemma {:induction false} DigitsPrefixUnique(a: string, b: string, x: string, y: string)
    requires forall i :: 0 <= i < |a| ==> IsDigit(a[i])
    requires forall i :: 0 <= i < |b| ==> IsDigit(b[i])
    requires a + "_" + x == b + "_" + y
    ensures a == b
  {
    var s := a + "_" + x;
    UnderscoreAfter(a, x);
    UnderscoreAfter(b, y);
    if |a| != |b| {
      assert false;
    }
    assert a == s[..|a|] == b;
  }

  lemma UnderscoreAfter(a: string, x: string)
    ensures (a + "_" + x)[|a|] == '_'
    ensures forall i :: 0 <= i < |a| ==> (a + "_" + x)[i] == a[i]
  {
  }

  /** Raw files of images with different ids never share a name, whatever the clock says. */
  lemma RawFileNamesDistinct(id1: nat, now1: nat, id2: nat, now2: nat)
    requires id1 != id2
    ensures RawFileName(id1, now1) != RawFileName(id2, now2)
  {
    if RawFileName(id1, now1) == RawFileName(id2, now2) {
      var a, b := NatToString(id1), NatToString(id2);
      var x, y := NatToString(now1) + ".jpg", NatToString(now2) + ".jpg";
      RawFileNameParts(id1, now1);
      RawFileNameParts(id2, now2);
      SamePrefixTail("image_", a + "_" + x, b + "_" + y);
      DigitsPrefixUnique(a, b, x, y);
      NatToStringInjective(id1, id2);
    }
  }

  lemma RawFileNameParts(id: nat, now: nat)
    ensures RawFileName(id, now) == "image_" + (NatToString(id) + "_" + (NatToString(now) + ".jpg"))
  {
  }

  lemma SamePrefixTail(p: string, u: string, v: string)
    requires p + u == p + v
    ensures u == v
  {
    assert u == (p + u)[|p|..];
    assert v == (p + v)[|p|..];
  }

  /**
   * The row update `downloadImage` makes, if any: none for an image without
   * an id; "downloaded" with the new file name on success; "failed" with the
   * error message otherwise.
   */
  function DownloadPatch(image: Image, o: FetchOutcome, now: nat): (p: Option<Patch>)
    ensures p.None? <==> image.id == 0
    ensures p.Some? ==> p.value.downloadStatus == Some(if Accepted(o) then Downloaded else DownloadFailed)
    ensures p.Some? && Accepted(o) ==> p.value.fileName == Some(RawFileName(image.id, now))
    ensures p.Some? ==> p.value.processStatus.None?
    ensures p.Some? && !Accepted(o) ==> p.value.fileName.None? && p.value.errorMessage == Some(DownloadFile(o).error)
    ensures p.Some? && Accepted(o) ==> p.value.errorMessage.None?
    ensures p.Some? ==> p.value.fileSize.None? && p.value.width.None? && p.value.height.None?
  {
    if image.id == 0 then None
    else match DownloadFile(o)
      case Ok(_) => Some(Patch(Some(RawFileName(image.id, now)), Some(Downloaded), None, None, None, None, None))
      case Err(msg) => Some(Patch(None, Some(DownloadFailed), None, None, None, None, Some(msg)))
  }

  /** The table after one `downloadImage`. */
  function StepRows(rows: seq<Image>, image: Image, o: FetchOutcome, now: nat): seq<Image> {
    match DownloadPatch(image, o, now)
    case None => rows
    case Some(p) => Updated(rows, image.id, p, now)
  }

  /** The table after downloading `images` in order, the k-th at time `clock(k)`. */
  function BatchRows(rows: seq<Image>, images: seq<Image>, fetch: string -> FetchOutcome, clock: nat -> nat): (r: seq<Image>)
    ensures |r| == |rows|
    ensures forall j :: 0 <= j < |rows| ==> r[j].id == rows[j].id && r[j].url == rows[j].url
    decreases |images|
  {
    if |images| == 0 then rows
    else
      var n := |images| - 1;
      StepRows(BatchRows(rows, images[..n], fetch, clock), images[n], fetch(images[n].url), clock(n))
  }

  /** The raw files written by downloading `images` in order. */
  function BatchFiles(images: seq<Image>, fetch: string -> FetchOutcome, clock: nat -> nat): set<string>
    decreases |images|
  {
    if |images| == 0 then {}
    else
      var n := |images| - 1;
      BatchFiles(images[..n], fetch, clock) +
        (if images[n].id != 0 && Accepted(fetch(images[n].url)) then {RawFileName(images[n].id, clock(n))} else {})
  }

  /** The number of downloads that report success. */
  function SuccessCount(images: seq<Image>, fetch: string -> FetchOutcome): (n: nat)
    ensures n <= |images|
    decreases |images|
  {
    if |images| == 0 then 0
    else
      var k := |images| - 1;
      SuccessCount(images[..k], fetch) + (if images[k].id != 0 && Accepted(fetch(images[k].url)) then 1 else 0)
  }

  /** A raw file is written by the batch exactly when a numbered image's download was accepted. */
  lemma {:induction false} BatchFilesExactly(images: seq<Image>, fetch: string -> FetchOutcome, clock: nat -> nat, f: string)
    ensures f in BatchFiles(images, fetch, clock) <==>
            exists k :: 0 <= k < |images| && images[k].id != 0 && Accepted(fetch(images[k].url)) &&
                        f == RawFileName(images[k].id, clock(k))
    decreases |images|
  {
    if |images| > 0 {
      var n := |images| - 1;
      BatchFilesExactly(images[..n], fetch, clock, f);
      if f in BatchFiles(images[..n], fetch, clock) {
        var k :| 0 <= k < n && images[..n][k].id != 0 && Accepted(fetch(images[..n][k].url)) &&
                 f == RawFileName(images[..n][k].id, clock(k));
        assert images[..n][k] == images[k];
      }
      if exists k :: 0 <= k < |images| && images[k].id != 0 && Accepted(fetch(images[k].url)) &&
                     f == RawFileName(images[k].id, clock(k)) {
        var k :| 0 <= k < |images| && images[k].id != 0 && Accepted(fetch(images[k].url)) &&
                 f == RawFileName(images[k].id, clock(k));
        if k < n {
          assert images[..n][k] == images[k];
        }
      }
    }
  }

  /** Downloading the first `j + 1` images is downloading the first `j`, then image `j` at time `clock(j)`. */
  lemma BatchStep(rows: seq<Image>, images: seq<Image>, j: nat, fetch: string -> FetchOutcome, clock: nat -> nat)
    requires j < |images|
    ensures var image, o := images[j], fetch(images[j].url);
      var ok := image.id != 0 && Accepted(o);
      BatchRows(rows, images[..j + 1], fetch, clock) == StepRows(BatchRows(rows, images[..j], fetch, clock), image, o, clock(j)) &&
      BatchFiles(images[..j + 1], fetch, clock) == BatchFiles(images[..j], fetch, clock) + (if ok then {RawFileName(image.id, clock(j))} else {}) &&
      SuccessCount(images[..j + 1], fetch) == SuccessCount(images[..j], fetch) + (if ok then 1 else 0)
  {
    assert images[..j + 1][..j] == images[..j];
  }

  /** One download touches only the row with the image's own id. */
  lemma StepRowsFrame(rows: seq<Image>, image: Image, o: FetchOutcome, now: nat, j: nat)
    requires j < |rows| && rows[j].id != image.id
    ensures |StepRows(rows, image, o, now)| == |rows| && StepRows(rows, image, o, now)[j] == rows[j]
  {
  }

  /** Every row of `r` that some image of the batch names has that image's download outcome as its status. */
  predicate Settled(r: seq<Image>, images: seq<Image>, fetch: string -> FetchOutcome) {
    forall k, j :: 0 <= k < |images| && 0 <= j < |r| && r[j].id == images[k].id ==>
      r[j].downloadStatus == (if Accepted(fetch(images[k].url)) then Downloaded else DownloadFailed)
  }

  /**
   * With distinct, non-zero ids in the batch and in the table, every row
   * the batch names ends in "downloaded" or "failed": none is left pending.
   */
  lemma {:induction false} BatchSettlesEveryRow(rows: seq<Image>, images: seq<Image>, fetch: string -> FetchOutcome, clock: nat -> nat)
    requires NumberedDistinct(rows) && NumberedDistinct(images)
    ensures Settled(BatchRows(rows, images, fetch, clock), images, fetch)
    decreases |images|
  {
    if |images| > 0 {
      var n := |images| - 1;
      var init := images[..n];
      assert NumberedDistinct(init);
      BatchSettlesEveryRow(rows, init, fetch, clock);
      var prev := BatchRows(rows, init, fetch, clock);
      var r := BatchRows(rows, images, fetch, clock);
      var last := images[n];
      assert NumberedDistinct(prev);
      assert Settled(prev, init, fetch);
      forall k, j | 0 <= k < |images| && 0 <= j < |r| && r[j].id == images[k].id
        ensures r[j].downloadStatus == (if Accepted(fetch(images[k].url)) then Downloaded else DownloadFailed)
      {
        if k < n {
          assert images[k] == init[k];
          assert prev[j].id == images[k].id != last.id;
          StepRowsFrame(prev, last, fetch(last.url), clock(n), j);
        } else {
          assert forall i :: 0 <= i < j ==> prev[i].id != last.id;
          var p := DownloadPatch(last, fetch(last.url), clock(n));
          assert r == Updated(prev, last.id, p.value, clock(n));
          assert r[j] == Apply(prev[j], p.value, clock(n));
        }
      }
    }
  }

  /** The raw image directory and the downloader's operations over it. */
  class ImageDownloader {
    /** Names of the files present in the raw image directory. */
    var rawFiles: set<string>

    constructor (existing: set<string>)
      ensures rawFiles == existing
    {
      rawFiles := existing;
    }

    /**
     * `downloadImage`: false for an image without an id (nothing changes);
     * otherwise fetches, writes `image_<id>_<now>.jpg` on success, records the
     * outcome in the table, and reports whether the download succeeded.
     */
    method DownloadImage(store: ImageStore, image: Image, o: FetchOutcome, now: nat) returns (ok: bool)
      requires store.Valid()
      modifies this, store
      ensures store.Valid()
      ensures ok <==> image.id != 0 && Accepted(o)
      ensures store.rows == StepRows(old(store.rows), image, o, now) && store.nextId == old(store.nextId)
      ensures rawFiles == old(rawFiles) + (if ok then {RawFileName(image.id, now)} else {})
    {
      if image.id == 0 {
        return false;
      }
      var fileName := RawFileName(image.id, now);
      var written := DownloadFile(o);
      match written {
        case Ok(_) =>
          rawFiles := rawFiles + {fileName};
          store.UpdateImage(image.id, Patch(Some(fileName), Some(Downloaded), None, None, None, None, None), now);
          ok := true;
        case Err(msg) =>
          store.UpdateImage(image.id, Patch(None, Some(DownloadFailed), None, None, None, None, Some(msg)), now);
          ok := false;
      }
    }

    /**
     * `downloadImagesBatch`: downloads `images` in consecutive chunks of
     * `concurrency`, counting successes and failures; every image is
     * attempted exactly once, in order.
     */
    method DownloadImagesBatch(store: ImageStore, images: seq<Image>, concurrency: nat,
                               fetch: string -> FetchOutcome, clock: nat -> nat)
      returns (completed: nat, succeeded: nat, failed: nat)
      requires store.Valid()
      requires concurrency >= 1
      modifies this, store
      ensures store.Valid() && store.nextId == old(store.nextId)
      ensures store.rows == BatchRows(old(store.rows), images, fetch, clock)
      ensures rawFiles == old(rawFiles) + BatchFiles(images, fetch, clock)
      ensures completed == |images| && succeeded == SuccessCount(images, fetch) && succeeded + failed == completed
    {
      completed, succeeded, failed := 0, 0, 0;
      ghost var rows0, files0 := store.rows, rawFiles;
      var i := 0;
      while i < |images|
        invariant completed == i
        invariant Progress(store, rows0, files0, images, i, fetch, clock, succeeded, failed)
        invariant store.nextId == old(store.nextId)
      {
        var end := if i + concurrency < |images| then i + concurrency else |images|;
        completed, succeeded, failed := DownloadChunk(store, images, i, end, fetch, clock, rows0, files0, succeeded, failed);
        i := end;
      }
      assert images[..i] == images;
    }

    /**
     * After the first `j` downloads of a batch started from table `rows0`
     * and raw files `files0`: the table, the raw files and the success
     * count are those of downloading `images[..j]` in order.
     */
    ghost predicate Progress(store: ImageStore, rows0: seq<Image>, files0: set<string>, images: seq<Image>, j: nat,
                             fetch: string -> FetchOutcome, clock: nat -> nat, succeeded: nat, failed: nat)
      reads this, store
    {
      j <= |images| && store.Valid() &&
      store.rows == BatchRows(rows0, images[..j], fetch, clock) &&
      rawFiles == files0 + BatchFiles(images[..j], fetch, clock) &&
      succeeded == SuccessCount(images[..j], fetch) && succeeded + failed == j
    }

    /** One chunk of `downloadImagesBatch`: images `i` to `end - 1`, one after another. */
    method DownloadChunk(store: ImageStore, images: seq<Image>, i: nat, end: nat,
                         fetch: string -> FetchOutcome, clock: nat -> nat,
                         ghost rows0: seq<Image>, ghost files0: set<string>, succeeded0: nat, failed0: nat)
      returns (completed: nat, succeeded: nat, failed: nat)
      requires i <= end <= |images|
      requires Progress(store, rows0, files0, images, i, fetch, clock, succeeded0, failed0)
      modifies this, store
      ensures completed == end && Progress(store, rows0, files0, images, end, fetch, clock, succeeded, failed)
      ensures store.nextId == old(store.nextId)
    {
      completed, succeeded, failed := i, succeeded0, failed0;
      while completed < end
        invariant i <= completed <= end
        invariant Progress(store, rows0, files0, images, completed, fetch, clock, succeeded, failed)
        invariant store.nextId == old(store.nextId)
      {
        succeeded, failed := DownloadNext(store, images, completed, fetch, clock, rows0, files0, succeeded, failed);
        completed := completed + 1;
      }
    }

    /** Downloads image `j` after the first `j`, with the counters carried along. */
    method DownloadNext(store: ImageStore, images: seq<Image>, j: nat,
                        fetch: string -> FetchOutcome, clock: nat -> nat,
                        ghost rows0: seq<Image>, ghost files0: set<string>, succeeded0: nat, failed0: nat)
      returns (succeeded: nat, failed: nat)
      requires j < |images|
      requires Progress(store, rows0, files0, images, j, fetch, clock, succeeded0, failed0)
      modifies this, store
      ensures Progress(store, rows0, files0, images, j + 1, fetch, clock, succeeded, failed)
      ensures store.nextId == old(store.nextId)
    {
      var image := images[j];
      BatchStep(rows0, images, j, fetch, clock);
      ghost var files := BatchFiles(images[..j], fetch, clock);
      var ok := DownloadImage(store, image, fetch(image.url), clock(j));
      if ok {
        assert files0 + files + {RawFileName(image.id, clock(j))} == files0 + (files + {RawFileName(image.id, clock(j))});
        succeeded, failed := succeeded0 + 1, failed0;
      } else {
        assert files + {} == files;
        succeeded, failed := succeeded0, failed0 + 1;
      }
    }

    /**
     * `downloadPendingImages`: selects up to `limit` rows whose download is
     * pending (0 means no limit) and downloads them with the configured
     * concurrency; afterwards none of the selected rows is still pending.
     */
    method DownloadPendingImages(store: ImageStore, limit: int, fetch: string -> FetchOutcome, clock: nat -> nat)
      requires store.Valid()
      modifies this, store
      ensures store.Valid()
      ensures var pending := GetImagesByStatus(old(store.rows), "pending", "", limit);
              store.rows == BatchRows(old(store.rows), pending, fetch, clock) &&
              forall k, j :: 0 <= k < |pending| && 0 <= j < |store.rows| && store.rows[j].id == pending[k].id ==>
                store.rows[j].downloadStatus in {Downloaded, DownloadFailed}
      ensures rawFiles == old(rawFiles) + BatchFiles(GetImagesByStatus(old(store.rows), "pending", "", limit), fetch, clock)
    {
      var pending := GetImagesByStatus(store.rows, "pending", "", limit);
      GetImagesByStatusNumberedDistinct(store.rows, store.nextId, "pending", "", limit);
      assert NumberedDistinct(store.rows);
      BatchSettlesEveryRow(store.rows, pending, fetch, clock);
      if |pending| == 0 {
        return;
      }
      var _, _, _ := DownloadImagesBatch(store, pending, Config.DownloadConcurrency, fetch, clock);
    }
  }
}
