/**
 * The `images` table of the scraping pipeline and the helper functions that
 * read and write it (src/database-helper.ts over the proxy of src/proxy.ts).
 *
 * The table is an ordered list of rows: the proxy appends on `push`, keeps
 * insertion order on reads, and SQLite enforces `url` UNIQUE and assigns
 * auto-increment ids starting at 1, so id 0 stands for "no id" (a falsy id).
 * Timestamps are milliseconds since the epoch; their ISO-8601 text is not modelled.
 */
module Records {
  import opened Wrappers

  datatype DownloadStatus = DownloadPending | Downloading | Downloaded | DownloadFailed
  datatype ProcessStatus = ProcessPending | Processing | Processed | ProcessFailed

  /** The text stored in the `download_status` column. */
  function DownloadStatusName(s: DownloadStatus): string {
    match s
    case DownloadPending => "pending"
    case Downloading => "downloading"
    case Downloaded => "downloaded"
    case DownloadFailed => "failed"
  }

  /** The text stored in the `process_status` column. */
  function ProcessStatusName(s: ProcessStatus): string {
    match s
    case ProcessPending => "pending"
    case Processing => "processing"
    case Processed => "processed"
    case ProcessFailed => "failed"
  }

  /** One row of `images`; `id == 0` stands for a row the database has not numbered. */
  datatype Image = Image(
    id: nat,
    url: string,
    altText: string,
    fileName: string,
    downloadStatus: DownloadStatus,
    processStatus: ProcessStatus,
    fileSize: int,
    width: int,
    height: int,
    errorMessage: string,
    createdAt: nat,
    updatedAt: nat)

  /** A partial update: `Some` for each key present in the object spread into the row. */
  datatype Patch = Patch(
    fileName: Option<string>,
    downloadStatus: Option<DownloadStatus>,
    processStatus: Option<ProcessStatus>,
    fileSize: Option<int>,
    width: Option<int>,
    height: Option<int>,
    errorMessage: Option<string>)

  function Pick<T>(o: Option<T>, old_: T): T {
    if o.Some? then o.value else old_
  }

  /** `{...img, ...patch, updated_at: now}`. */
  function Apply(img: Image, p: Patch, now: nat): (r: Image)
    ensures r.id == img.id && r.url == img.url && r.altText == img.altText && r.createdAt == img.createdAt
    ensures r.updatedAt == now
    ensures p.downloadStatus.Some? ==> r.downloadStatus == p.downloadStatus.value
    ensures p.downloadStatus.None? ==> r.downloadStatus == img.downloadStatus
    ensures p.processStatus.Some? ==> r.processStatus == p.processStatus.value
    ensures p.processStatus.None? ==> r.processStatus == img.processStatus
    ensures p.fileName.Some? ==> r.fileName == p.fileName.value
    ensures p.fileName.None? ==> r.fileName == img.fileName
    ensures p.fileSize.Some? ==> r.fileSize == p.fileSize.value
    ensures p.fileSize.None? ==> r.fileSize == img.fileSize
    ensures p.width.Some? ==> r.width == p.width.value
    ensures p.width.None? ==> r.width == img.width
    ensures p.height.Some? ==> r.height == p.height.value
    ensures p.height.None? ==> r.height == img.height
    ensures p.errorMessage.Some? ==> r.errorMessage == p.errorMessage.value
    ensures p.errorMessage.None? ==> r.errorMessage == img.errorMessage
  {
    img.(fileName := Pick(p.fileName, img.fileName),
         downloadStatus := Pick(p.downloadStatus, img.downloadStatus),
         processStatus := Pick(p.processStatus, img.processStatus),
         fileSize := Pick(p.fileSize, img.fileSize),
         width := Pick(p.width, img.width),
         height := Pick(p.height, img.height),
         errorMessage := Pick(p.errorMessage, img.errorMessage),
         updatedAt := now)
  }

  predicate UrlTaken(rows: seq<Image>, url: string) {
    exists i :: 0 <= i < |rows| && rows[i].url == url
  }

  /** The table's constraints: urls are unique, ids are distinct and below the next id to assign. */
  predicate WellFormed(rows: seq<Image>, nextId: nat) {
    nextId >= 1 &&
    (forall i, j :: 0 <= i < j < |rows| ==> rows[i].url != rows[j].url && rows[i].id != rows[j].id) &&
    (forall i :: 0 <= i < |rows| ==> 1 <= rows[i].id < nextId)
  }

  /** Rows with distinct ids, all drawn from `ids`, are at most `|ids|` many. */
  lemma {:induction false} DistinctIdsWithin(rows: seq<Image>, ids: set<nat>)
    requires forall i, j :: 0 <= i < j < |rows| ==> rows[i].id != rows[j].id
    requires forall i :: 0 <= i < |rows| ==> rows[i].id in ids
    ensures |rows| <= |ids|
    decreases |rows|
  {
    if |rows| > 0 {
      var n := |rows| - 1;
      var init := rows[..n];
      assert forall i :: 0 <= i < n ==> init[i] == rows[i];
      DistinctIdsWithin(init, ids - {rows[n].id});
    }
  }

  /** The ids `1 .. n - 1`. */
  function IdRange(n: nat): (ids: set<nat>)
    ensures forall x :: x in ids <==> 1 <= x < n
    ensures n >= 1 ==> |ids| == n - 1
  {
    if n <= 1 then {} else IdRange(n - 1) + {n - 1}
  }

  /** A well-formed table has fewer rows than its next id: each row holds its own id below it. */
  lemma RowsBelowNextId(rows: seq<Image>, nextId: nat)
    ensures WellFormed(rows, nextId) ==> |rows| < nextId
  {
    if WellFormed(rows, nextId) {
      DistinctIdsWithin(rows, IdRange(nextId));
    }
  }

  // ---------------------------------------------------------------------
  // insertImagesBatch
  // ---------------------------------------------------------------------

  datatype InsertState = InsertState(rows: seq<Image>, nextId: nat, count: nat)

  /**
   * The table after pushing `images` one at a time: a row whose url is already
   * stored is rejected by the UNIQUE constraint and skipped; every other row
   * is appended with the next id, and counted.
   */
  function Inserted(rows: seq<Image>, nextId: nat, images: seq<Image>): (r: InsertState)
    ensures |r.rows| == |rows| + r.count && r.rows[..|rows|] == rows
    ensures r.count <= |images| && r.nextId == nextId + r.count
    decreases |images|
  {
    if |images| == 0 then InsertState(rows, nextId, 0)
    else
      var prev := Inserted(rows, nextId, images[..|images| - 1]);
      var img := images[|images| - 1];
      if UrlTaken(prev.rows, img.url) then prev
      else InsertState(prev.rows + [img.(id := prev.nextId)], prev.nextId + 1, prev.count + 1)
  }

  /** After the batch every submitted url is stored, whether it was inserted now or before. */
  lemma {:induction false} InsertedStoresEveryUrl(rows: seq<Image>, nextId: nat, images: seq<Image>)
    ensures forall k :: 0 <= k < |images| ==> UrlTaken(Inserted(rows, nextId, images).rows, images[k].url)
    decreases |images|
  {
    if |images| > 0 {
      var init := images[..|images| - 1];
      InsertedStoresEveryUrl(rows, nextId, init);
      var prev := Inserted(rows, nextId, init);
      var r := Inserted(rows, nextId, images);
      forall k | 0 <= k < |images| ensures UrlTaken(r.rows, images[k].url) {
        if k < |images| - 1 {
          assert images[k] == init[k];
          var i :| 0 <= i < |prev.rows| && prev.rows[i].url == images[k].url;
          assert r.rows[i] == prev.rows[i];
        } else if !UrlTaken(prev.rows, images[k].url) {
          assert r.rows[|prev.rows|].url == images[k].url;
        }
      }
    }
  }

  /** Inserting keeps the table's constraints. */
  lemma {:induction false} InsertedWellFormed(rows: seq<Image>, nextId: nat, images: seq<Image>)
    requires WellFormed(rows, nextId)
    ensures var r := Inserted(rows, nextId, images); WellFormed(r.rows, r.nextId)
    decreases |images|
  {
    if |images| > 0 {
      InsertedWellFormed(rows, nextId, images[..|images| - 1]);
    }
  }

  /** Rows whose urls are new and pairwise distinct are all inserted, so the count is the batch size. */
  lemma {:induction false} FreshBatchFullyInserted(rows: seq<Image>, nextId: nat, images: seq<Image>)
    requires forall k :: 0 <= k < |images| ==> !UrlTaken(rows, images[k].url)
    requires forall k, l :: 0 <= k < l < |images| ==> images[k].url != images[l].url
    ensures Inserted(rows, nextId, images).count == |images|
    decreases |images|
  {
    if |images| > 0 {
      var init := images[..|images| - 1];
      FreshBatchFullyInserted(rows, nextId, init);
      var prev := Inserted(rows, nextId, init);
      var last := images[|images| - 1];
      if UrlTaken(prev.rows, last.url) {
        var i :| 0 <= i < |prev.rows| && prev.rows[i].url == last.url;
        if i >= |rows| {
          InsertedRowsComeFromBatch(rows, nextId, init, i);
        }
        assert false;
      }
    }
  }

  /** Each appended row carries the url of some row of the batch. */
  lemma {:induction false} InsertedRowsComeFromBatch(rows: seq<Image>, nextId: nat, images: seq<Image>, i: nat)
    requires |rows| <= i < |Inserted(rows, nextId, images).rows|
    ensures exists k :: 0 <= k < |images| && Inserted(rows, nextId, images).rows[i].url == images[k].url
    decreases |images|
  {
    var init := images[..|images| - 1];
    var prev := Inserted(rows, nextId, init);
    if i < |prev.rows| {
      InsertedRowsComeFromBatch(rows, nextId, init, i);
      var k :| 0 <= k < |init| && prev.rows[i].url == init[k].url;
      assert images[k] == init[k];
    } else {
      assert Inserted(rows, nextId, images).rows[i].url == images[|images| - 1].url;
    }
  }

  // ---------------------------------------------------------------------
  // getImagesByStatus
  // ---------------------------------------------------------------------

  /** A row passes the status filters; an empty filter string is falsy and keeps every row. */
  predicate Matches(img: Image, downloadStatus: string, processStatus: string) {
    (downloadStatus == "" || DownloadStatusName(img.downloadStatus) == downloadStatus) &&
    (processStatus == "" || ProcessStatusName(img.processStatus) == processStatus)
  }

  /** Reference selection: the rows passing both filters, in table order. */
  function Selected(rows: seq<Image>, downloadStatus: string, processStatus: string): (r: seq<Image>)
    ensures |r| <= |rows|
    decreases |rows|
  {
    if |rows| == 0 then []
    else if Matches(rows[0], downloadStatus, processStatus) then
      [rows[0]] + Selected(rows[1..], downloadStatus, processStatus)
    else Selected(rows[1..], downloadStatus, processStatus)
  }

  lemma {:induction false} SelectedMembership(rows: seq<Image>, downloadStatus: string, processStatus: string)
    ensures forall x :: x in Selected(rows, downloadStatus, processStatus) <==> x in rows && Matches(x, downloadStatus, processStatus)
    decreases |rows|
  {
    if |rows| > 0 {
      SelectedMembership(rows[1..], downloadStatus, processStatus);
      assert rows == [rows[0]] + rows[1..];
    }
  }

  function FilterDownload(rows: seq<Image>, status: string): seq<Image>
    decreases |rows|
  {
    if |rows| == 0 then []
    else if DownloadStatusName(rows[0].downloadStatus) == status then [rows[0]] + FilterDownload(rows[1..], status)
    else FilterDownload(rows[1..], status)
  }

  function FilterProcess(rows: seq<Image>, status: string): seq<Image>
    decreases |rows|
  {
    if |rows| == 0 then []
    else if ProcessStatusName(rows[0].processStatus) == status then [rows[0]] + FilterProcess(rows[1..], status)
    else FilterProcess(rows[1..], status)
  }

  lemma {:induction false} FilterProcessAppend(a: seq<Image>, b: seq<Image>, status: string)
    ensures FilterProcess(a + b, status) == FilterProcess(a, status) + FilterProcess(b, status)
    decreases |a|
  {
    if |a| > 0 {
      FilterProcessAppend(a[1..], b, status);
      assert (a + b)[1..] == a[1..] + b;
    } else {
      assert a + b == b;
    }
  }

  /** Filtering by download status and then by process status is the one-pass selection. */
  lemma {:induction false} TwoFiltersSelect(rows: seq<Image>, downloadStatus: string, processStatus: string)
    ensures var a := if downloadStatus != "" then FilterDownload(rows, downloadStatus) else rows;
            (if processStatus != "" then FilterProcess(a, processStatus) else a) == Selected(rows, downloadStatus, processStatus)
    decreases |rows|
  {
    if |rows| > 0 {
      TwoFiltersSelect(rows[1..], downloadStatus, processStatus);
      var a' := if downloadStatus != "" then FilterDownload(rows[1..], downloadStatus) else rows[1..];
      var keep0 := downloadStatus == "" || DownloadStatusName(rows[0].downloadStatus) == downloadStatus;
      if processStatus != "" {
        if keep0 {
          FilterProcessAppend([rows[0]], a', processStatus);
          assert [rows[0]][1..] == [];
        }
      } else if downloadStatus == "" {
        assert rows == [rows[0]] + rows[1..];
      }
    }
  }

  /** End index of `s.slice(0, limit)` on a list of length `n`: a negative limit counts from the end. */
  function SliceEnd(n: nat, limit: int): (e: nat)
    ensures e <= n
    ensures limit >= 0 ==> e == if limit < n then limit else n
    ensures limit < 0 ==> e == if n + limit > 0 then n + limit else 0
  {
    if limit >= 0 then (if limit < n then limit else n)
    else if n + limit > 0 then n + limit else 0
  }

  /**
   * `getImagesByStatus`: rows matching the non-empty status filters, in table
   * order, cut by `slice(0, limit)` unless `limit` is 0 (undefined or falsy).
   */
  function GetImagesByStatus(rows: seq<Image>, downloadStatus: string, processStatus: string, limit: int): (r: seq<Image>)
    ensures var m := Selected(rows, downloadStatus, processStatus);
            |r| == (if limit == 0 then |m| else SliceEnd(|m|, limit)) && r == m[..|r|]
    ensures forall x :: x in r ==> x in rows && Matches(x, downloadStatus, processStatus)
  {
    var a := if downloadStatus != "" then FilterDownload(rows, downloadStatus) else rows;
    var b := if processStatus != "" then FilterProcess(a, processStatus) else a;
    TwoFiltersSelect(rows, downloadStatus, processStatus);
    SelectedMembership(rows, downloadStatus, processStatus);
    var r := if limit != 0 then b[..SliceEnd(|b|, limit)] else b;
    assert forall x :: x in r ==> x in b;
    r
  }

  /** Rows carry database ids (non-zero) and no id twice. */
  predicate NumberedDistinct(s: seq<Image>) {
    (forall i :: 0 <= i < |s| ==> s[i].id >= 1) &&
    (forall i, j :: 0 <= i < j < |s| ==> s[i].id != s[j].id)
  }

  /** A selection from a well-formed table lists each database id at most once. */
  lemma {:induction false} SelectedNumberedDistinct(rows: seq<Image>, nextId: nat, downloadStatus: string, processStatus: string)
    requires WellFormed(rows, nextId)
    ensures NumberedDistinct(Selected(rows, downloadStatus, processStatus))
    decreases |rows|
  {
    if |rows| > 0 {
      var tail := Selected(rows[1..], downloadStatus, processStatus);
      SelectedNumberedDistinct(rows[1..], nextId, downloadStatus, processStatus);
      SelectedMembership(rows[1..], downloadStatus, processStatus);
      if Matches(rows[0], downloadStatus, processStatus) {
        var m := [rows[0]] + tail;
        forall i, j | 0 <= i < j < |m| ensures m[i].id != m[j].id {
          if i == 0 {
            assert m[j] in rows[1..];
            var k :| 0 <= k < |rows[1..]| && rows[1..][k] == m[j];
            assert rows[k + 1] == m[j];
          } else {
            assert m[i] == tail[i - 1] && m[j] == tail[j - 1];
          }
        }
      }
    }
  }

  /** What `getImagesByStatus` returns from a well-formed table has non-zero, distinct ids. */
  lemma GetImagesByStatusNumberedDistinct(rows: seq<Image>, nextId: nat, downloadStatus: string, processStatus: string, limit: int)
    requires WellFormed(rows, nextId)
    ensures NumberedDistinct(GetImagesByStatus(rows, downloadStatus, processStatus, limit))
  {
    SelectedNumberedDistinct(rows, nextId, downloadStatus, processStatus);
  }

  // ---------------------------------------------------------------------
  // updateImage
  // ---------------------------------------------------------------------

  /** `findIndex` by id: the first position holding `id`, or -1. */
  function IndexOfId(rows: seq<Image>, id: nat): (i: int)
    ensures -1 <= i < |rows|
    ensures i >= 0 ==> rows[i].id == id && forall j :: 0 <= j < i ==> rows[j].id != id
    ensures i == -1 ==> forall j :: 0 <= j < |rows| ==> rows[j].id != id
    decreases |rows|
  {
    if |rows| == 0 then -1
    else if rows[0].id == id then 0
    else var k := IndexOfId(rows[1..], id); if k == -1 then -1 else k + 1
  }

  /** The table after `updateImage(id, patch)`: the first row with that id is patched, the rest is untouched. */
  function Updated(rows: seq<Image>, id: nat, p: Patch, now: nat): (r: seq<Image>)
    ensures |r| == |rows|
    ensures forall j :: 0 <= j < |rows| ==> r[j].id == rows[j].id && r[j].url == rows[j].url
    ensures forall j :: 0 <= j < |rows| && rows[j].id != id ==> r[j] == rows[j]
    ensures forall j :: 0 <= j < |rows| && rows[j].id == id && (forall k :: 0 <= k < j ==> rows[k].id != id) ==> r[j] == Apply(rows[j], p, now)
    ensures (forall j :: 0 <= j < |rows| ==> rows[j].id != id) ==> r == rows
  {
    var i := IndexOfId(rows, id);
    if i == -1 then rows else rows[i := Apply(rows[i], p, now)]
  }

  lemma UpdatedWellFormed(rows: seq<Image>, nextId: nat, id: nat, p: Patch, now: nat)
    requires WellFormed(rows, nextId)
    ensures WellFormed(Updated(rows, id, p, now), nextId)
  {
  }

  // ---------------------------------------------------------------------
  // getStatistics
  // ---------------------------------------------------------------------

  /** Positions of the rows with download status `s`: what `filter(img => img.download_status === s)` keeps. */
  function DownloadRows(rows: seq<Image>, s: DownloadStatus): set<nat> {
    set i | 0 <= i < |rows| && rows[i].downloadStatus == s
  }

  /** Positions of the rows with process status `s`. */
  function ProcessRows(rows: seq<Image>, s: ProcessStatus): set<nat> {
    set i | 0 <= i < |rows| && rows[i].processStatus == s
  }

  /** Positions of the rows with a positive file size (`filter(size => size && size > 0)`). */
  function SizedRows(rows: seq<Image>): set<nat> {
    set i | 0 <= i < |rows| && rows[i].fileSize > 0
  }

  /** The length of the download-status filter, counted row by row. */
  function CountDownload(rows: seq<Image>, s: DownloadStatus): (n: nat)
    ensures n == |DownloadRows(rows, s)|
    ensures n <= |rows|
    decreases |rows|
  {
    if |rows| == 0 then 0
    else
      var k := |rows| - 1;
      assert DownloadRows(rows, s) == DownloadRows(rows[..k], s) + (if rows[k].downloadStatus == s then {k} else {});
      CountDownload(rows[..k], s) + (if rows[k].downloadStatus == s then 1 else 0)
  }

  /** The length of the process-status filter, counted row by row. */
  function CountProcess(rows: seq<Image>, s: ProcessStatus): (n: nat)
    ensures n == |ProcessRows(rows, s)|
    ensures n <= |rows|
    decreases |rows|
  {
    if |rows| == 0 then 0
    else
      var k := |rows| - 1;
      assert ProcessRows(rows, s) == ProcessRows(rows[..k], s) + (if rows[k].processStatus == s then {k} else {});
      CountProcess(rows[..k], s) + (if rows[k].processStatus == s then 1 else 0)
  }

  /** The number of positive file sizes, counted row by row. */
  function PositiveSizeCount(rows: seq<Image>): (n: nat)
    ensures n == |SizedRows(rows)|
    ensures n <= |rows|
    decreases |rows|
  {
    if |rows| == 0 then 0
    else
      var k := |rows| - 1;
      assert SizedRows(rows) == SizedRows(rows[..k]) + (if rows[k].fileSize > 0 then {k} else {});
      PositiveSizeCount(rows[..k]) + (if rows[k].fileSize > 0 then 1 else 0)
  }

  /** The sum of the positive file sizes. */
  function PositiveSizeSum(rows: seq<Image>): int
    decreases |rows|
  {
    if |rows| == 0 then 0
    else PositiveSizeSum(rows[..|rows| - 1]) + (if rows[|rows| - 1].fileSize > 0 then rows[|rows| - 1].fileSize else 0)
  }

  datatype Statistics = Statistics(
    totalCollected: nat,
    totalDownloaded: nat,
    totalProcessed: nat,
    downloadFailed: nat,
    processFailed: nat,
    averageFileSize: real)

  /** The sum of positive sizes is at least their count and at most count times any bound on the sizes. */
  lemma {:induction false} PositiveSizeSumBounds(rows: seq<Image>, bound: int)
    requires forall i :: 0 <= i < |rows| ==> rows[i].fileSize <= bound
    ensures PositiveSizeCount(rows) <= PositiveSizeSum(rows) <= PositiveSizeCount(rows) * bound
    decreases |rows|
  {
    if |rows| > 0 {
      var k := |rows| - 1;
      var init := rows[..k];
      assert forall i :: 0 <= i < k ==> init[i] == rows[i];
      PositiveSizeSumBounds(init, bound);
      var c := PositiveSizeCount(init);
      if rows[k].fileSize > 0 {
        assert (c + 1) * bound == c * bound + bound;
      }
    }
  }

  /** `sum / count` for a non-empty list of sizes, 0 otherwise; each size being at least 1 makes the mean at least 1. */
  function Average(sum: int, count: nat): (a: real)
    ensures count == 0 ==> a == 0.0
    ensures count > 0 ==> a * count as real == sum as real
    ensures count > 0 && sum >= count ==> a >= 1.0
  {
    if count > 0 then
      DivAtLeast(sum as real, count as real);
      assert sum as real / count as real * count as real == sum as real;
      sum as real / count as real
    else 0.0
  }

  lemma DivAtLeast(s: real, n: real)
    requires n > 0.0
    ensures s >= n ==> s / n >= 1.0
  {
    if s >= n {
      assert s / n * n == s;
    }
  }

  /** The mean of the positive file sizes: it times their count is their sum; 0 when there are none. */
  function MeanSize(rows: seq<Image>): (a: real)
    ensures PositiveSizeCount(rows) > 0 ==> a == PositiveSizeSum(rows) as real / PositiveSizeCount(rows) as real
    ensures PositiveSizeCount(rows) > 0 ==> a * PositiveSizeCount(rows) as real == PositiveSizeSum(rows) as real
    ensures a == 0.0 <==> PositiveSizeCount(rows) == 0
    ensures PositiveSizeCount(rows) > 0 ==> a >= 1.0
  {
    PositiveSizeSumAtLeastCount(rows);
    Average(PositiveSizeSum(rows), PositiveSizeCount(rows))
  }

  /**
   * `getStatistics`: the number of rows with each of the four reported
   * statuses, and the mean of the positive file sizes (0 when there are none).
   */
  function GetStatistics(rows: seq<Image>): (st: Statistics)
    ensures st.totalCollected == |rows|
    ensures st.totalDownloaded == |DownloadRows(rows, Downloaded)| && st.downloadFailed == |DownloadRows(rows, DownloadFailed)|
    ensures st.totalProcessed == |ProcessRows(rows, Processed)| && st.processFailed == |ProcessRows(rows, ProcessFailed)|
    ensures PositiveSizeCount(rows) > 0 ==> st.averageFileSize == PositiveSizeSum(rows) as real / PositiveSizeCount(rows) as real
    ensures st.totalDownloaded + st.downloadFailed <= st.totalCollected
    ensures st.totalProcessed + st.processFailed <= st.totalCollected
    ensures st.averageFileSize == 0.0 <==> PositiveSizeCount(rows) == 0
    ensures PositiveSizeCount(rows) > 0 ==> st.averageFileSize >= 1.0
  {
    DownloadCountsPartition(rows);
    ProcessCountsPartition(rows);
    Statistics(|rows|, CountDownload(rows, Downloaded), CountProcess(rows, Processed),
               CountDownload(rows, DownloadFailed), CountProcess(rows, ProcessFailed), MeanSize(rows))
  }

  /** Every counted size is at least 1, so the sum is at least the count. */
  lemma {:induction false} PositiveSizeSumAtLeastCount(rows: seq<Image>)
    ensures PositiveSizeCount(rows) <= PositiveSizeSum(rows)
    decreases |rows|
  {
    if |rows| > 0 {
      PositiveSizeSumAtLeastCount(rows[..|rows| - 1]);
    }
  }

  /** Every row has exactly one download status, so the four download counts add up to the total. */
  lemma {:induction false} DownloadCountsPartition(rows: seq<Image>)
    ensures CountDownload(rows, DownloadPending) + CountDownload(rows, Downloading) +
            CountDownload(rows, Downloaded) + CountDownload(rows, DownloadFailed) == |rows|
    decreases |rows|
  {
    if |rows| > 0 {
      DownloadCountsPartition(rows[..|rows| - 1]);
    }
  }

  /** Every row has exactly one process status, so the four process counts add up to the total. */
  lemma {:induction false} ProcessCountsPartition(rows: seq<Image>)
    ensures CountProcess(rows, ProcessPending) + CountProcess(rows, Processing) +
            CountProcess(rows, Processed) + CountProcess(rows, ProcessFailed) == |rows|
    decreases |rows|
  {
    if |rows| > 0 {
      ProcessCountsPartition(rows[..|rows| - 1]);
    }
  }

  /** The reported average never exceeds a bound that every stored size respects. */
  lemma AverageWithinBound(rows: seq<Image>, bound: int)
    requires forall i :: 0 <= i < |rows| ==> rows[i].fileSize <= bound
    ensures GetStatistics(rows).averageFileSize <= bound as real || PositiveSizeCount(rows) == 0
  {
    var n := PositiveSizeCount(rows);
    var sum := PositiveSizeSum(rows);
    PositiveSizeSumBounds(rows, bound);
    assert GetStatistics(rows).averageFileSize == Average(sum, n);
    if n > 0 {
      AverageAtMost(sum, n, bound);
    }
  }

  lemma AverageAtMost(sum: int, n: nat, b: int)
    requires n > 0 && sum <= n * b
    ensures Average(sum, n) <= b as real
  {
    var s, m, r := sum as real, n as real, b as real;
    assert (n * b) as real == m * r;
    assert s / m * m == s;
  }

  // ---------------------------------------------------------------------
  // The table itself
  // ---------------------------------------------------------------------

  /** The `images` table as the proxy exposes it: rows in insertion order plus the next auto-increment id. */
  class ImageStore {
    var rows: seq<Image>
    var nextId: nat

    ghost predicate Valid()
      reads this
    {
      WellFormed(rows, nextId)
    }

    constructor ()
      ensures Valid() && rows == [] && nextId == 1
    {
      rows := [];
      nextId := 1;
    }

    /** `proxy.images.push(image)`: fails on a duplicate url, otherwise appends with a fresh id. */
    method Push(image: Image) returns (ok: bool)
      requires Valid()
      modifies this
      ensures Valid()
      ensures ok == !UrlTaken(old(rows), image.url)
      ensures ok ==> rows == old(rows) + [image.(id := old(nextId))] && nextId == old(nextId) + 1
      ensures !ok ==> rows == old(rows) && nextId == old(nextId)
    {
      ok := !UrlTaken(rows, image.url);
      if ok {
        rows := rows + [image.(id := nextId)];
        nextId := nextId + 1;
      }
    }

    /** `insertImagesBatch`: pushes each row in order, skipping UNIQUE violations, and returns how many were stored. */
    method InsertImagesBatch(images: seq<Image>) returns (count: nat)
      requires Valid()
      modifies this
      ensures Valid()
      ensures var r := Inserted(old(rows), old(nextId), images);
              rows == r.rows && nextId == r.nextId && count == r.count
      ensures GetTotalCount() == old(GetTotalCount()) + count
    {
      count := 0;
      var k := 0;
      while k < |images|
        invariant 0 <= k <= |images|
        invariant Valid()
        invariant var r := Inserted(old(rows), old(nextId), images[..k]);
                  rows == r.rows && nextId == r.nextId && count == r.count
      {
        var ok := Push(images[k]);
        if ok {
          count := count + 1;
        }
        assert images[..k + 1][..k] == images[..k];
        k := k + 1;
      }
      assert images[..k] == images;
    }

    /** `updateImage(id, updates)` at time `now`; an unknown id changes nothing. */
    method UpdateImage(id: nat, p: Patch, now: nat)
      requires Valid()
      modifies this
      ensures Valid()
      ensures rows == Updated(old(rows), id, p, now) && nextId == old(nextId)
    {
      UpdatedWellFormed(rows, nextId, id, p, now);
      rows := Updated(rows, id, p, now);
    }

    /** `getTotalCount`: never more rows than ids handed out. */
    function GetTotalCount(): (n: nat)
      reads this
      ensures Valid() ==> n < nextId
    {
      RowsBelowNextId(rows, nextId);
      |rows|
    }
  }
}
