/**
 * Post-processing around the image classifier (src/classifier.ts): ranking
 * a probability vector into the top-K predictions, classifying paths in
 * consecutive batches with per-item error capture, the byte offsets of the
 * weight buffers, and the module-level model and class-name caches. The
 * network itself, image decoding and tensor arithmetic are not modelled:
 * a classification is an outcome supplied by the caller.
 */
module Classifier {
  import opened Wrappers
  import opened Records

  /** One prediction; the class name is absent when the probability vector is longer than the class-name list. */
  datatype Prediction = Prediction(name: Option<string>, confidence: real)

  // ---------------------------------------------------------------------
  // Ranking in classifyImage
  // ---------------------------------------------------------------------

  /** Pairs probability `i` with `classNames[i]`. */
  function Paired(probabilities: seq<real>, classNames: seq<string>): (r: seq<Prediction>)
    ensures |r| == |probabilities|
    ensures forall i :: 0 <= i < |r| ==>
              (r[i].confidence == probabilities[i] && r[i].name == (if i < |classNames| then Some(classNames[i]) else None))
  {
    seq(|probabilities|, i requires 0 <= i < |probabilities| =>
      Prediction(if i < |classNames| then Some(classNames[i]) else None, probabilities[i]))
  }

  predicate SortedByConfidence(s: seq<Prediction>) {
    forall i, j :: 0 <= i < j < |s| ==> s[j].confidence <= s[i].confidence
  }

  /** Inserts `x` after every element of at least its confidence (the stable sort's placement). */
  function InsertByConfidence(s: seq<Prediction>, x: Prediction): (r: seq<Prediction>)
    ensures multiset(r) == multiset(s) + multiset{x}
    ensures |r| == |s| + 1
    decreases |s|
  {
    if |s| == 0 then [x]
    else if x.confidence > s[0].confidence then [x] + s
    else
      assert s == [s[0]] + s[1..];
      [s[0]] + InsertByConfidence(s[1..], x)
  }

  lemma {:induction false} InsertByConfidenceSorted(s: seq<Prediction>, x: Prediction)
    requires SortedByConfidence(s)
    ensures SortedByConfidence(InsertByConfidence(s, x))
    decreases |s|
  {
    if |s| > 0 && x.confidence <= s[0].confidence {
      var tail := InsertByConfidence(s[1..], x);
      InsertByConfidenceSorted(s[1..], x);
      var r := [s[0]] + tail;
      assert tail[0] == x || tail[0] == s[1];
      forall i, j | 0 <= i < j < |r| ensures r[j].confidence <= r[i].confidence {
        if i == 0 {
          assert r[j] == tail[j - 1] && tail[j - 1].confidence <= tail[0].confidence;
        } else {
          assert r[i] == tail[i - 1] && r[j] == tail[j - 1];
        }
      }
    }
  }

  /** `sort((a, b) => b.confidence - a.confidence)`: descending confidence, a permutation of the input. */
  function SortByConfidence(s: seq<Prediction>): (r: seq<Prediction>)
    ensures SortedByConfidence(r) && multiset(r) == multiset(s) && |r| == |s|
    decreases |s|
  {
    if |s| == 0 then []
    else
      var init := s[..|s| - 1];
      assert s == init + [s[|s| - 1]];
      InsertByConfidenceSorted(SortByConfidence(init), s[|s| - 1]);
      InsertByConfidence(SortByConfidence(init), s[|s| - 1])
  }

  /**
   * The ranking of `classifyImage`: the `slice(0, topK)` prefix of the
   * paired predictions sorted by confidence, descending. For `topK >= 0`
   * it keeps `min(topK, n)` entries, and no dropped prediction is more
   * confident than a kept one.
   */
  function RankPredictions(probabilities: seq<real>, classNames: seq<string>, topK: int): (r: seq<Prediction>)
    ensures |r| == SliceEnd(|probabilities|, topK)
    ensures topK >= 0 ==> |r| == if topK < |probabilities| then topK else |probabilities|
    ensures SortedByConfidence(r)
    ensures forall p :: p in r ==> p in Paired(probabilities, classNames)
    ensures var all := SortByConfidence(Paired(probabilities, classNames));
            r == all[..|r|] &&
            forall i, j :: 0 <= i < |r| <= j < |all| ==> all[j].confidence <= r[i].confidence
  {
    var all := SortByConfidence(Paired(probabilities, classNames));
    PrefixOfPermutation(all, Paired(probabilities, classNames), SliceEnd(|all|, topK));
    all[..SliceEnd(|all|, topK)]
  }

  lemma PrefixOfPermutation(all: seq<Prediction>, s: seq<Prediction>, n: nat)
    requires multiset(all) == multiset(s) && n <= |all|
    ensures forall p :: p in all[..n] ==> p in s
  {
    forall p | p in all[..n] ensures p in s {
      assert p in all;
      assert p in multiset(all);
    }
  }

  /** Every probability survives ranking with an unlimited `topK`: nothing is lost or invented. */
  lemma RankingKeepsEveryPrediction(probabilities: seq<real>, classNames: seq<string>)
    ensures multiset(RankPredictions(probabilities, classNames, |probabilities|)) == multiset(Paired(probabilities, classNames))
  {
    var all := SortByConfidence(Paired(probabilities, classNames));
    assert all[..|all|] == all;
  }

  // ---------------------------------------------------------------------
  // classifyImagesBatch
  // ---------------------------------------------------------------------

  /** One entry of the batch result: the path, its predictions, and the error text when classification threw. */
  datatype BatchResult = BatchResult(path: string, predictions: seq<Prediction>, error: Option<string>)

  /** The entry for one path: the predictions on success, `[]` and the error message on failure. */
  function ItemResult(path: string, outcome: Result<seq<Prediction>, string>): (r: BatchResult)
    ensures r.path == path
    ensures outcome.Ok? <==> r.error.None?
    ensures outcome.Err? ==> r.predictions == [] && r.error == Some(outcome.error)
    ensures outcome.Ok? ==> r.predictions == outcome.value
  {
    match outcome
    case Ok(predictions) => BatchResult(path, predictions, None)
    case Err(message) => BatchResult(path, [], Some(message))
  }

  /** The results of classifying every path with `topK`, one per path in input order. */
  function BatchResults(paths: seq<string>, topK: int, classify: (string, int) -> Result<seq<Prediction>, string>): (r: seq<BatchResult>)
    ensures |r| == |paths|
    ensures forall k :: 0 <= k < |paths| ==> r[k].path == paths[k]
    ensures forall k :: 0 <= k < |paths| ==> (r[k].error.Some? <==> classify(paths[k], topK).Err?)
  {
    var r := seq(|paths|, k requires 0 <= k < |paths| => ItemResult(paths[k], classify(paths[k], topK)));
    assert forall k :: 0 <= k < |paths| ==> r[k] == ItemResult(paths[k], classify(paths[k], topK));
    r
  }

  /**
   * `classifyImagesBatch`: classifies consecutive slices of `batchSize`
   * paths; the results are one per path, in input order, each depending
   * only on its own path's outcome, so one failure does not touch the
   * others. A `batchSize` below 1 would never advance the loop, so it is
   * excluded.
   */
  method ClassifyImagesBatch(paths: seq<string>, topK: int, batchSize: int,
                             classify: (string, int) -> Result<seq<Prediction>, string>)
    returns (results: seq<BatchResult>)
    requires batchSize >= 1
    ensures results == BatchResults(paths, topK, classify)
    ensures forall k :: 0 <= k < |paths| ==> results[k] == ItemResult(paths[k], classify(paths[k], topK))
  {
    results := [];
    var i := 0;
    while i < |paths|
      invariant 0 <= i <= |paths|
      invariant |results| == i
      invariant forall k :: 0 <= k < i ==> results[k] == ItemResult(paths[k], classify(paths[k], topK))
    {
      var end := if i + batchSize < |paths| then i + batchSize else |paths|;
      var batch := paths[i..end];
      var batchResults := [];
      var j := 0;
      while j < |batch|
        invariant 0 <= j <= |batch|
        invariant |batchResults| == j
        invariant forall k :: 0 <= k < j ==> batchResults[k] == ItemResult(batch[k], classify(batch[k], topK))
      {
        batchResults := batchResults + [ItemResult(batch[j], classify(batch[j], topK))];
        j := j + 1;
      }
      results := results + batchResults;
      i := end;
    }
  }

  // ---------------------------------------------------------------------
  // Weight offsets in loadModelManually
  // ---------------------------------------------------------------------

  /** The manifest shape with `null` dimensions dropped. */
  function ValidShape(shape: seq<Option<int>>): (r: seq<int>)
    ensures |r| == |shape| - multiset(shape)[None]
    ensures forall d :: multiset(r)[d] == multiset(shape)[Some(d)]
    ensures forall d :: d in r <==> Some(d) in shape
    decreases |shape|
  {
    if |shape| == 0 then []
    else
      var init := shape[..|shape| - 1];
      assert shape == init + [shape[|shape| - 1]];
      assert multiset(shape) == multiset(init) + multiset{shape[|shape| - 1]};
      match shape[|shape| - 1]
      case None => ValidShape(init)
      case Some(d) =>
        assert multiset(ValidShape(init) + [d]) == multiset(ValidShape(init)) + multiset{d};
        ValidShape(init) + [d]
  }

  /** `reduce((a, b) => a * b, 1)`. */
  function Product(dims: seq<int>): int
    decreases |dims|
  {
    if |dims| == 0 then 1 else Product(dims[..|dims| - 1]) * dims[|dims| - 1]
  }

  /** The product is zero exactly when some dimension is zero. */
  lemma {:induction false} ProductZero(dims: seq<int>)
    ensures Product(dims) == 0 <==> 0 in dims
    decreases |dims|
  {
    if |dims| > 0 {
      var init := dims[..|dims| - 1];
      assert dims == init + [dims[|dims| - 1]];
      ProductZero(init);
    }
  }

  /** Bytes of one float32 weight tensor. */
  function WeightBytes(shape: seq<Option<int>>): int {
    Product(ValidShape(shape)) * 4
  }

  /** A tensor takes no bytes exactly when one of its given dimensions is zero. */
  lemma WeightBytesZero(shape: seq<Option<int>>)
    ensures WeightBytes(shape) == 0 <==> Some(0) in shape
  {
    ProductZero(ValidShape(shape));
  }

  /** Total bytes of the first tensors. */
  function TotalBytes(shapes: seq<seq<Option<int>>>): int
    decreases |shapes|
  {
    if |shapes| == 0 then 0 else TotalBytes(shapes[..|shapes| - 1]) + WeightBytes(shapes[|shapes| - 1])
  }

  /** The total is a whole number of float32 values, so every offset is aligned for `Float32Array`. */
  lemma {:induction false} TotalBytesAligned(shapes: seq<seq<Option<int>>>)
    ensures TotalBytes(shapes) % 4 == 0
    decreases |shapes|
  {
    if |shapes| > 0 {
      var n := |shapes| - 1;
      TotalBytesAligned(shapes[..n]);
      var before := TotalBytes(shapes[..n]);
      var p := Product(ValidShape(shapes[n]));
      assert before == 4 * (before / 4);
      assert TotalBytes(shapes) == 4 * (before / 4 + p);
    }
  }

  /**
   * The offset loop: tensor `k` starts at the total size of the tensors
   * before it, and `totalSize` is the size of all of them.
   */
  method WeightOffsets(shapes: seq<seq<Option<int>>>) returns (offsets: seq<int>, totalSize: int)
    ensures |offsets| == |shapes|
    ensures forall k :: 0 <= k < |shapes| ==> offsets[k] == TotalBytes(shapes[..k])
    ensures totalSize == TotalBytes(shapes)
  {
    totalSize := 0;
    offsets := [];
    var i := 0;
    while i < |shapes|
      invariant 0 <= i <= |shapes|
      invariant |offsets| == i
      invariant forall k :: 0 <= k < i ==> offsets[k] == TotalBytes(shapes[..k])
      invariant totalSize == TotalBytes(shapes[..i])
    {
      offsets := offsets + [totalSize];
      totalSize := totalSize + WeightBytes(shapes[i]);
      assert shapes[..i + 1][..i] == shapes[..i];
      i := i + 1;
    }
    assert shapes[..i] == shapes;
  }

  /** Offsets chain: the first is 0 and each next one adds the previous tensor's bytes. */
  lemma OffsetsChain(shapes: seq<seq<Option<int>>>, k: nat)
    requires k < |shapes|
    ensures TotalBytes(shapes[..0]) == 0
    ensures TotalBytes(shapes[..k + 1]) == TotalBytes(shapes[..k]) + WeightBytes(shapes[k])
  {
    assert shapes[..k + 1][..k] == shapes[..k];
  }

  /** No dimension of the shape is negative (`null` ones aside). */
  predicate NonNegativeDims(shape: seq<Option<int>>) {
    forall i :: 0 <= i < |shape| && shape[i].Some? ==> shape[i].value >= 0
  }

  predicate NonNegativeShapes(shapes: seq<seq<Option<int>>>) {
    forall k :: 0 <= k < |shapes| ==> NonNegativeDims(shapes[k])
  }

  lemma {:induction false} ProductNonNegative(dims: seq<int>)
    requires forall i :: 0 <= i < |dims| ==> dims[i] >= 0
    ensures Product(dims) >= 0
    decreases |dims|
  {
    if |dims| > 0 {
      var init := dims[..|dims| - 1];
      ProductNonNegative(init);
      assert Product(init) >= 0 && dims[|dims| - 1] >= 0;
    }
  }

  lemma WeightBytesNonNegative(shape: seq<Option<int>>)
    requires NonNegativeDims(shape)
    ensures WeightBytes(shape) >= 0
  {
    var dims := ValidShape(shape);
    forall i | 0 <= i < |dims| ensures dims[i] >= 0 {
      assert dims[i] in dims;
      assert Some(dims[i]) in shape;
    }
    ProductNonNegative(dims);
  }

  lemma {:induction false} NonNegativeTotal(shapes: seq<seq<Option<int>>>)
    requires NonNegativeShapes(shapes)
    ensures TotalBytes(shapes) >= 0
    decreases |shapes|
  {
    if |shapes| > 0 {
      NonNegativeTotal(shapes[..|shapes| - 1]);
      WeightBytesNonNegative(shapes[|shapes| - 1]);
    }
  }

  /**
   * With non-negative dimensions the tensors are laid out back to back
   * inside the buffer: every offset lies between 0 and `totalSize`, and
   * offsets never decrease.
   */
  lemma {:induction false} TensorsFitBuffer(shapes: seq<seq<Option<int>>>, k: nat)
    requires NonNegativeShapes(shapes)
    requires k <= |shapes|
    ensures 0 <= TotalBytes(shapes[..k]) <= TotalBytes(shapes)
    decreases |shapes| - k
  {
    if k < |shapes| {
      TensorsFitBuffer(shapes, k + 1);
      OffsetsChain(shapes, k);
      WeightBytesNonNegative(shapes[k]);
      NonNegativeTotal(shapes[..k]);
    } else {
      assert shapes[..k] == shapes;
      NonNegativeTotal(shapes);
    }
  }

  // ---------------------------------------------------------------------
  // Model and class-name caches
  // ---------------------------------------------------------------------

  /** A loaded model, known only by identity. */
  datatype ModelHandle = ModelHandle(id: nat)

  /** The module-level `cachedModel` and `cachedClassNames`. */
  class ModelCache {
    var cachedModel: Option<ModelHandle>
    var cachedClassNames: Option<seq<string>>

    constructor ()
      ensures cachedModel == None && cachedClassNames == None
    {
      cachedModel, cachedClassNames := None, None;
    }

    /**
     * `loadClassNames`: the cached list when there is one, without reading
     * the file; otherwise the result of reading it (`read`), which on
     * success becomes the cache.
     */
    method LoadClassNames(read: Result<seq<string>, string>) returns (r: Result<seq<string>, string>)
      modifies this
      ensures cachedModel == old(cachedModel)
      ensures old(cachedClassNames).Some? ==> r == Ok(old(cachedClassNames).value) && cachedClassNames == old(cachedClassNames)
      ensures old(cachedClassNames).None? ==> r == read && cachedClassNames == (if read.Ok? then Some(read.value) else None)
      ensures r.Ok? ==> cachedClassNames == Some(r.value)
    {
      if cachedClassNames.Some? {
        r := Ok(cachedClassNames.value);
      } else {
        r := read;
        if read.Ok? {
          cachedClassNames := Some(read.value);
        }
      }
    }

    /** `loadClassifierModel`: the cached model when there is one; otherwise the load result, cached on success. */
    method LoadClassifierModel(load: Result<ModelHandle, string>) returns (r: Result<ModelHandle, string>)
      modifies this
      ensures cachedClassNames == old(cachedClassNames)
      ensures old(cachedModel).Some? ==> r == Ok(old(cachedModel).value) && cachedModel == old(cachedModel)
      ensures old(cachedModel).None? ==> r == load && cachedModel == (if load.Ok? then Some(load.value) else None)
    {
      if cachedModel.Some? {
        r := Ok(cachedModel.value);
      } else {
        r := load;
        if load.Ok? {
          cachedModel := Some(load.value);
        }
      }
    }

    /** `clearModelCache`: both caches back to null. */
    method ClearModelCache()
      modifies this
      ensures cachedModel == None && cachedClassNames == None
    {
      cachedModel, cachedClassNames := None, None;
    }
  }

  /** After a successful first load, later loads return the same names whatever the file now says. */
  method LoadTwice(cache: ModelCache, first: Result<seq<string>, string>, second: Result<seq<string>, string>)
    returns (a: Result<seq<string>, string>, b: Result<seq<string>, string>)
    modifies cache
    ensures a.Ok? ==> b == a
    ensures old(cache.cachedClassNames).None? ==> a == first
  {
    a := cache.LoadClassNames(first);
    b := cache.LoadClassNames(second);
  }
}
