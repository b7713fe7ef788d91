/**
 * The two dataset preparation scripts (src/prepare-dataset-for-classification.ts
 * and src/prepare-dataset.ts). Both walk every country folder of the
 * processed-images directory and every image file in it, skip a file whose
 * content hash was already seen in any earlier folder or file, record the
 * hash, skip the file when its target already exists, and otherwise copy
 * it and count it. They differ only in where a file goes: the first keeps
 * the country folder (`dataset/<country>/<file>`), the second puts
 * everything in `dataset/other/<country>_<file>`.
 *
 * The file system is a parameter: the listing of the processed directory,
 * the MD5 hash of each readable file (a file missing from the map cannot
 * be read, and the error is caught and logged), and the set of files that
 * exist under the dataset directory, which grows as copies are made.
 */
module DatasetPrep {
  import opened Strings
  import opened Filtering

  const PrepImageExtensions: set<string> := {".jpg", ".jpeg", ".png", ".webp"}
  const OtherClass: string := "other"

  /** Which script: the per-country layout or the single `other` folder. */
  datatype Layout = ByCountry | IntoOther

  /** What the scripts read from the outside world. */
  datatype Env = Env(layout: Layout, processedDir: string, datasetDir: string, content: map<string, string>)

  /** A country folder of the processed directory and the names in it. */
  datatype Folder = Folder(name: string, names: seq<string>)

  /** An entry of the processed directory. */
  datatype DirEntry = DirEntry(name: string, isDirectory: bool, names: seq<string>)

  /** A copy made: the file it came from, where it went, and its content hash. */
  datatype Placed = Placed(country: string, file: string, source: string, target: string, hash: string)

  /**
   * The script's variables: the hash map (hash to first source path), the
   * duplicates list, the copies made, the files present under the dataset
   * directory, the two counters, the per-country statistics, and the
   * current folder's `countryImageCount`.
   */
  datatype PrepState = PrepState(
    hashes: map<string, string>,
    duplicates: seq<string>,
    copies: seq<Placed>,
    present: set<string>,
    copiedCount: nat,
    totalImages: nat,
    stats: map<string, nat>,
    countryCount: nat)

  // ---------------------------------------------------------------------
  // Paths and the file filter
  // ---------------------------------------------------------------------

  /** `path.join(path.join(PROCESSED_DIR, country), file)`: the file inside its country's folder. */
  function SourcePath(env: Env, country: string, file: string): (r: string)
    ensures StartsWith(r, JoinPath(env.processedDir, country) + "/") && EndsWith(r, file)
  {
    JoinPathParts(JoinPath(env.processedDir, country), file);
    JoinPath(JoinPath(env.processedDir, country), file)
  }

  /** Where a file goes in each layout: its country's folder, or the single `other` folder. */
  function TargetPath(env: Env, country: string, file: string): (r: string)
    ensures env.layout == ByCountry ==> StartsWith(r, JoinPath(env.datasetDir, country) + "/") && EndsWith(r, file)
    ensures env.layout == IntoOther ==> StartsWith(r, JoinPath(env.datasetDir, OtherClass) + "/")
  {
    match env.layout
    case ByCountry =>
      JoinPathParts(JoinPath(env.datasetDir, country), file);
      JoinPath(JoinPath(env.datasetDir, country), file)
    case IntoOther =>
      JoinPathParts(JoinPath(env.datasetDir, OtherClass), country + "_" + Basename(file));
      JoinPath(JoinPath(env.datasetDir, OtherClass), country + "_" + Basename(file))
  }

  /**
   * The per-country layout mirrors the source tree: same folder name, same
   * file name; the other layout puts every file in `other`, named after
   * its country and its own name.
   */
  lemma TargetMirrorsSource(env: Env, country: string, file: string)
    requires '/' !in file && '/' !in country
    ensures env.layout == ByCountry ==>
      Basename(TargetPath(env, country, file)) == Basename(SourcePath(env, country, file)) == file
    ensures env.layout == IntoOther ==>
      Basename(TargetPath(env, country, file)) == country + "_" + file &&
      StartsWith(TargetPath(env, country, file), JoinPath(env.datasetDir, OtherClass) + "/")
  {
    NoSlashBasename(file);
    BasenameAfterSlash(JoinPath(env.processedDir, country), file);
    match env.layout
    case ByCountry =>
      BasenameAfterSlash(JoinPath(env.datasetDir, country), file);
    case IntoOther =>
      var name := country + "_" + file;
      assert '/' !in name by {
        forall k | 0 <= k < |name| ensures name[k] != '/' {
          if k < |country| { assert name[k] == country[k]; }
          else if k > |country| { assert name[k] == file[k - |country| - 1]; }
        }
      }
      NoSlashBasename(name);
      BasenameAfterSlash(JoinPath(env.datasetDir, OtherClass), name);
      var dir := JoinPath(env.datasetDir, OtherClass) + "/";
      assert TargetPath(env, country, file) == dir + name;
      assert (dir + name)[..|dir|] == dir;
  }

  lemma NoSlashBasename(name: string)
    requires '/' !in name
    ensures Basename(name) == name
  {
    assert name[0..] == name;
  }

  /** A name that counts as an image: its lower-cased extension is one of the four. */
  predicate IsPrepImage(name: string) {
    HasExtension(name, PrepImageExtensions)
  }

  /** The names of a folder that count as images, in listing order. */
  function ImageFiles(names: seq<string>): (r: seq<string>)
    ensures |r| <= |names|
    ensures forall k :: 0 <= k < |r| ==> r[k] in names
    ensures forall x :: x in r <==> x in names && IsPrepImage(x)
    decreases |names|
  {
    if |names| == 0 then []
    else
      var init := names[..|names| - 1];
      var n := names[|names| - 1];
      var r0 := ImageFiles(init);
      FilterSnoc(r0, names, IsPrepImage);
      r0 + (if IsPrepImage(n) then [n] else [])
  }

  lemma {:induction false} ImageFilesAreImages(names: seq<string>)
    ensures forall k :: 0 <= k < |ImageFiles(names)| ==> HasExtension(ImageFiles(names)[k], PrepImageExtensions)
    decreases |names|
  {
    if |names| > 0 {
      ImageFilesAreImages(names[..|names| - 1]);
    }
  }

  /** Entry `k` of the listing is a directory, read as the folder `f`. */
  predicate FolderAt(listing: seq<DirEntry>, k: int, f: Folder)
    requires 0 <= k < |listing|
  {
    listing[k].isDirectory && f == Folder(listing[k].name, listing[k].names)
  }

  /** The country folders of the processed directory, in listing order: every directory and nothing else. */
  function CountryDirs(listing: seq<DirEntry>): (r: seq<Folder>)
    ensures |r| <= |listing|
    ensures forall f :: f in r <==> exists k :: 0 <= k < |listing| && FolderAt(listing, k, f)
    decreases |listing|
  {
    if |listing| == 0 then []
    else
      var init := listing[..|listing| - 1];
      var e := listing[|listing| - 1];
      var r0 := CountryDirs(init);
      var r := r0 + (if e.isDirectory then [Folder(e.name, e.names)] else []);
      assert forall f :: f in r <==> exists k :: 0 <= k < |listing| && FolderAt(listing, k, f) by {
        forall f ensures f in r <==> exists k :: 0 <= k < |listing| && FolderAt(listing, k, f) {
          if f in r0 {
            var k :| 0 <= k < |init| && FolderAt(init, k, f);
            assert FolderAt(listing, k, f);
          } else if f in r {
            assert FolderAt(listing, |init|, f);
          }
          if exists k :: 0 <= k < |listing| && FolderAt(listing, k, f) {
            var k :| 0 <= k < |listing| && FolderAt(listing, k, f);
            if k < |init| {
              assert FolderAt(init, k, f);
            }
          }
        }
      }
      r
  }

  // ---------------------------------------------------------------------
  // One file, one folder, all folders
  // ---------------------------------------------------------------------

  /** The hash map only grows: a recorded hash keeps the path it was first recorded with. */
  predicate HashesKept(before: map<string, string>, after: map<string, string>) {
    forall h :: h in before ==> h in after && after[h] == before[h]
  }

  /**
   * One file: an unreadable file changes nothing; a file whose hash is
   * known is a duplicate; otherwise its hash is recorded with its path and,
   * unless the target exists, it is copied and counted.
   */
  function Step(env: Env, st: PrepState, country: string, file: string): (r: PrepState)
    ensures HashesKept(st.hashes, r.hashes)
    ensures |st.copies| <= |r.copies| <= |st.copies| + 1 && r.copies[..|st.copies|] == st.copies
    ensures |st.duplicates| <= |r.duplicates| && r.duplicates[..|st.duplicates|] == st.duplicates
    ensures |r.copies| + |r.duplicates| <= |st.copies| + |st.duplicates| + 1
    ensures r.stats == st.stats
    ensures r.countryCount + |st.copies| == st.countryCount + |r.copies|
  {
    var source := SourcePath(env, country, file);
    if source !in env.content then st
    else
      var h := env.content[source];
      if h in st.hashes then st.(duplicates := st.duplicates + [source])
      else
        var target := TargetPath(env, country, file);
        var st1 := st.(hashes := st.hashes[h := source]);
        if target in st.present then st1
        else st1.(present := st.present + {target},
                  copies := st.copies + [Placed(country, file, source, target, h)],
                  copiedCount := st.copiedCount + 1,
                  totalImages := st.totalImages + 1,
                  countryCount := st.countryCount + 1)
  }

  /** The inner loop over one folder's image files. */
  function Pass(env: Env, st: PrepState, country: string, files: seq<string>): (r: PrepState)
    ensures HashesKept(st.hashes, r.hashes)
    ensures |st.copies| <= |r.copies| && r.copies[..|st.copies|] == st.copies
    ensures |st.duplicates| <= |r.duplicates| && r.duplicates[..|st.duplicates|] == st.duplicates
    ensures |r.copies| + |r.duplicates| <= |st.copies| + |st.duplicates| + |files|
    ensures r.stats == st.stats
    ensures r.countryCount + |st.copies| == st.countryCount + |r.copies|
    decreases |files|
  {
    if |files| == 0 then st
    else
      var s := Pass(env, st, country, files[..|files| - 1]);
      var r := Step(env, s, country, files[|files| - 1]);
      assert r.copies[..|st.copies|] == s.copies[..|st.copies|];
      assert r.duplicates[..|st.duplicates|] == s.duplicates[..|st.duplicates|];
      r
  }

  /**
   * One folder: skipped when it has no image file, otherwise its files,
   * counted from zero, and then its statistics entry.
   */
  function FolderStep(env: Env, st: PrepState, f: Folder): (r: PrepState)
    ensures HashesKept(st.hashes, r.hashes)
    ensures |st.copies| <= |r.copies| && r.copies[..|st.copies|] == st.copies
  {
    var files := ImageFiles(f.names);
    if |files| == 0 then st
    else
      var s := Pass(env, st.(countryCount := 0), f.name, files);
      s.(stats := s.stats[f.name := s.countryCount])
  }

  /** The outer loop over the country folders. */
  function Prep(env: Env, st: PrepState, folders: seq<Folder>): (r: PrepState)
    ensures HashesKept(st.hashes, r.hashes)
    ensures |st.copies| <= |r.copies| && r.copies[..|st.copies|] == st.copies
    decreases |folders|
  {
    if |folders| == 0 then st
    else
      var s := Prep(env, st, folders[..|folders| - 1]);
      var r := FolderStep(env, s, folders[|folders| - 1]);
      assert r.copies[..|st.copies|] == s.copies[..|st.copies|];
      r
  }

  // ---------------------------------------------------------------------
  // What the run keeps true
  // ---------------------------------------------------------------------

  /**
   * The run's invariant: both counters equal the number of copies; no two
   * copies share a content hash; each copy's hash is recorded with that
   * copy's own source path; each copy is an image file, placed at its
   * layout's target, which is now present.
   */
  ghost predicate Consistent(env: Env, st: PrepState) {
    st.copiedCount == |st.copies| && st.totalImages == |st.copies| &&
    DistinctHashes(st.copies) && CopiesRecorded(env, st.hashes, st.present, st.copies)
  }

  ghost predicate DistinctHashes(copies: seq<Placed>) {
    forall i, j :: 0 <= i < j < |copies| ==> copies[i].hash != copies[j].hash
  }

  ghost predicate CopiesRecorded(env: Env, hashes: map<string, string>, present: set<string>, copies: seq<Placed>) {
    forall i :: 0 <= i < |copies| ==> CopyRecorded(env, hashes, present, copies[i])
  }

  ghost predicate CopyRecorded(env: Env, hashes: map<string, string>, present: set<string>, c: Placed) {
    c.hash in hashes && hashes[c.hash] == c.source &&
    c.source == SourcePath(env, c.country, c.file) && c.source in env.content && env.content[c.source] == c.hash &&
    c.target == TargetPath(env, c.country, c.file) && c.target in present &&
    HasExtension(c.file, PrepImageExtensions)
  }

  /** The state the scripts start from: nothing recorded, with the dataset directory as it is. */
  function Initial(present: set<string>): (st: PrepState)
    ensures forall env :: Consistent(env, st)
  {
    PrepState(map[], [], [], present, 0, 0, map[], 0)
  }

  /** Recorded copies stay recorded when hashes are only added and files only appear. */
  lemma CopiesRecordedKept(env: Env, h1: map<string, string>, p1: set<string>, h2: map<string, string>, p2: set<string>, copies: seq<Placed>)
    requires CopiesRecorded(env, h1, p1, copies) && HashesKept(h1, h2) && p1 <= p2
    ensures CopiesRecorded(env, h2, p2, copies)
  {
    forall i | 0 <= i < |copies| ensures CopyRecorded(env, h2, p2, copies[i]) {
      assert CopyRecorded(env, h1, p1, copies[i]);
    }
  }

  /** A copy with a hash not recorded before keeps the hashes distinct. */
  lemma DistinctHashesSnoc(env: Env, hashes: map<string, string>, present: set<string>, copies: seq<Placed>, c: Placed)
    requires DistinctHashes(copies) && CopiesRecorded(env, hashes, present, copies) && c.hash !in hashes
    ensures DistinctHashes(copies + [c])
  {
    var r := copies + [c];
    forall i, j | 0 <= i < j < |r| ensures r[i].hash != r[j].hash {
      assert r[i] == copies[i];
      if j == |copies| {
        assert CopyRecorded(env, hashes, present, copies[i]);
      } else {
        assert r[j] == copies[j];
      }
    }
  }

  lemma CopiesRecordedSnoc(env: Env, hashes: map<string, string>, present: set<string>, copies: seq<Placed>, c: Placed)
    requires CopiesRecorded(env, hashes, present, copies) && CopyRecorded(env, hashes, present, c)
    ensures CopiesRecorded(env, hashes, present, copies + [c])
  {
    var r := copies + [c];
    forall i | 0 <= i < |r| ensures CopyRecorded(env, hashes, present, r[i]) {
      if i < |copies| {
        assert r[i] == copies[i];
      }
    }
  }

  lemma StepConsistent(env: Env, st: PrepState, country: string, file: string)
    requires Consistent(env, st) && HasExtension(file, PrepImageExtensions)
    ensures Consistent(env, Step(env, st, country, file))
  {
    var source := SourcePath(env, country, file);
    if source in env.content {
      var h := env.content[source];
      if h !in st.hashes {
        var target := TargetPath(env, country, file);
        var hashes := st.hashes[h := source];
        var present := st.present + {target};
        if target in st.present {
          CopiesRecordedKept(env, st.hashes, st.present, hashes, st.present, st.copies);
        } else {
          var c := Placed(country, file, source, target, h);
          CopiesRecordedKept(env, st.hashes, st.present, hashes, present, st.copies);
          DistinctHashesSnoc(env, st.hashes, st.present, st.copies, c);
          CopiesRecordedSnoc(env, hashes, present, st.copies, c);
        }
      }
    }
  }

  lemma {:induction false} PassConsistent(env: Env, st: PrepState, country: string, files: seq<string>)
    requires Consistent(env, st)
    requires forall k :: 0 <= k < |files| ==> HasExtension(files[k], PrepImageExtensions)
    ensures Consistent(env, Pass(env, st, country, files))
    decreases |files|
  {
    if |files| > 0 {
      PassConsistent(env, st, country, files[..|files| - 1]);
      StepConsistent(env, Pass(env, st, country, files[..|files| - 1]), country, files[|files| - 1]);
    }
  }

  /**
   * Over a whole run, across every country folder, no content is copied
   * twice, each copy is the file first recorded for its hash, both counters
   * equal the number of copies, and every copy is an image file at its
   * layout's target.
   */
  lemma {:induction false} PrepConsistent(env: Env, st: PrepState, folders: seq<Folder>)
    requires Consistent(env, st)
    ensures Consistent(env, Prep(env, st, folders))
    decreases |folders|
  {
    if |folders| > 0 {
      PrepConsistent(env, st, folders[..|folders| - 1]);
      var s := Prep(env, st, folders[..|folders| - 1]);
      var f := folders[|folders| - 1];
      var files := ImageFiles(f.names);
      if |files| > 0 {
        ImageFilesAreImages(f.names);
        PassConsistent(env, s.(countryCount := 0), f.name, files);
      }
    }
  }

  /**
   * What one file does, spelled out: a readable file whose hash is already
   * recorded is a duplicate and changes nothing else; a readable file with
   * a new hash has its hash recorded even when its target exists, and is
   * copied exactly when the target is absent.
   */
  lemma StepOutcome(env: Env, st: PrepState, country: string, file: string)
    requires SourcePath(env, country, file) in env.content
    ensures var source := SourcePath(env, country, file);
      var h := env.content[source];
      var r := Step(env, st, country, file);
      (h in st.hashes ==> r == st.(duplicates := st.duplicates + [source])) &&
      (h !in st.hashes ==>
         r.hashes == st.hashes[h := source] && r.duplicates == st.duplicates &&
         (|r.copies| == |st.copies| + 1 <==> TargetPath(env, country, file) !in st.present))
  {
  }

  /** Scanned files are either copied, reported as duplicates, or skipped: the first two never exceed the files scanned. */
  lemma CopiedPlusDuplicatesBound(env: Env, st: PrepState, f: Folder)
    ensures var r := FolderStep(env, st, f);
      |r.copies| + |r.duplicates| <= |st.copies| + |st.duplicates| + |ImageFiles(f.names)|
  {
  }

  // ---------------------------------------------------------------------
  // Statistics
  // ---------------------------------------------------------------------

  /** The folders that have image files: the ones that get a statistics entry. */
  function Counted(folders: seq<Folder>): (r: seq<string>)
    decreases |folders|
  {
    if |folders| == 0 then []
    else
      var f := folders[|folders| - 1];
      Counted(folders[..|folders| - 1]) + (if |ImageFiles(f.names)| > 0 then [f.name] else [])
  }

  function SumStats(names: seq<string>, stats: map<string, nat>): nat
    decreases |names|
  {
    if |names| == 0 then 0
    else SumStats(names[..|names| - 1], stats) + (if names[|names| - 1] in stats then stats[names[|names| - 1]] else 0)
  }

  lemma {:induction false} SumStatsUnchanged(names: seq<string>, stats: map<string, nat>, n: string, v: nat)
    requires n !in names
    ensures SumStats(names, stats[n := v]) == SumStats(names, stats)
    decreases |names|
  {
    if |names| > 0 {
      assert names[|names| - 1] in names;
      assert forall x :: x in names[..|names| - 1] ==> x in names;
      SumStatsUnchanged(names[..|names| - 1], stats, n, v);
    }
  }

  lemma {:induction false} CountedNames(folders: seq<Folder>, n: string)
    requires n in Counted(folders)
    ensures exists k :: 0 <= k < |folders| && folders[k].name == n
    decreases |folders|
  {
    var init := folders[..|folders| - 1];
    if n in Counted(init) {
      CountedNames(init, n);
      var k :| 0 <= k < |init| && init[k].name == n;
      assert folders[k] == init[k];
    } else {
      assert folders[|folders| - 1].name == n;
    }
  }

  lemma PrepSnoc(env: Env, st: PrepState, folders: seq<Folder>, n: nat)
    requires n < |folders|
    ensures Prep(env, st, folders[..n + 1]) == FolderStep(env, Prep(env, st, folders[..n]), folders[n])
  {
    assert folders[..n + 1][..n] == folders[..n];
  }

  lemma CountedSnoc(folders: seq<Folder>, f: Folder)
    ensures Counted(folders + [f]) == Counted(folders) + (if |ImageFiles(f.names)| > 0 then [f.name] else [])
  {
    assert (folders + [f])[..|folders|] == folders;
  }

  /** A folder with image files adds its own count to the sum, which no earlier entry shares. */
  lemma StatsStep(env: Env, s: PrepState, names: seq<string>, f: Folder)
    requires f.name !in names
    ensures var r := FolderStep(env, s, f);
      SumStats(names + (if |ImageFiles(f.names)| > 0 then [f.name] else []), r.stats) ==
      SumStats(names, s.stats) + (|r.copies| - |s.copies|)
  {
    var files := ImageFiles(f.names);
    if |files| > 0 {
      var p := Pass(env, s.(countryCount := 0), f.name, files);
      SumStatsUnchanged(names, s.stats, f.name, p.countryCount);
      assert (names + [f.name])[..|names|] == names;
    } else {
      assert names + [] == names;
    }
  }

  /**
   * Country folders never share a name, so the per-country counts add up
   * to the number of copies the run made.
   */
  lemma {:induction false} StatsSumToCopies(env: Env, st: PrepState, folders: seq<Folder>)
    requires forall i, j :: 0 <= i < j < |folders| ==> folders[i].name != folders[j].name
    ensures SumStats(Counted(folders), Prep(env, st, folders).stats) == |Prep(env, st, folders).copies| - |st.copies|
    decreases |folders|
  {
    if |folders| > 0 {
      var n := |folders| - 1;
      var init := folders[..n];
      var f := folders[n];
      StatsSumToCopies(env, st, init);
      if f.name in Counted(init) {
        CountedNames(init, f.name);
        assert false;
      }
      StatsStep(env, Prep(env, st, init), Counted(init), f);
      CountedSnoc(init, f);
      assert init + [f] == folders;
    }
  }

  // ---------------------------------------------------------------------
  // The scripts
  // ---------------------------------------------------------------------

  /** The inner loop over one folder's image files. */
  method PassFiles(env: Env, st0: PrepState, country: string, files: seq<string>) returns (st: PrepState)
    ensures st == Pass(env, st0, country, files)
  {
    st := st0;
    var k := 0;
    while k < |files|
      invariant 0 <= k <= |files|
      invariant st == Pass(env, st0, country, files[..k])
    {
      assert files[..k + 1][..k] == files[..k];
      var source := SourcePath(env, country, files[k]);
      if source in env.content {
        var h := env.content[source];
        if h in st.hashes {
          st := st.(duplicates := st.duplicates + [source]);
        } else {
          st := st.(hashes := st.hashes[h := source]);
          var target := TargetPath(env, country, files[k]);
          if target !in st.present {
            st := st.(present := st.present + {target},
                      copies := st.copies + [Placed(country, files[k], source, target, h)],
                      copiedCount := st.copiedCount + 1,
                      totalImages := st.totalImages + 1,
                      countryCount := st.countryCount + 1);
          }
        }
      }
      k := k + 1;
    }
    assert files[..k] == files;
  }

  /** One folder: its files, then `stats[country] = countryImageCount`; a folder without image files is skipped. */
  method PrepFolder(env: Env, st0: PrepState, f: Folder) returns (st: PrepState)
    ensures st == FolderStep(env, st0, f)
  {
    st := st0;
    var files := ImageFiles(f.names);
    if |files| > 0 {
      var next := PassFiles(env, st0.(countryCount := 0), f.name, files);
      st := next.(stats := next.stats[f.name := next.countryCount]);
    }
  }

  /** The outer loop over the country folders. */
  method PrepFolders(env: Env, st0: PrepState, folders: seq<Folder>) returns (st: PrepState)
    ensures st == Prep(env, st0, folders)
  {
    st := st0;
    var i := 0;
    while i < |folders|
      invariant 0 <= i <= |folders|
      invariant st == Prep(env, st0, folders[..i])
    {
      PrepSnoc(env, st0, folders, i);
      st := PrepFolder(env, st, folders[i]);
      i := i + 1;
    }
    assert folders[..i] == folders;
  }

  /** How a script ends: `exit(1)` without a processed directory, `exit(0)` without a country folder, or its report. */
  datatype PrepOutcome =
    | ProcessedMissing
    | NoCountryDirs
    | Prepared(copiedCount: nat, duplicates: seq<string>, stats: map<string, nat>, copies: seq<Placed>, present: set<string>)

  /**
   * `prepareDatasetForClassification` (layout `ByCountry`) and
   * `prepareDataset` (layout `IntoOther`).
   */
  method PrepareDataset(env: Env, processedExists: bool, listing: seq<DirEntry>, present: set<string>) returns (out: PrepOutcome)
    ensures !processedExists ==> out == ProcessedMissing
    ensures processedExists && |CountryDirs(listing)| == 0 ==> out == NoCountryDirs
    ensures processedExists && |CountryDirs(listing)| > 0 ==>
      var r := Prep(env, Initial(present), CountryDirs(listing));
      out == Prepared(r.copiedCount, r.duplicates, r.stats, r.copies, r.present)
  {
    if !processedExists {
      return ProcessedMissing;
    }
    var folders := CountryDirs(listing);
    if |folders| == 0 {
      return NoCountryDirs;
    }
    var r := PrepFolders(env, Initial(present), folders);
    out := Prepared(r.copiedCount, r.duplicates, r.stats, r.copies, r.present);
  }

  /**
   * A completed run copies no content twice, across all country folders;
   * reports as many copies as it made; and, when the country folders have
   * distinct names, its per-country counts add up to that number.
   */
  lemma PreparedReport(env: Env, listing: seq<DirEntry>, present: set<string>)
    requires forall i, j :: 0 <= i < j < |CountryDirs(listing)| ==> CountryDirs(listing)[i].name != CountryDirs(listing)[j].name
    ensures var r := Prep(env, Initial(present), CountryDirs(listing));
      r.copiedCount == r.totalImages == |r.copies| &&
      (forall i, j :: 0 <= i < j < |r.copies| ==> r.copies[i].hash != r.copies[j].hash) &&
      SumStats(Counted(CountryDirs(listing)), r.stats) == r.copiedCount
  {
    PrepConsistent(env, Initial(present), CountryDirs(listing));
    StatsSumToCopies(env, Initial(present), CountryDirs(listing));
  }
}
