/**
 * The registry that chooses a weights file for a board size: a table of the
 * best model per size key `"{n}x{n}"`, a list of fallback files per size,
 * and, as a last resort, the file of the size directory whose name carries
 * the highest episode number. The filesystem is a parameter: the paths that
 * exist, in the order a directory listing returns them.
 */
module ModelConfig {
  import opened Wrappers
  import opened Sequences
  import opened Text

  /** The existing paths, in listing order: `os.path.exists` is membership and `glob` keeps this order. */
  datatype FileSystem = FileSystem(files: seq<string>)

  /** The fixed descriptions of the initial table, and the one `update_best_model` writes. */
  datatype Description = Champion | InDevelopment | ValidatedAt(winRate: real)

  /** One entry of `BEST_MODELS`. */
  datatype BestModel = BestModel(
    modelFile: Option<string>,
    winRate: Option<real>,
    trainingRange: string,
    validation: string,
    avgMoves: Option<int>,
    startingPosition: (int, int),
    description: Description)

  /** What `get_model_info` returns: an unsupported size, or the entry extended with the lookup's outcome. */
  datatype ModelInfo =
    | Unsupported(size: string)
    | Info(entry: BestModel, size: string, modelPath: Option<string>, available: bool, isFallback: bool)

  /** Python's truth value of an optional string: `None` and `""` are false. */
  predicate Truthy(s: Option<string>)
  {
    s.Some? && s.value != ""
  }

  /** `get_board_size_key`. */
  function SizeKey(n: nat): string
  {
    NatToString(n) + "x" + NatToString(n)
  }

  /** `int(size_key.split('x')[0])` recovers the size from its key, so different sizes have different keys. */
  lemma SizeKeyReadsBack(n: nat)
    ensures ParseNat(FirstField(SizeKey(n), "x")) == Some(n)
  {
    FirstFieldOfDigits(NatToString(n), "x", NatToString(n));
    ParseNatToString(n);
  }

  lemma SizeKeyInjective(m: nat, n: nat)
    requires m != n
    ensures SizeKey(m) != SizeKey(n)
  {
    SizeKeyReadsBack(m);
    SizeKeyReadsBack(n);
  }

  /** The prefix `os.path.join(dir, name)` puts before a relative name. */
  function DirPrefix(dir: string): string
  {
    if dir == [] || dir[|dir| - 1] == '/' then dir else dir + "/"
  }

  /** `os.path.join(a, b)`: an absolute `b` replaces `a`; otherwise a separator is added when `a` lacks one. */
  function Join(a: string, b: string): (r: string)
    ensures |b| > 0 && b[0] != '/' ==> r == DirPrefix(a) + b
  {
    if |b| > 0 && b[0] == '/' then b else DirPrefix(a) + b
  }

  /** `path` matches the pattern `*.h5` inside `dir`: a name in `dir` with no further separator, not hidden, ending in `.h5`. */
  predicate MatchesH5(dir: string, path: string)
  {
    var prefix := DirPrefix(dir);
    StartsWith(path, prefix) && IsH5Name(path[|prefix|..])
  }

  /** What `*.h5` matches: a non-empty name, not hidden, without a separator, ending in `.h5`. */
  predicate IsH5Name(name: string)
  {
    && |name| > 0 && name[0] != '.'
    && (forall i :: 0 <= i < |name| ==> name[i] != '/')
    && EndsWith(name, ".h5")
  }

  /** `glob.glob(os.path.join(dir, '*.h5'))`, in listing order. */
  function Glob(fs: FileSystem, dir: string): (r: seq<string>)
    ensures forall p :: p in r <==> p in fs.files && MatchesH5(dir, p)
    decreases |fs.files|
  {
    if fs.files == [] then []
    else
      var init := FileSystem(fs.files[..|fs.files| - 1]);
      var last := fs.files[|fs.files| - 1];
      assert fs.files == init.files + [last];
      if MatchesH5(dir, last) then Glob(init, dir) + [last] else Glob(init, dir)
  }

  /**
   * The sort key of the last-resort search: the integer between the first
   * `_e` and the next `.`, 0 for a path without `_e`, and `None` where
   * `int` raises.
   */
  function EpisodeKey(path: string): (r: Option<nat>)
    ensures (forall j :: !OccursAt(path, "_e", j)) ==> r == Some(0)
  {
    match SecondField(path, "_e")
    case None => Some(0)
    case Some(field) => ParseNat(FirstField(field, "."))
  }

  predicate AllKeyed(files: seq<string>)
  {
    forall i :: 0 <= i < |files| ==> EpisodeKey(files[i]).Some?
  }

  /** The episode keys of files whose keys all parse. */
  function EpisodeKeys(files: seq<string>): (keys: seq<nat>)
    requires AllKeyed(files)
    ensures |keys| == |files| && forall i :: 0 <= i < |files| ==> keys[i] == EpisodeKey(files[i]).value
  {
    seq(|files|, i requires 0 <= i < |files| && AllKeyed(files) => EpisodeKey(files[i]).value)
  }

  /**
   * The position a stable sort in descending order puts first: a highest
   * key, and among equal highest keys the first listed.
   */
  function FirstHighest(keys: seq<nat>): (r: nat)
    requires |keys| > 0
    ensures r < |keys|
    ensures forall j :: 0 <= j < |keys| ==> keys[j] <= keys[r]
    ensures forall j :: 0 <= j < r ==> keys[j] < keys[r]
  {
    if |keys| == 1 then 0
    else
      var k := FirstHighest(keys[..|keys| - 1]);
      if keys[k] < keys[|keys| - 1] then |keys| - 1 else k
  }

  /**
   * The last resort: no `.h5` file gives `None`; if every name has an
   * episode key, the first file with the highest one; if any key fails to
   * parse, the sort raises and the first listed file is taken.
   */
  function LastResort(fs: FileSystem, dir: string): (r: Option<string>)
    ensures r.None? <==> Glob(fs, dir) == []
    ensures r.Some? ==> r.value in fs.files && MatchesH5(dir, r.value)
    ensures r.Some? && AllKeyed(Glob(fs, dir)) ==>
      forall i :: 0 <= i < |Glob(fs, dir)| ==> EpisodeKey(Glob(fs, dir)[i]).value <= EpisodeKey(r.value).value
    ensures Glob(fs, dir) != [] && !AllKeyed(Glob(fs, dir)) ==> r == Some(Glob(fs, dir)[0])
    ensures Glob(fs, dir) != [] && AllKeyed(Glob(fs, dir)) ==>
      exists i :: 0 <= i < |Glob(fs, dir)| && r == Some(Glob(fs, dir)[i]) &&
        (forall j :: 0 <= j < i ==> EpisodeKey(Glob(fs, dir)[j]).value < EpisodeKey(Glob(fs, dir)[i]).value)
  {
    var found := Glob(fs, dir);
    if found == [] then None
    else if AllKeyed(found) then
      var i := FirstHighest(EpisodeKeys(found));
      assert forall j :: 0 <= j < i ==> EpisodeKey(found[j]).value < EpisodeKey(found[i]).value;
      Some(found[i])
    else Some(found[0])
  }

  /** The first of `names`, joined to `dir`, that exists. */
  function FirstExisting(fs: FileSystem, dir: string, names: seq<string>): (r: Option<string>)
    ensures r.Some? ==> r.value in fs.files && exists i :: 0 <= i < |names| && r.value == Join(dir, names[i])
    ensures r.None? <==> forall i :: 0 <= i < |names| ==> Join(dir, names[i]) !in fs.files
    decreases |names|
  {
    if names == [] then None
    else if Join(dir, names[0]) in fs.files then Some(Join(dir, names[0]))
    else
      var r := FirstExisting(fs, dir, names[1..]);
      assert forall i :: 1 <= i < |names| ==> names[1..][i - 1] == names[i];
      r
  }

  /** `path` is the `i`-th name joined to `dir`, and every name listed before it is missing. */
  predicate FirstFoundAt(fs: FileSystem, dir: string, names: seq<string>, i: int, path: string)
  {
    && 0 <= i < |names| && path == Join(dir, names[i])
    && forall j :: 0 <= j < i ==> Join(dir, names[j]) !in fs.files
  }

  /** Behind a missing first name, the position found in the rest moves one place on. */
  lemma FirstFoundShift(fs: FileSystem, dir: string, names: seq<string>, i: int, path: string)
    requires names != [] && Join(dir, names[0]) !in fs.files
    requires FirstFoundAt(fs, dir, names[1..], i, path)
    ensures FirstFoundAt(fs, dir, names, i + 1, path)
  {
    forall j | 0 <= j < i + 1 ensures Join(dir, names[j]) !in fs.files {
      if j > 0 {
        assert names[j] == names[1..][j - 1];
      }
    }
  }

  /** The file found is that of the first listed name that exists: every name before it is missing. */
  lemma {:induction false} FirstExistingIsFirst(fs: FileSystem, dir: string, names: seq<string>)
    ensures FirstExisting(fs, dir, names).Some? ==>
      exists i :: FirstFoundAt(fs, dir, names, i, FirstExisting(fs, dir, names).value)
    decreases |names|
  {
    if names != [] {
      if Join(dir, names[0]) in fs.files {
        assert FirstFoundAt(fs, dir, names, 0, FirstExisting(fs, dir, names).value);
      } else {
        FirstExistingIsFirst(fs, dir, names[1..]);
        var r := FirstExisting(fs, dir, names[1..]);
        if r.Some? {
          var i :| FirstFoundAt(fs, dir, names[1..], i, r.value);
          FirstFoundShift(fs, dir, names, i, r.value);
        }
      }
    }
  }

  /** `sorted` on a list of sizes, as insertion into an ascending list. */
  function SortedInsert(s: seq<nat>, x: nat): (r: seq<nat>)
    ensures |r| == |s| + 1
    ensures forall y :: y in r <==> y in s || y == x
    ensures Ascending(s) ==> Ascending(r)
    ensures Increasing(s) && x !in s ==> Increasing(r)
  {
    if s == [] || x <= s[0] then [x] + s
    else
      var rest := SortedInsert(s[1..], x);
      assert forall y :: y in s <==> y == s[0] || y in s[1..];
      HeadBelow(s, x, rest);
      [s[0]] + rest
  }

  predicate Ascending(s: seq<nat>)
  {
    forall i, j :: 0 <= i < j < |s| ==> s[i] <= s[j]
  }

  /** Ascending without repeats. */
  predicate Increasing(s: seq<nat>)
  {
    forall i, j :: 0 <= i < j < |s| ==> s[i] < s[j]
  }

  /** The head of an ascending list stays below what inserting a larger element into its tail gives. */
  lemma HeadBelow(s: seq<nat>, x: nat, rest: seq<nat>)
    requires s != [] && s[0] < x
    requires forall y :: y in rest ==> y in s[1..] || y == x
    ensures Ascending(s) ==> Ascending(s[1..]) && forall k :: 0 <= k < |rest| ==> s[0] <= rest[k]
    ensures Increasing(s) ==> Increasing(s[1..]) && forall k :: 0 <= k < |rest| ==> s[0] < rest[k]
  {
    if Ascending(s) || Increasing(s) {
      forall k | 0 <= k < |rest| ensures s[0] <= rest[k] && (Increasing(s) ==> s[0] < rest[k]) {
        assert rest[k] in rest;
      }
    }
  }

  class ModelConfig {
    const modelsBaseDir: string
    /** `FALLBACK_MODELS`: never changed after construction. */
    const fallbackModels: map<string, seq<string>>
    /** `BEST_MODELS`: `update_best_model` changes it in place. */
    var bestModels: map<string, BestModel>

    /** Every key of the table is the key of a board size. */
    ghost predicate Valid()
      reads this`bestModels
    {
      forall k :: k in bestModels ==> exists m: nat :: k == SizeKey(m)
    }

    /** `__init__`: the 5x5 champion, three sizes still in development, and three 5x5 fallbacks. */
    constructor (modelsBaseDir: string)
      ensures Valid() && this.modelsBaseDir == modelsBaseDir
      ensures bestModels.Keys == {SizeKey(5), SizeKey(6), SizeKey(7), SizeKey(8)}
      ensures bestModels[SizeKey(5)].modelFile == Some("knight_tour_dqn_b5_e5200.h5")
      ensures bestModels[SizeKey(6)].modelFile.None? && bestModels[SizeKey(7)].modelFile.None?
      ensures bestModels[SizeKey(8)].modelFile.None?
      ensures fallbackModels.Keys == {SizeKey(5)}
      ensures fallbackModels[SizeKey(5)] ==
        ["knight_tour_dqn_b5_e5900.h5", "knight_tour_dqn_b5_e6400.h5", "knight_tour_dqn_b5_e5700.h5"]
    {
      this.modelsBaseDir := modelsBaseDir;
      var k5, k6, k7, k8 := SizeKey(5), SizeKey(6), SizeKey(7), SizeKey(8);
      SizeKeyInjective(5, 6);
      SizeKeyInjective(5, 7);
      SizeKeyInjective(5, 8);
      SizeKeyInjective(6, 7);
      SizeKeyInjective(6, 8);
      SizeKeyInjective(7, 8);
      bestModels := map[
        k5 := BestModel(Some("knight_tour_dqn_b5_e5200.h5"), Some(100.0), "Episodes 5200-5299 (98% wins)",
                        "50/50 tests = 100% success", Some(24), (2, 2), Champion),
        k6 := BestModel(None, None, "TBD", "TBD", None, (2, 2), InDevelopment),
        k7 := BestModel(None, None, "TBD", "TBD", None, (3, 3), InDevelopment),
        k8 := BestModel(None, None, "TBD", "TBD", None, (3, 3), InDevelopment)];
      fallbackModels := map[
        k5 := ["knight_tour_dqn_b5_e5900.h5", "knight_tour_dqn_b5_e6400.h5", "knight_tour_dqn_b5_e5700.h5"]];
      new;
      forall k | k in bestModels ensures exists m: nat :: k == SizeKey(m) {
        if k == k5 {
          assert k == SizeKey(5);
        } else if k == k6 {
          assert k == SizeKey(6);
        } else if k == k7 {
          assert k == SizeKey(7);
        } else {
          assert k == SizeKey(8);
        }
      }
    }

    /** The directory of a size's models, `os.path.join(models_base_dir, size_key)`. */
    function SizeDir(n: nat): string
    {
      Join(modelsBaseDir, SizeKey(n))
    }

    /** `_find_fallback_model` as a value: the first listed fallback that exists, else the last resort. */
    function Fallback(n: nat, fs: FileSystem): (r: Option<string>)
      ensures r.Some? ==> r.value in fs.files
      ensures r.None? <==>
        && (SizeKey(n) in fallbackModels ==>
              forall i :: 0 <= i < |fallbackModels[SizeKey(n)]| ==> Join(SizeDir(n), fallbackModels[SizeKey(n)][i]) !in fs.files)
        && Glob(fs, SizeDir(n)) == []
      ensures (&& SizeKey(n) in fallbackModels
               && exists i :: 0 <= i < |fallbackModels[SizeKey(n)]| && Join(SizeDir(n), fallbackModels[SizeKey(n)][i]) in fs.files)
        ==> r == FirstExisting(fs, SizeDir(n), fallbackModels[SizeKey(n)])
      ensures (|| SizeKey(n) !in fallbackModels
               || forall i :: 0 <= i < |fallbackModels[SizeKey(n)]| ==> Join(SizeDir(n), fallbackModels[SizeKey(n)][i]) !in fs.files)
        ==> r == LastResort(fs, SizeDir(n))
    {
      var key := SizeKey(n);
      var listed := if key in fallbackModels then FirstExisting(fs, SizeDir(n), fallbackModels[key]) else None;
      if listed.Some? then listed else LastResort(fs, SizeDir(n))
    }

    /** `get_model_path` as a value, for a given table. */
    function Lookup(table: map<string, BestModel>, n: nat, fs: FileSystem): (r: Option<string>)
      ensures r.Some? ==> r.value in fs.files
      ensures (SizeKey(n) in table && Truthy(table[SizeKey(n)].modelFile) &&
               Join(SizeDir(n), table[SizeKey(n)].modelFile.value) in fs.files)
        ==> r == Some(Join(SizeDir(n), table[SizeKey(n)].modelFile.value))
      ensures (SizeKey(n) in table && Truthy(table[SizeKey(n)].modelFile) &&
               Join(SizeDir(n), table[SizeKey(n)].modelFile.value) !in fs.files)
        ==> r == Fallback(n, fs)
    {
      var key := SizeKey(n);
      if key !in table || !Truthy(table[key].modelFile) then None
      else if Join(SizeDir(n), table[key].modelFile.value) in fs.files then Some(Join(SizeDir(n), table[key].modelFile.value))
      else Fallback(n, fs)
    }

    /**
     * The lookup finds nothing for an unknown size or a size without a
     * configured file; otherwise it returns an existing file of the size
     * directory, and finds nothing only when the best file, every fallback
     * and every `.h5` file of the directory are missing.
     */
    lemma LookupMeaning(table: map<string, BestModel>, n: nat, fs: FileSystem)
      ensures var key := SizeKey(n);
        && (key !in table || !Truthy(table[key].modelFile) ==> Lookup(table, n, fs).None?)
        && (Lookup(table, n, fs).Some? ==> Lookup(table, n, fs).value in fs.files)
        && (key in table && Truthy(table[key].modelFile) ==>
              (Lookup(table, n, fs).None? <==>
                 && Join(SizeDir(n), table[key].modelFile.value) !in fs.files
                 && (key in fallbackModels ==> forall i :: 0 <= i < |fallbackModels[key]| ==> Join(SizeDir(n), fallbackModels[key][i]) !in fs.files)
                 && Glob(fs, SizeDir(n)) == []))
    {
      var key := SizeKey(n);
      if key in fallbackModels {
        var f := FirstExisting(fs, SizeDir(n), fallbackModels[key]);
      }
    }

    /** `_find_fallback_model`. */
    method FindFallbackModel(n: nat, fs: FileSystem) returns (path: Option<string>)
      ensures path == Fallback(n, fs)
    {
      var key := SizeKey(n);
      var dir := Join(modelsBaseDir, key);
      if key in fallbackModels {
        var names := fallbackModels[key];
        for i := 0 to |names|
          invariant FirstExisting(fs, dir, names) == FirstExisting(fs, dir, names[i..])
        {
          assert names[i..][1..] == names[i + 1..];
          var candidate := Join(dir, names[i]);
          if candidate in fs.files {
            return Some(candidate);
          }
        }
      }
      path := LastResort(fs, dir);
    }

    /** `get_model_path`. */
    method GetModelPath(n: nat, fs: FileSystem) returns (path: Option<string>)
      ensures path == Lookup(bestModels, n, fs)
    {
      var key := SizeKey(n);
      if key !in bestModels {
        return None;
      }
      var info := bestModels[key];
      if !Truthy(info.modelFile) {
        return None;
      }
      var modelPath := Join(Join(modelsBaseDir, key), info.modelFile.value);
      if modelPath in fs.files {
        return Some(modelPath);
      }
      path := FindFallbackModel(n, fs);
    }

    /**
     * `_is_fallback_model`: no path is not a fallback; with no best file
     * configured any path is; otherwise a path is a fallback unless it ends
     * with the best file's name.
     */
    function IsFallbackModel(n: nat, path: Option<string>): (r: bool)
      reads this`bestModels
      requires Truthy(path) ==> SizeKey(n) in bestModels
      ensures r ==> Truthy(path)
    {
      if !Truthy(path) then false
      else
        var best := bestModels[SizeKey(n)].modelFile;
        if !Truthy(best) then true else !EndsWith(path.value, best.value)
    }

    /** The best file, when it exists, is never reported as a fallback; a file found any other way is, unless its name ends with the best file's name. */
    lemma FallbackFlag(n: nat, fs: FileSystem)
      requires SizeKey(n) in bestModels && Truthy(bestModels[SizeKey(n)].modelFile)
      ensures var best := Join(SizeDir(n), bestModels[SizeKey(n)].modelFile.value);
        && (best in fs.files ==> Lookup(bestModels, n, fs) == Some(best) && !IsFallbackModel(n, Some(best)))
        && (best !in fs.files && Truthy(Lookup(bestModels, n, fs)) ==>
              (IsFallbackModel(n, Lookup(bestModels, n, fs)) <==> !EndsWith(Lookup(bestModels, n, fs).value, bestModels[SizeKey(n)].modelFile.value)))
    {
      var file := bestModels[SizeKey(n)].modelFile.value;
      var best := Join(SizeDir(n), file);
      if file[0] != '/' {
        assert best == DirPrefix(SizeDir(n)) + file;
        assert best[|best| - |file|..] == file;
      }
    }

    /**
     * `get_model_info`: an unsupported size is reported unavailable;
     * otherwise the entry, the path the lookup finds, whether one was found,
     * and the fallback flag. The table itself is not changed.
     */
    method GetModelInfo(n: nat, fs: FileSystem) returns (info: ModelInfo)
      ensures info.Unsupported? <==> SizeKey(n) !in bestModels
      ensures info.Unsupported? ==> info.size == SizeKey(n)
      ensures info.Info? ==>
        && info.entry == bestModels[SizeKey(n)] && info.size == SizeKey(n)
        && info.modelPath == Lookup(bestModels, n, fs)
        && (info.available <==> info.modelPath.Some?)
        && info.isFallback == IsFallbackModel(n, info.modelPath)
    {
      var key := SizeKey(n);
      if key !in bestModels {
        return Unsupported(key);
      }
      var entry := bestModels[key];
      var modelPath := GetModelPath(n, fs);
      info := Info(entry, key, modelPath, modelPath.Some?, IsFallbackModel(n, modelPath));
    }

    /** `list_available_sizes`: the sizes of the table whose lookup finds a file, each once, in ascending order. */
    method ListAvailableSizes(fs: FileSystem) returns (sizes: seq<nat>)
      requires Valid()
      ensures Increasing(sizes)
      ensures forall n :: n in sizes <==> SizeKey(n) in bestModels && Truthy(Lookup(bestModels, n, fs))
    {
      var remaining := bestModels.Keys;
      sizes := [];
      while remaining != {}
        invariant remaining <= bestModels.Keys
        invariant Increasing(sizes)
        invariant forall n :: n in sizes <==>
          SizeKey(n) in bestModels && SizeKey(n) !in remaining && Truthy(Lookup(bestModels, n, fs))
        decreases remaining
      {
        var sizeKey :| sizeKey in remaining;
        var m: nat :| sizeKey == SizeKey(m);
        SizeKeyReadsBack(m);
        var boardSize := ParseNat(FirstField(sizeKey, "x")).value;
        forall n | SizeKey(n) == sizeKey ensures n == boardSize {
          SizeKeyReadsBack(n);
        }
        var path := GetModelPath(boardSize, fs);
        if Truthy(path) {
          sizes := SortedInsert(sizes, boardSize);
        }
        remaining := remaining - {sizeKey};
      }
    }

    /**
     * `update_best_model`: the size's entry, created if absent, gets the
     * seven fields; a missing or empty training range reads "Custom
     * validation". Every other size keeps its entry.
     */
    method UpdateBestModel(n: nat, modelFile: string, winRate: real, validation: string, avgMoves: int,
                           startingPosition: (int, int), trainingRange: Option<string>)
      requires Valid()
      modifies this`bestModels
      ensures Valid()
      ensures bestModels == old(bestModels)[SizeKey(n) := Updated(modelFile, winRate, validation, avgMoves, startingPosition, trainingRange)]
    {
      bestModels := bestModels[SizeKey(n) := Updated(modelFile, winRate, validation, avgMoves, startingPosition, trainingRange)];
    }

    /** After an update naming a file that exists, the lookup for that size returns that file and does not call it a fallback. */
    lemma UpdatedModelIsUsed(n: nat, modelFile: string, winRate: real, validation: string, avgMoves: int,
                             startingPosition: (int, int), trainingRange: Option<string>, fs: FileSystem)
      requires modelFile != "" && Join(SizeDir(n), modelFile) in fs.files
      ensures var table := bestModels[SizeKey(n) := Updated(modelFile, winRate, validation, avgMoves, startingPosition, trainingRange)];
        && Lookup(table, n, fs) == Some(Join(SizeDir(n), modelFile))
        && table[SizeKey(n)].modelFile == Some(modelFile)
    {
    }
  }

  /** The entry `update_best_model` writes. */
  function Updated(modelFile: string, winRate: real, validation: string, avgMoves: int,
                   startingPosition: (int, int), trainingRange: Option<string>): (e: BestModel)
    ensures e.modelFile == Some(modelFile) && e.winRate == Some(winRate) && e.description == ValidatedAt(winRate)
    ensures e.trainingRange == if Truthy(trainingRange) then trainingRange.value else "Custom validation"
  {
    BestModel(Some(modelFile), Some(winRate), if Truthy(trainingRange) then trainingRange.value else "Custom validation",
              validation, Some(avgMoves), startingPosition, ValidatedAt(winRate))
  }
}
