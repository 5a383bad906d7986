/**
 * The data loader: a map-backed cache, the memo key of the `cachable`
 * decorator, the choice of an API version among the versioned files found on
 * the search paths, the search path order and the override order of loading.
 * The filesystem is abstracted: directory listings and file loads are inputs.
 */
module Loaders {
  import opened Wrappers
  import opened Text
  import opened Ordering
  import PosixPath

  datatype LoaderError =
    | KeyError(key: string)
    | ApiVersionNotFound(dataPath: string, apiVersion: Option<string>)
    | DataNotFoundError(dataPath: string)

  /** `Cache`: a plain dictionary that keeps everything until cleared. */
  class Cache<V> {
    var data: map<string, V>

    constructor()
      ensures data == map[]
    {
      data := map[];
    }

    /** `len(cache)`: the number of distinct keys. */
    method Length() returns (n: nat)
      ensures n == |data.Keys|
    {
      n := |data.Keys|;
    }

    /** `key in cache`. */
    method Contains(key: string) returns (b: bool)
      ensures b <==> key in data
    {
      b := key in data;
    }

    /** `cache[key]`, which raises KeyError for a missing key. */
    method Get(key: string) returns (r: Result<V, LoaderError>)
      ensures key in data ==> r == Ok(data[key])
      ensures key !in data ==> r == Err(KeyError(key))
    {
      if key in data {
        r := Ok(data[key]);
      } else {
        r := Err(KeyError(key));
      }
    }

    /** `cache[key] = value`. */
    method Set(key: string, value: V)
      modifies this
      ensures data == old(data)[key := value]
      ensures |data| == if key in old(data) then |old(data)| else |old(data)| + 1
    {
      UpdateSize(data, key, value);
      data := data[key := value];
    }

    /** `del cache[key]`: a missing key is silently ignored. */
    method Delete(key: string)
      modifies this
      ensures data == old(data) - {key}
      ensures key !in old(data) ==> data == old(data)
    {
      if key in data {
        data := data - {key};
      }
    }

    /** `cache.clear()`. */
    method Clear()
      modifies this
      ensures data == map[] && |data| == 0
    {
      data := map[];
    }
  }

  /** Overwriting a key keeps the number of keys; a new key adds one. */
  lemma UpdateSize<V>(m: map<string, V>, key: string, value: V)
    ensures |m[key := value]| == if key in m then |m| else |m| + 1
  {
    if key in m {
      assert m[key := value].Keys == m.Keys;
    } else {
      assert m[key := value].Keys == m.Keys + {key};
    }
  }

  // ---- The `cachable` memo key ----

  /** Keyword arguments: a Python dict, i.e. its names in the order they were passed and their values (as `str` renders them). */
  datatype Kwargs = Kwargs(names: seq<string>, values: map<string, string>) {
    ghost predicate Valid()
    {
      && Distinct(names)
      && (forall n :: n in names <==> n in values)
    }
  }

  /** `'/{0}/{1}'.format(name, value)` for each name in turn. */
  function KeySuffix(names: seq<string>, values: map<string, string>): string
    requires forall n :: n in names ==> n in values
  {
    if |names| == 0 then ""
    else
      var last := names[|names| - 1];
      KeySuffix(names[..|names| - 1], values) + "/" + last + "/" + values[last]
  }

  /** The key `cachable` stores under: the original key, then each keyword argument in name order. */
  function KeyFor(origKey: string, kwargs: Kwargs): string
    requires kwargs.Valid()
  {
    SortMembers(kwargs.names);
    origKey + KeySuffix(Sort(kwargs.names), kwargs.values)
  }

  /** The key-building loop of `cachable`'s wrapper. */
  method MemoKey(origKey: string, kwargs: Kwargs) returns (key: string)
    requires kwargs.Valid()
    ensures key == KeyFor(origKey, kwargs)
  {
    SortMembers(kwargs.names);
    key := KeyLoop(origKey, Sort(kwargs.names), kwargs.values);
  }

  /** The loop itself: appends '/name/value' for each name in turn. */
  method KeyLoop(origKey: string, names: seq<string>, values: map<string, string>) returns (key: string)
    requires forall n :: n in names ==> n in values
    ensures key == origKey + KeySuffix(names, values)
  {
    key := origKey;
    var i := 0;
    while i < |names|
      invariant 0 <= i <= |names|
      invariant key == origKey + KeySuffix(names[..i], values)
    {
      KeySuffixStep(names, values, i);
      key := key + "/" + names[i] + "/" + values[names[i]];
      i := i + 1;
    }
    assert names[..|names|] == names;
  }

  lemma KeySuffixStep(names: seq<string>, values: map<string, string>, i: nat)
    requires forall n :: n in names ==> n in values
    requires i < |names|
    ensures KeySuffix(names[..i + 1], values) == KeySuffix(names[..i], values) + "/" + names[i] + "/" + values[names[i]]
  {
    assert names[..i + 1][..i] == names[..i];
  }

  /** The memo key depends only on the dictionary, not on the order its arguments were passed in. */
  lemma {:induction false} KeyForOrderIndependent(origKey: string, a: Kwargs, b: Kwargs)
    requires a.Valid() && b.Valid() && a.values == b.values
    ensures KeyFor(origKey, a) == KeyFor(origKey, b)
  {
    SortedNamesStrict(a);
    SortedNamesStrict(b);
    StrictlySortedUnique(Sort(a.names), Sort(b.names));
  }

  /** `sorted(kwargs.keys())` is strictly increasing and holds exactly the argument names. */
  lemma SortedNamesStrict(k: Kwargs)
    requires k.Valid()
    ensures StrictlySorted(Sort(k.names))
    ensures forall n :: n in Sort(k.names) <==> n in k.values
  {
    SortSorted(k.names);
    SortDistinct(k.names);
    SortedDistinctStrict(Sort(k.names));
    forall n ensures n in Sort(k.names) <==> n in k.names {
      assert n in multiset(Sort(k.names)) <==> n in multiset(k.names);
    }
  }

  /** Without keyword arguments the memo key is the original key. */
  lemma KeyWithoutKwargs(origKey: string)
    ensures Kwargs([], map[]).Valid() && KeyFor(origKey, Kwargs([], map[])) == origKey
  {
  }

  /**
   * `cachable`'s wrapper around `func`: on a hit the stored value is returned
   * and `func` is not called; on a miss `func` is called once and, unless it
   * raises (an `Err` here), its result is stored under the key.
   */
  method CachedCall<V>(cache: Cache<V>, origKey: string, kwargs: Kwargs,
                       func: (string, Kwargs) -> Result<V, LoaderError>)
    returns (r: Result<V, LoaderError>, called: bool)
    requires kwargs.Valid()
    modifies cache
    ensures var key := KeyFor(origKey, kwargs);
      && called == (key !in old(cache.data))
      && (called ==> r == func(origKey, kwargs))
      && (called && r.Ok? ==> cache.data == old(cache.data)[key := r.value])
      && (called && r.Err? ==> cache.data == old(cache.data))
      && (!called ==> r == Ok(old(cache.data)[key]) && cache.data == old(cache.data))
  {
    var key := MemoKey(origKey, kwargs);
    var hit := cache.Contains(key);
    if hit {
      r := cache.Get(key);
      return r, false;
    }
    called := true;
    r := func(origKey, kwargs);
    if r.Ok? {
      cache.Set(key, r.value);
    }
  }

  // ---- `determine_latest` ----

  /** "Ensure it looks roughly like a versioned file": exactly two '-'. */
  predicate IsVersionName(opt: string)
  {
    Count(opt, '-') == 2
  }

  /** The versioned names of one directory listing, in listing order. */
  function VersionNames(listing: seq<string>): (r: seq<string>)
    ensures forall x :: x in r <==> x in listing && IsVersionName(x)
  {
    if |listing| == 0 then []
    else
      var last := listing[|listing| - 1];
      assert listing == listing[..|listing| - 1] + [last];
      VersionNames(listing[..|listing| - 1]) + (if IsVersionName(last) then [last] else [])
  }

  /** `all_options`: the versioned names of every search path's listing, search path by search path. */
  function AllOptions(listings: seq<seq<string>>): (r: seq<string>)
    ensures forall x :: x in r <==> (exists i :: 0 <= i < |listings| && x in listings[i]) && IsVersionName(x)
  {
    if |listings| == 0 then []
    else
      var n := |listings| - 1;
      var r := AllOptions(listings[..n]) + VersionNames(listings[n]);
      assert forall i :: 0 <= i < n ==> listings[..n][i] == listings[i];
      r
  }

  /** Whether a version may be chosen for the requested `api_version`: it is it, or an older one. */
  predicate Qualifies(opt: string, apiVersion: Option<string>)
  {
    apiVersion.None? || LexLe(opt, apiVersion.value)
  }

  /** The independent description of the choice: the greatest version that qualifies, if any. */
  function BestMatch(options: seq<string>, apiVersion: Option<string>): (r: Option<string>)
    ensures r.Some? ==> r.value in options && Qualifies(r.value, apiVersion)
    ensures r.Some? ==> forall x :: x in options && Qualifies(x, apiVersion) ==> LexLe(x, r.value)
    ensures r.None? <==> forall x :: x in options ==> !Qualifies(x, apiVersion)
  {
    if |options| == 0 then None
    else
      var rest := BestMatch(options[1..], apiVersion);
      assert forall x :: x in options ==> x == options[0] || x in options[1..];
      if !Qualifies(options[0], apiVersion) then rest
      else if rest.None? then Some(options[0])
      else
        LexLeTotal(rest.value, options[0]);
        if LexLe(rest.value, options[0]) then
          assert forall x :: x in options[1..] && Qualifies(x, apiVersion) ==> LexLe(x, options[0]) by {
            forall x | x in options[1..] && Qualifies(x, apiVersion) ensures LexLe(x, options[0]) {
              LexLeTransitive(x, rest.value, options[0]);
            }
          }
          Some(options[0])
        else rest
  }

  /** With an `api_version` present among the options, that exact version is chosen. */
  lemma BestMatchExact(options: seq<string>, v: string)
    requires v in options
    ensures BestMatch(options, Some(v)) == Some(v)
  {
    var r := BestMatch(options, Some(v));
    LexLeAntisymmetric(r.value, v);
  }

  /** The path `determine_latest` answers: the data path joined with the best match. */
  function Latest(dataPath: string, listings: seq<seq<string>>, apiVersion: Option<string>)
    : (r: Result<string, LoaderError>)
    ensures r.Err? <==> BestMatch(AllOptions(listings), apiVersion).None?
    ensures r.Err? ==> r.error == ApiVersionNotFound(dataPath, apiVersion)
  {
    match BestMatch(AllOptions(listings), apiVersion)
    case None => Err(ApiVersionNotFound(dataPath, apiVersion))
    case Some(best) => Ok(PosixPath.Join(dataPath, best))
  }

  /** `determine_latest` answers the data path joined with the best match when there is one. */
  lemma LatestFound(dataPath: string, listings: seq<seq<string>>, apiVersion: Option<string>, v: string)
    requires BestMatch(AllOptions(listings), apiVersion) == Some(v)
    ensures Latest(dataPath, listings, apiVersion) == Ok(PosixPath.Join(dataPath, v))
  {
  }

  /** `BestMatch` is the unique greatest qualifying option. */
  lemma GreatestIsBest(options: seq<string>, v: string, apiVersion: Option<string>)
    requires v in options && Qualifies(v, apiVersion)
    requires forall x :: x in options && Qualifies(x, apiVersion) ==> LexLe(x, v)
    ensures BestMatch(options, apiVersion) == Some(v)
  {
    var b := BestMatch(options, apiVersion);
    LexLeAntisymmetric(b.value, v);
  }

  /**
   * `Loader.determine_latest(data_path, api_version)`. `listings[i]` is what the
   * glob of search path i yields for `data_path`, with the directory and the
   * extension cut off (an empty listing when the path is missing or not a
   * directory).
   */
  method DetermineLatest(dataPath: string, listings: seq<seq<string>>, apiVersion: Option<string>)
    returns (r: Result<string, LoaderError>)
    ensures r == Latest(dataPath, listings, apiVersion)
  {
    var allOptions := GatherOptions(listings);
    if |allOptions| == 0 {
      EmptyIffNoMembers(allOptions);
      return Err(ApiVersionNotFound(dataPath, apiVersion));
    }
    var best := ChooseVersion(allOptions, apiVersion);
    if best.None? {
      return Err(ApiVersionNotFound(dataPath, apiVersion));
    }
    r := Ok(PosixPath.Join(dataPath, best.value));
  }

  /** The two nested loops that collect `all_options`. */
  method GatherOptions(listings: seq<seq<string>>) returns (allOptions: seq<string>)
    ensures allOptions == AllOptions(listings)
  {
    allOptions := [];
    var i := 0;
    while i < |listings|
      invariant 0 <= i <= |listings|
      invariant allOptions == AllOptions(listings[..i])
    {
      var options := listings[i];
      var j := 0;
      while j < |options|
        invariant 0 <= j <= |options|
        invariant allOptions == AllOptions(listings[..i]) + VersionNames(options[..j])
      {
        var opt := options[j];
        VersionNamesStep(options, j);
        if IsVersionName(opt) {
          allOptions := allOptions + [opt];
        }
        j := j + 1;
      }
      assert options[..j] == options;
      AllOptionsStep(listings, i);
      i := i + 1;
    }
    assert listings[..i] == listings;
  }

  lemma VersionNamesStep(listing: seq<string>, j: nat)
    requires j < |listing|
    ensures VersionNames(listing[..j + 1])
         == VersionNames(listing[..j]) + (if IsVersionName(listing[j]) then [listing[j]] else [])
  {
    assert listing[..j + 1][..j] == listing[..j];
  }

  lemma AllOptionsStep(listings: seq<seq<string>>, i: nat)
    requires i < |listings|
    ensures AllOptions(listings[..i + 1]) == AllOptions(listings[..i]) + VersionNames(listings[i])
  {
    assert listings[..i + 1][..i] == listings[..i];
  }

  /**
   * Sorts the options in reverse and returns the first one that is the
   * requested version or older (the newest one when no version is requested).
   */
  method ChooseVersion(allOptions: seq<string>, apiVersion: Option<string>) returns (best: Option<string>)
    requires |allOptions| > 0
    ensures best == BestMatch(allOptions, apiVersion)
  {
    var ascending := Sort(allOptions);
    SortSorted(allOptions);
    SortMembers(allOptions);
    ReverseSortedDescending(ascending);
    var sorted := Reverse(ascending);
    assert forall x :: x in sorted <==> x in ascending by {
      forall x ensures x in sorted <==> x in ascending {
        if x in ascending {
          var j :| 0 <= j < |ascending| && ascending[j] == x;
          assert sorted[|ascending| - 1 - j] == x;
        }
      }
    }
    best := None;
    if apiVersion.None? {
      best := Some(sorted[0]);
      FirstQualifyingIsBest(sorted, allOptions, 0, apiVersion);
      return;
    }
    var k := 0;
    while k < |sorted|
      invariant 0 <= k <= |sorted|
      invariant forall j :: 0 <= j < k ==> !Qualifies(sorted[j], apiVersion)
    {
      var opt := sorted[k];
      if opt == apiVersion.value || LexLess(opt, apiVersion.value) {
        FirstQualifyingIsBest(sorted, allOptions, k, apiVersion);
        return Some(opt);
      }
      k := k + 1;
    }
    NoneQualifies(sorted, allOptions, apiVersion);
  }

  lemma NoneQualifies(sorted: seq<string>, options: seq<string>, apiVersion: Option<string>)
    requires forall x :: x in sorted <==> x in options
    requires forall j :: 0 <= j < |sorted| ==> !Qualifies(sorted[j], apiVersion)
    ensures BestMatch(options, apiVersion) == None
  {
    forall x | x in options ensures !Qualifies(x, apiVersion) {
      var j :| 0 <= j < |sorted| && sorted[j] == x;
    }
  }

  /** In a descending list, the first element that qualifies is the greatest one that does. */
  lemma FirstQualifyingIsBest(sorted: seq<string>, options: seq<string>, k: nat, apiVersion: Option<string>)
    requires SortedDescending(sorted)
    requires forall x :: x in sorted <==> x in options
    requires k < |sorted| && Qualifies(sorted[k], apiVersion)
    requires forall j :: 0 <= j < k ==> !Qualifies(sorted[j], apiVersion)
    ensures BestMatch(options, apiVersion) == Some(sorted[k])
  {
    var b := BestMatch(options, apiVersion);
    assert sorted[k] in options;
    var m :| 0 <= m < |sorted| && sorted[m] == b.value;
    assert m >= k;
    assert LexLe(b.value, sorted[k]);
    LexLeAntisymmetric(b.value, sorted[k]);
  }

  // ---- Search paths and the override order of `_get_data` ----

  /**
   * `Loader.get_search_paths()`: the entries of the session's `data_path`
   * (split on ':', then expanded) in their given order, and the bundled data
   * directory last. `expandVars` and `expandUser` stand for
   * `os.path.expandvars` and `os.path.expanduser`.
   */
  method GetSearchPaths(dataPathVariable: Option<string>, botocoreRoot: string,
                        expandVars: string -> string, expandUser: string -> string)
    returns (paths: seq<string>)
    ensures var extra := if dataPathVariable.Some? then SplitOn(dataPathVariable.value, ':') else [];
      && |paths| == |extra| + 1
      && (forall i :: 0 <= i < |extra| ==> paths[i] == expandUser(expandVars(extra[i])))
      && paths[|extra|] == PosixPath.Join(botocoreRoot, "data")
  {
    paths := [];
    if dataPathVariable.Some? {
      var extraPaths := SplitOn(dataPathVariable.value, ':');
      var i := 0;
      while i < |extraPaths|
        invariant 0 <= i <= |extraPaths|
        invariant |paths| == i
        invariant forall j :: 0 <= j < i ==> paths[j] == expandUser(expandVars(extraPaths[j]))
      {
        var path := expandVars(extraPaths[i]);
        path := expandUser(path);
        paths := paths + [path];
        i := i + 1;
      }
    }
    paths := paths + [PosixPath.Join(botocoreRoot, "data")];
  }

  /** `dict.update` applied from the last loaded file to the first: earlier files win. */
  function Layered<V>(loaded: seq<Option<map<string, V>>>): map<string, V>
  {
    if |loaded| == 0 then map[]
    else Layered(loaded[1..]) + (if loaded[0].Some? then loaded[0].value else map[])
  }

  /** A key is present iff some loaded file has it, and its value comes from the first such file. */
  lemma {:induction false} LayeredLookup<V>(loaded: seq<Option<map<string, V>>>, key: string, i: nat)
    requires i < |loaded| && loaded[i].Some? && key in loaded[i].value
    requires forall j :: 0 <= j < i ==> loaded[j].None? || key !in loaded[j].value
    ensures key in Layered(loaded) && Layered(loaded)[key] == loaded[i].value[key]
  {
    if i > 0 {
      LayeredLookup(loaded[1..], key, i - 1);
    }
  }

  lemma {:induction false} LayeredDomain<V>(loaded: seq<Option<map<string, V>>>, key: string)
    ensures key in Layered(loaded) <==>
      exists i :: 0 <= i < |loaded| && loaded[i].Some? && key in loaded[i].value
  {
    if |loaded| > 0 {
      LayeredDomain(loaded[1..], key);
      if key in Layered(loaded[1..]) {
        var i :| 0 <= i < |loaded[1..]| && loaded[1..][i].Some? && key in loaded[1..][i].value;
        assert loaded[i + 1] == loaded[1..][i];
      }
      if exists i :: 0 <= i < |loaded| && loaded[i].Some? && key in loaded[i].value {
        var i :| 0 <= i < |loaded| && loaded[i].Some? && key in loaded[i].value;
        if i > 0 { assert loaded[1..][i - 1] == loaded[i]; }
      }
    }
  }

  /** The full path `_get_data` tries under one search path. */
  function DataFile(searchPath: string, dataPath: string): string
  {
    PosixPath.Join(searchPath, dataPath + ".json")
  }

  /** What loading `dataPath` from each search path gives (`None` where the file raises IOError). */
  function Attempts<V>(searchPaths: seq<string>, dataPath: string, loadFile: string -> Option<map<string, V>>)
    : (r: seq<Option<map<string, V>>>)
    ensures |r| == |searchPaths|
    ensures forall i :: 0 <= i < |searchPaths| ==> r[i] == loadFile(DataFile(searchPaths[i], dataPath))
  {
    seq(|searchPaths|, i requires 0 <= i < |searchPaths| => loadFile(DataFile(searchPaths[i], dataPath)))
  }

  /** What `_get_data` answers: every loaded file layered, or DataNotFoundError when none loads. */
  function Loaded<V>(searchPaths: seq<string>, dataPath: string, loadFile: string -> Option<map<string, V>>)
    : (r: Result<map<string, V>, LoaderError>)
  {
    var attempts := Attempts(searchPaths, dataPath, loadFile);
    if forall i :: 0 <= i < |attempts| ==> attempts[i].None? then Err(DataNotFoundError(dataPath))
    else Ok(Layered(attempts))
  }

  /**
   * `Loader._get_data(data_path)`: the search paths are loaded in reverse order
   * and each loaded dictionary updates the result, so earlier (user) paths
   * override later ones; DataNotFoundError when no path loads.
   */
  method LoadData<V>(searchPaths: seq<string>, dataPath: string, loadFile: string -> Option<map<string, V>>)
    returns (r: Result<map<string, V>, LoaderError>)
    ensures r == Loaded(searchPaths, dataPath, loadFile)
  {
    ghost var attempts := Attempts(searchPaths, dataPath, loadFile);
    var data: map<string, V> := map[];
    var dataFound := false;
    var i := |searchPaths|;
    while i > 0
      invariant 0 <= i <= |searchPaths|
      invariant data == Layered(attempts[i..])
      invariant dataFound <==> exists j :: i <= j < |searchPaths| && attempts[j].Some?
    {
      i := i - 1;
      var fullPath := DataFile(searchPaths[i], dataPath);
      var found := loadFile(fullPath);
      assert attempts[i..][1..] == attempts[i + 1..];
      if found.Some? {
        data := data + found.value;
        dataFound := true;
      }
    }
    if !dataFound {
      return Err(DataNotFoundError(dataPath));
    }
    assert attempts[0..] == attempts;
    r := Ok(data);
  }

  /**
   * Earlier search paths override later ones: a key of the loaded data comes
   * from the first search path whose file loads and has it.
   */
  lemma LoadedFirstWins<V>(searchPaths: seq<string>, dataPath: string,
                           loadFile: string -> Option<map<string, V>>, key: string, i: nat)
    requires i < |searchPaths|
    requires var f := loadFile(DataFile(searchPaths[i], dataPath)); f.Some? && key in f.value
    requires forall j :: 0 <= j < i ==>
      var f := loadFile(DataFile(searchPaths[j], dataPath)); f.None? || key !in f.value
    ensures var r := Loaded(searchPaths, dataPath, loadFile);
      r.Ok? && key in r.value && r.value[key] == loadFile(DataFile(searchPaths[i], dataPath)).value[key]
  {
    var attempts := Attempts(searchPaths, dataPath, loadFile);
    assert attempts[i].Some?;
    LayeredLookup(attempts, key, i);
  }

  /** A key is in the loaded data iff some search path's file loads and has it. */
  lemma LoadedDomain<V>(searchPaths: seq<string>, dataPath: string,
                        loadFile: string -> Option<map<string, V>>, key: string)
    requires Loaded(searchPaths, dataPath, loadFile).Ok?
    ensures key in Loaded(searchPaths, dataPath, loadFile).value <==>
      exists i :: 0 <= i < |searchPaths| && loadFile(DataFile(searchPaths[i], dataPath)).Some? &&
        key in loadFile(DataFile(searchPaths[i], dataPath)).value
  {
    var attempts := Attempts(searchPaths, dataPath, loadFile);
    LayeredDomain(attempts, key);
  }

  /**
   * `Loader`: the shared class-wide cache, the search paths its session gives,
   * and the file system as two functions — `loadFile` for reading a JSON file
   * (`None` where it raises IOError) and `versions` for the versioned file names
   * (directory and extension cut off) the glob finds in one directory.
   */
  class Loader<V> {
    const cache: Cache<map<string, V>>
    const searchPaths: seq<string>
    const loadFile: string -> Option<map<string, V>>
    const versions: string -> seq<string>

    constructor(cache: Cache<map<string, V>>, searchPaths: seq<string>,
                loadFile: string -> Option<map<string, V>>, versions: string -> seq<string>)
      ensures this.cache == cache && this.searchPaths == searchPaths
      ensures this.loadFile == loadFile && this.versions == versions
    {
      this.cache := cache;
      this.searchPaths := searchPaths;
      this.loadFile := loadFile;
      this.versions := versions;
    }

    /** What the glob finds for `dataPath` under each search path, in search order. */
    function Listings(dataPath: string): (r: seq<seq<string>>)
      ensures |r| == |searchPaths|
      ensures forall i :: 0 <= i < |searchPaths| ==> r[i] == versions(PosixPath.Join(searchPaths[i], dataPath))
    {
      seq(|searchPaths|, i requires 0 <= i < |searchPaths| => versions(PosixPath.Join(searchPaths[i], dataPath)))
    }

    /** The uncached `get_service_model`: `determine_latest`, then `_get_data` of its answer. */
    function ServiceModel(dataPath: string, apiVersion: Option<string>): (r: Result<map<string, V>, LoaderError>)
      ensures Latest(dataPath, Listings(dataPath), apiVersion).Err? ==> r == Err(ApiVersionNotFound(dataPath, apiVersion))
      ensures Latest(dataPath, Listings(dataPath), apiVersion).Ok? ==>
        r == Loaded(searchPaths, Latest(dataPath, Listings(dataPath), apiVersion).value, loadFile)
    {
      match Latest(dataPath, Listings(dataPath), apiVersion)
      case Err(e) => Err(e)
      case Ok(path) => Loaded(searchPaths, path, loadFile)
    }

    /** `Loader.clear_cache()`. */
    method ClearCache()
      modifies cache
      ensures cache.data == map[]
    {
      cache.Clear();
    }

    /** `Loader.get_data(data_path)`: `_get_data` through the cache, keyed by the data path alone. */
    method GetData(dataPath: string) returns (r: Result<map<string, V>, LoaderError>)
      modifies cache
      ensures dataPath in old(cache.data) ==> r == Ok(old(cache.data)[dataPath]) && cache.data == old(cache.data)
      ensures dataPath !in old(cache.data) ==> r == Loaded(searchPaths, dataPath, loadFile)
      ensures dataPath !in old(cache.data) && r.Ok? ==> cache.data == old(cache.data)[dataPath := r.value]
      ensures dataPath !in old(cache.data) && r.Err? ==> cache.data == old(cache.data)
    {
      KeyWithoutKwargs(dataPath);
      var called;
      r, called := CachedCall(cache, dataPath, Kwargs([], map[]),
        (k: string, kw: Kwargs) => Loaded(searchPaths, k, loadFile));
    }

    /**
     * `Loader.get_service_model(data_path, api_version=...)`: `apiVersion` is
     * `Some(v)` when the keyword is passed, which then becomes part of the key.
     */
    method GetServiceModel(dataPath: string, apiVersion: Option<string>) returns (r: Result<map<string, V>, LoaderError>)
      modifies cache
      ensures var key := ServiceModelKey(dataPath, apiVersion);
        && (key in old(cache.data) ==> r == Ok(old(cache.data)[key]) && cache.data == old(cache.data))
        && (key !in old(cache.data) ==> r == ServiceModel(dataPath, apiVersion))
        && (key !in old(cache.data) && r.Ok? ==> cache.data == old(cache.data)[key := r.value])
        && (key !in old(cache.data) && r.Err? ==> cache.data == old(cache.data))
    {
      var kwargs := ApiVersionKwargs(apiVersion);
      var called;
      r, called := CachedCall(cache, dataPath, kwargs,
        (k: string, kw: Kwargs) => ServiceModel(k, apiVersion));
    }
  }

  /** The keyword arguments of a `get_service_model` call. */
  function ApiVersionKwargs(apiVersion: Option<string>): (k: Kwargs)
    ensures k.Valid()
  {
    match apiVersion
    case None => Kwargs([], map[])
    case Some(v) => Kwargs(["api_version"], map["api_version" := v])
  }

  /** The cache key of `get_service_model`: the data path, then '/api_version/<v>' when pinned. */
  function ServiceModelKey(dataPath: string, apiVersion: Option<string>): (key: string)
    ensures key == KeyFor(dataPath, ApiVersionKwargs(apiVersion))
    ensures apiVersion.None? ==> key == dataPath
    ensures apiVersion.Some? ==> key == dataPath + "/api_version/" + apiVersion.value
  {
    match apiVersion
    case None => dataPath
    case Some(v) =>
      assert Sort(["api_version"]) == ["api_version"];
      assert KeySuffix(["api_version"], map["api_version" := v]) == "/api_version/" + v by {
        assert ["api_version"][..0] == [];
      }
      dataPath + "/api_version/" + v
  }
}

module LoadersExamples {
  import opened Wrappers
  import opened Text
  import opened Ordering
  import opened Loaders
  import PosixPath

  /** The 'aws/rds' version files of the `determine_latest` documentation. */
  const RdsVersions: seq<string> := ["2013-01-10", "2013-02-12", "2013-05-15"]

  /** The data path joined with each version name. */
  lemma RdsPaths()
    ensures PosixPath.Join("aws/rds", "2013-01-10") == "aws/rds/2013-01-10"
    ensures PosixPath.Join("aws/rds", "2013-02-12") == "aws/rds/2013-02-12"
    ensures PosixPath.Join("aws/rds", "2013-05-15") == "aws/rds/2013-05-15"
  {
    PosixPath.JoinRelative("aws/rds", "2013-01-10");
    PosixPath.JoinRelative("aws/rds", "2013-02-12");
    PosixPath.JoinRelative("aws/rds", "2013-05-15");
  }

  /** With the three 'aws/rds' versions, no pin picks the latest. */
  lemma RdsLatest()
    ensures Latest("aws/rds", [RdsVersions], None) == Ok("aws/rds/2013-05-15")
  {
    RdsOptions([RdsVersions]);
    var opts := AllOptions([RdsVersions]);
    RdsLatestOf(opts);
    LatestFound("aws/rds", [RdsVersions], None, "2013-05-15");
    RdsPaths();
  }

  lemma RdsLatestOf(opts: seq<string>)
    requires forall v :: v in opts <==> v in RdsVersions
    ensures BestMatch(opts, None) == Some("2013-05-15")
  {
    LexLessAtDifference("2013-0", "1-10", "5-15");
    LexLessAtDifference("2013-0", "2-12", "5-15");
    GreatestIsBest(opts, "2013-05-15", None);
  }

  /** A pin on an existing version picks exactly it. */
  lemma RdsExact()
    ensures Latest("aws/rds", [RdsVersions], Some("2013-02-12")) == Ok("aws/rds/2013-02-12")
  {
    RdsOptions([RdsVersions]);
    RdsAreVersionNames();
    BestMatchExact(AllOptions([RdsVersions]), "2013-02-12");
    RdsPaths();
  }

  /** A pin between two versions picks the older one. */
  lemma RdsBestOlder()
    ensures Latest("aws/rds", [RdsVersions], Some("2013-01-31")) == Ok("aws/rds/2013-01-10")
  {
    RdsOptions([RdsVersions]);
    RdsBestOlderOf(AllOptions([RdsVersions]));
    RdsPaths();
  }

  lemma RdsBestOlderOf(opts: seq<string>)
    requires forall v :: v in opts <==> v in RdsVersions
    ensures BestMatch(opts, Some("2013-01-31")) == Some("2013-01-10")
  {
    LexLessAtDifference("2013-01-", "10", "31");
    forall x | x in opts && Qualifies(x, Some("2013-01-31")) ensures LexLe(x, "2013-01-10") {
      assert x == "2013-01-10" || x == "2013-02-12" || x == "2013-05-15";
      if x == "2013-02-12" {
        LexLessAtDifference("2013-0", "1-31", "2-12");
        LexLessAsymmetric("2013-01-31", "2013-02-12");
      } else if x == "2013-05-15" {
        LexLessAtDifference("2013-0", "1-31", "5-15");
        LexLessAsymmetric("2013-01-31", "2013-05-15");
      }
    }
    GreatestIsBest(opts, "2013-01-10", Some("2013-01-31"));
  }

  /** A pin older than every version is ApiVersionNotFound. */
  lemma RdsNotFound()
    ensures Latest("aws/rds", [RdsVersions], Some("2010-05-16")) == Err(ApiVersionNotFound("aws/rds", Some("2010-05-16")))
  {
    RdsOptions([RdsVersions]);
    RdsNotFoundOf(AllOptions([RdsVersions]));
  }

  lemma RdsNotFoundOf(opts: seq<string>)
    requires forall v :: v in opts <==> v in RdsVersions
    ensures BestMatch(opts, Some("2010-05-16")) == None
  {
    var pin := "2010-05-16";
    assert pin == "201" + "0-05-16";
    forall x | x in opts ensures !Qualifies(x, Some(pin)) {
      assert x == "2013-01-10" || x == "2013-02-12" || x == "2013-05-15";
      assert |x| == 10 && x[3] == '3';
      assert x == "201" + x[3..];
      LexLessAtDifference("201", "0-05-16", x[3..]);
      assert LexLess(pin, x);
      LexLessAsymmetric(pin, x);
      assert x != pin by { assert x[3] != pin[3]; }
      assert !LexLe(x, pin);
    }
  }

  /** The candidates are the three file names. */
  lemma RdsOptions(listings: seq<seq<string>>)
    requires listings == [RdsVersions]
    ensures forall v :: v in AllOptions(listings) <==> v in RdsVersions
  {
    RdsAreVersionNames();
    forall v ensures v in AllOptions(listings) <==> v in RdsVersions {
      if v in RdsVersions {
        assert listings[0] == RdsVersions;
      }
    }
  }

  /** Each of the three file names is a version name. */
  lemma RdsAreVersionNames()
    ensures forall v :: v in RdsVersions ==> IsVersionName(v)
  {
    forall v | v in RdsVersions ensures IsVersionName(v) {
      assert v == "2013-01-10" || v == "2013-02-12" || v == "2013-05-15";
      assert v == v[..4] + "-" + v[5..7] + "-" + v[8..];
      CountDate(v[..4], v[5..7], v[8..]);
    }
  }

  lemma CountDate(y: string, m: string, d: string)
    requires '-' !in y && '-' !in m && '-' !in d
    ensures Count(y + "-" + m + "-" + d, '-') == 2
  {
    var dm := "-" + m;
    var dd := "-" + d;
    assert y + "-" + m + "-" + d == y + dm + dd;
    CountConcat(y + dm, dd, '-');
    CountConcat(y, dm, '-');
    CountAbsent(y, '-');
    CountAbsent(m, '-');
    CountAbsent(d, '-');
    assert dm[1..] == m;
    assert dd[1..] == d;
    assert Count(dm, '-') == 1;
    assert Count(dd, '-') == 1;
  }
}
