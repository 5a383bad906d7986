/**
 * `split_path` of the resource-file adapter: a path is peeled from the right
 * with `os.path.split`, each non-empty tail being inserted at the front of an
 * accumulator list that the recursion shares.
 */
module ResourceFileAdapter {
  import opened Text
  import opened Wrappers
  import PosixPath

  /** The mutable Python list that `split_path` fills in place. */
  class StringList {
    var items: seq<string>

    constructor()
      ensures items == []
    {
      items := [];
    }

    /** `list.insert(0, s)`. */
    method InsertFront(s: string)
      modifies this
      ensures items == [s] + old(items)
    {
      items := [s] + items;
    }
  }

  /** The paths on which the recursion of `split_path` terminates: those not starting with "//". */
  predicate Terminates(path: string)
  {
    !StartsWith(path, "//")
  }

  /** The components `split_path` produces, following its recursion. */
  function Components(path: string): (r: seq<string>)
    requires Terminates(path)
    decreases |path|
  {
    var (head, tail) := PosixPath.Split(path);
    var last := if tail != "" then [tail] else [];
    if head == "" || head == "/" then last
    else
      HeadProgress(path);
      Components(head) + last
  }

  /** The non-empty fields of `path.split('/')`: the independent description of the components. */
  function Segments(path: string): seq<string>
  {
    NonEmpty(SplitOn(path, '/'))
  }

  function NonEmpty(fields: seq<string>): (r: seq<string>)
    ensures forall k :: 0 <= k < |r| ==> r[k] != ""
  {
    if |fields| == 0 then []
    else (if fields[0] != "" then [fields[0]] else []) + NonEmpty(fields[1..])
  }

  /**
   * `split_path(path, parts)`. A missing accumulator is replaced by a fresh
   * list; a supplied one is extended in place and returned.
   */
  method SplitPath(path: string, parts: StringList?) returns (r: StringList)
    requires Terminates(path)
    modifies parts
    decreases |path|
    ensures parts != null ==> r == parts
    ensures parts == null ==> fresh(r)
    ensures r.items == Components(path) + (if parts != null then old(parts.items) else [])
  {
    var acc := parts;
    if acc == null {
      acc := new StringList();
    }
    var (head, tail) := PosixPath.Split(path);
    ComponentsStep(path);
    if tail != "" {
      acc.InsertFront(tail);
    }
    if head == "" || head == "/" {
      return acc;
    }
    HeadProgress(path);
    r := SplitPath(head, acc);
  }

  /** One step of the recursion: the components of the head, then a non-empty tail. */
  lemma ComponentsStep(path: string)
    requires Terminates(path)
    ensures var (head, tail) := PosixPath.Split(path);
      var last := if tail != "" then [tail] else [];
      && (head == "" || head == "/" ==> Components(path) == last)
      && (head != "" && head != "/" ==> Terminates(head) && |head| < |path| && Components(path) == Components(head) + last)
  {
    var (head, tail) := PosixPath.Split(path);
    if head != "" && head != "/" {
      HeadProgress(path);
    }
  }

  /** When the recursion continues, the head is shorter and again a terminating path. */
  lemma HeadProgress(path: string)
    requires Terminates(path)
    requires PosixPath.Split(path).0 != "" && PosixPath.Split(path).0 != "/"
    ensures |PosixPath.Split(path).0| < |path|
    ensures Terminates(PosixPath.Split(path).0)
  {
    var i := PosixPath.LastSepEnd(path);
    var pre := path[..i];
    var head := PosixPath.Split(path).0;
    assert |pre| >= 2 ==> path[..2] == pre[..2];
    assert |pre| == 1 && PosixPath.AllSlashes(pre) ==> pre == "/";
    assert !PosixPath.AllSlashes(pre);
    assert path[i - 1] == '/';
    assert |head| < |pre|;
    assert head == path[..|head|];
    PrefixStartsWith(path, head, "//");
  }

  lemma PrefixStartsWith(s: string, pre: string, q: string)
    requires |pre| <= |s| && pre == s[..|pre|]
    ensures StartsWith(pre, q) ==> StartsWith(s, q)
  {
    if StartsWith(pre, q) { assert s[..|q|] == pre[..|q|]; }
  }

  lemma {:induction false} NonEmptyConcat(a: seq<string>, b: seq<string>)
    ensures NonEmpty(a + b) == NonEmpty(a) + NonEmpty(b)
  {
    if |a| > 0 {
      assert (a + b)[1..] == a[1..] + b;
      NonEmptyConcat(a[1..], b);
    } else {
      assert a + b == b;
    }
  }

  /** Trailing slashes only add empty fields. */
  lemma {:induction false} SegmentsTrailingSlashes(s: string)
    ensures Segments(PosixPath.RStripSlashes(s)) == Segments(s)
    decreases |s|
  {
    if |s| > 0 && s[|s| - 1] == '/' {
      var pre := s[..|s| - 1];
      SegmentsTrailingSlashes(pre);
      assert s == pre + ['/'] + "";
      SplitConcat(pre, '/', "");
      NonEmptyConcat(SplitOn(pre, '/'), [""]);
    }
  }

  lemma {:induction false} SegmentsAllSlashes(s: string)
    requires PosixPath.AllSlashes(s)
    ensures Segments(s) == []
    decreases |s|
  {
    if |s| > 0 {
      var pre := s[..|s| - 1];
      SegmentsAllSlashes(pre);
      assert s == pre + ['/'] + "";
      SplitConcat(pre, '/', "");
      NonEmptyConcat(SplitOn(pre, '/'), [""]);
    }
  }

  /** The part of the path up to its last separator has the same segments as the split's head. */
  lemma SegmentsHead(path: string)
    ensures Segments(PosixPath.Split(path).0) == Segments(path[..PosixPath.LastSepEnd(path)])
  {
    var pre := path[..PosixPath.LastSepEnd(path)];
    if pre != "" && !PosixPath.AllSlashes(pre) {
      SegmentsTrailingSlashes(pre);
    }
  }

  /** Peeling one step: the segments of a path are those of its head followed by its tail, if any. */
  lemma SegmentsSplit(path: string)
    ensures Segments(path) == Segments(PosixPath.Split(path).0)
      + (if PosixPath.Split(path).1 != "" then [PosixPath.Split(path).1] else [])
  {
    var i := PosixPath.LastSepEnd(path);
    var tail := path[i..];
    assert PosixPath.Split(path).1 == tail;
    SplitNoSep(tail, '/');
    SegmentsHead(path);
    if i == 0 {
      assert path == tail;
      assert Segments("") == [];
    } else {
      SegmentsAtSep(path[..i - 1], tail);
      assert path == path[..i - 1] + ['/'] + tail;
      assert path[..i] == path[..i - 1] + ['/'] + "";
    }
  }

  lemma SegmentsAtSep(pre: string, tail: string)
    requires '/' !in tail
    ensures Segments(pre + ['/'] + tail) == Segments(pre + ['/'] + "") + (if tail != "" then [tail] else [])
  {
    SplitNoSep(tail, '/');
    SplitConcat(pre, '/', tail);
    SplitConcat(pre, '/', "");
    NonEmptyConcat(SplitOn(pre, '/'), [tail]);
    NonEmptyConcat(SplitOn(pre, '/'), [""]);
  }

  /** `split_path` yields exactly the non-empty '/'-separated fields of the path, left to right. */
  lemma {:induction false} ComponentsAreSegments(path: string)
    requires Terminates(path)
    ensures Components(path) == Segments(path)
    decreases |path|
  {
    var (head, tail) := PosixPath.Split(path);
    SegmentsSplit(path);
    if head == "" || head == "/" {
      assert Segments(head) == [] by {
        if head == "/" { SegmentsAllSlashes(head); }
      }
    } else {
      HeadProgress(path);
      ComponentsAreSegments(head);
    }
  }

  /** No component is empty and none contains a separator. */
  lemma ComponentsWellFormed(path: string)
    requires Terminates(path)
    ensures forall k :: 0 <= k < |Components(path)| ==>
      Components(path)[k] != "" && '/' !in Components(path)[k]
  {
    ComponentsAreSegments(path);
    SplitFieldsFree(path, '/');
    NonEmptySubset(SplitOn(path, '/'));
  }

  lemma {:induction false} NonEmptySubset(fields: seq<string>)
    ensures forall f :: f in NonEmpty(fields) ==> f in fields
  {
    if |fields| > 0 { NonEmptySubset(fields[1..]); }
  }

  // ---- The recursion as written, which does not stop on a head of two or more slashes ----

  /** `split_path` as written, run for at most `fuel` recursive calls; `None` means the calls ran out. */
  function SplitPathAsWritten(path: string, fuel: nat): Option<seq<string>>
    decreases fuel
  {
    if fuel == 0 then None
    else
      var (head, tail) := PosixPath.Split(path);
      var last := if tail != "" then [tail] else [];
      if head == "" || head == "/" then Some(last)
      else match SplitPathAsWritten(head, fuel - 1)
        case None => None
        case Some(c) => Some(c + last)
  }

  /** On "//x" the head "//" splits into itself, so no amount of recursion finishes. */
  lemma {:induction false} SplitPathAsWrittenDiverges(fuel: nat)
    ensures SplitPathAsWritten("//x", fuel) == None
  {
    DoubleSlashSplits();
    if fuel > 0 { DoubleSlashNeverStops(fuel - 1); }
  }

  lemma {:induction false} DoubleSlashNeverStops(fuel: nat)
    ensures SplitPathAsWritten("//", fuel) == None
  {
    DoubleSlashSplits();
    if fuel > 0 { DoubleSlashNeverStops(fuel - 1); }
  }

  lemma DoubleSlashSplits()
    ensures PosixPath.Split("//") == ("//", "")
    ensures PosixPath.Split("//x") == ("//", "x")
  {
    assert "//"[..1] == "/";
    assert "//"[..2] == "//" && "//"[2..] == "";
    assert PosixPath.AllSlashes("//");
    assert "//x"[..2] == "//";
    assert PosixPath.LastSepEnd("//") == 2;
    assert PosixPath.LastSepEnd("//x") == 2;
    assert "//x"[..2] == "//" && "//x"[2..] == "x";
    assert PosixPath.AllSlashes("//");
  }

  /** The evidently intended recursion: stop at an empty head or a head made only of slashes. */
  function SplitPathFixed(path: string): (r: seq<string>)
    decreases |path|
  {
    var (head, tail) := PosixPath.Split(path);
    var last := if tail != "" then [tail] else [];
    if head == "" || PosixPath.AllSlashes(head) then last
    else
      FixedHeadShorter(path);
      SplitPathFixed(head) + last
  }

  lemma FixedHeadShorter(path: string)
    requires PosixPath.Split(path).0 != "" && !PosixPath.AllSlashes(PosixPath.Split(path).0)
    ensures |PosixPath.Split(path).0| < |path|
  {
    var i := PosixPath.LastSepEnd(path);
    assert path[i - 1] == '/';
  }

  /** The corrected recursion terminates on every path and yields its non-empty fields. */
  lemma {:induction false} SplitPathFixedSegments(path: string)
    ensures SplitPathFixed(path) == Segments(path)
    decreases |path|
  {
    var (head, tail) := PosixPath.Split(path);
    SegmentsSplit(path);
    if head == "" || PosixPath.AllSlashes(head) {
      SegmentsAllSlashes(head);
    } else {
      FixedHeadShorter(path);
      SplitPathFixedSegments(head);
    }
  }

  /** On the paths where the original recursion stops, the corrected one agrees with it. */
  lemma SplitPathFixedAgrees(path: string)
    requires Terminates(path)
    ensures SplitPathFixed(path) == Components(path)
  {
    SplitPathFixedSegments(path);
    ComponentsAreSegments(path);
  }
}
