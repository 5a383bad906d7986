/**
 * The shared-example serialiser of the docs: it turns the parameters of a
 * documented example (a JSON-like tree) into Python-literal text, one entry
 * per line, each line followed by the comment that the example attaches to
 * that entry's path.
 */
module SharedExample {
  import opened Wrappers
  import opened Text

  /**
   * A value of an example: a dict (its entries in iteration order), a list, a
   * string, or any other scalar, given as the text `str` makes of it.
   */
  datatype Value =
    | Dict(entries: seq<(string, Value)>)
    | List(items: seq<Value>)
    | Str(s: string)
    | Scalar(text: string)

  /** The path joined, with one leading '.' removed. */
  function CommentKey(path: seq<string>): (key: string)
    ensures var joined := Join(path, "");
      && (StartsWith(joined, ".") ==> "." + key == joined)
      && (!StartsWith(joined, ".") ==> key == joined)
  {
    var joined := Join(path, "");
    if |joined| > 0 && joined[0] == '.' then
      assert "." + joined[1..] == joined;
      joined[1..]
    else joined
  }

  /** `_apply_comment(path)`: the comment for the entry at `path`, or nothing. */
  function ApplyComment(path: seq<string>, comments: Option<map<string, string>>): (r: string)
    ensures comments.Some? && CommentKey(path) in comments.value ==> r == "# " + comments.value[CommentKey(path)]
    ensures comments.None? || CommentKey(path) !in comments.value ==> r == ""
  {
    if comments.Some? && CommentKey(path) in comments.value then "# " + comments.value[CommentKey(path)] else ""
  }

  // ---- What `_visit` and its helpers return ----

  /** `_visit(value, indent, path)` with `is_param` false: by the value's type. */
  function Render(v: Value, indent: string, path: seq<string>, comments: Option<map<string, string>>): string
    decreases v, 3
  {
    match v
    case Dict(_) => RenderStruct(v, indent, path, comments)
    case List(_) => RenderList(v, indent, path, comments)
    case Str(s) => "'" + s + "'"
    case Scalar(t) => t
  }

  /** `_visit_param`: `(`, one `key=value, comment` line per entry, and `)` at the current indent. */
  function RenderParam(v: Value, indent: string, path: seq<string>, comments: Option<map<string, string>>): string
    requires v.Dict?
    decreases v, 2
  {
    Join(["("] + ParamLines(v, indent, path, comments) + [indent + ")"], "\n")
  }

  /** `_visit_struct`: `{`, one `'key': value, comment` line per entry, and `}` at the current indent. */
  function RenderStruct(v: Value, indent: string, path: seq<string>, comments: Option<map<string, string>>): string
    requires v.Dict?
    decreases v, 2
  {
    Join(["{"] + StructLines(v, indent, path, comments) + [indent + "}"], "\n")
  }

  /** `_visit_list`: `[`, one `value, comment` line per item, and `]` at the current indent. */
  function RenderList(v: Value, indent: string, path: seq<string>, comments: Option<map<string, string>>): string
    requires v.List?
    decreases v, 2
  {
    Join(["["] + ListLines(v, indent, path, comments) + [indent + "]"], "\n")
  }

  function ParamLines(v: Value, indent: string, path: seq<string>, comments: Option<map<string, string>>)
    : (r: seq<string>)
    requires v.Dict?
    ensures |r| == |v.entries|
    decreases v, 1
  {
    seq(|v.entries|, i requires 0 <= i < |v.entries| => ParamLine(v, i, indent, path, comments))
  }

  function StructLines(v: Value, indent: string, path: seq<string>, comments: Option<map<string, string>>)
    : (r: seq<string>)
    requires v.Dict?
    ensures |r| == |v.entries|
    decreases v, 1
  {
    seq(|v.entries|, i requires 0 <= i < |v.entries| => StructLine(v, i, indent, path, comments))
  }

  function ListLines(v: Value, indent: string, path: seq<string>, comments: Option<map<string, string>>)
    : (r: seq<string>)
    requires v.List?
    ensures |r| == |v.items|
    decreases v, 1
  {
    seq(|v.items|, i requires 0 <= i < |v.items| => ListLine(v, i, indent, path, comments))
  }

  /** The path segment of a dict entry. */
  function KeySegment(key: string): string
  {
    "." + key
  }

  /** The path segment of a list item. */
  function IndexSegment(i: nat): string
  {
    "[" + NatToString(i) + "]"
  }

  function ParamLine(v: Value, i: nat, indent: string, path: seq<string>, comments: Option<map<string, string>>)
    : string
    requires v.Dict? && i < |v.entries|
    decreases v, 0
  {
    var key := v.entries[i].0;
    var here := path + [KeySegment(key)];
    indent + "    " + key + "=" + Render(v.entries[i].1, "    " + indent, here, comments) + ", "
      + ApplyComment(here, comments)
  }

  function StructLine(v: Value, i: nat, indent: string, path: seq<string>, comments: Option<map<string, string>>)
    : string
    requires v.Dict? && i < |v.entries|
    decreases v, 0
  {
    var key := v.entries[i].0;
    var here := path + [KeySegment(key)];
    indent + "    '" + key + "': " + Render(v.entries[i].1, "    " + indent, here, comments) + ", "
      + ApplyComment(here, comments)
  }

  function ListLine(v: Value, i: nat, indent: string, path: seq<string>, comments: Option<map<string, string>>)
    : string
    requires v.List? && i < |v.items|
    decreases v, 0
  {
    var here := path + [IndexSegment(i)];
    indent + "    " + Render(v.items[i], "    " + indent, here, comments) + ", " + ApplyComment(here, comments)
  }

  // ---- The builder ----

  /** The `path` list the visitors share: each entry pushes its segment and pops it again. */
  class PathStack {
    var segments: seq<string>

    constructor()
      ensures segments == []
    {
      segments := [];
    }

    /** `path.append(segment)`. */
    method Append(segment: string)
      modifies this
      ensures segments == old(segments) + [segment]
    {
      segments := segments + [segment];
    }

    /** `path.pop()`. */
    method Pop()
      requires |segments| > 0
      modifies this
      ensures segments == old(segments)[..|old(segments)| - 1]
    {
      segments := segments[..|segments| - 1];
    }
  }

  /** `SharedExampleBuilder(params, operation_name, comments, is_input)`. */
  class SharedExampleBuilder {
    const params: Value
    const operationName: string
    const comments: Option<map<string, string>>
    const isInput: bool

    constructor(params: Value, operationName: string, comments: Option<map<string, string>>, isInput: bool)
      ensures this.params == params && this.operationName == operationName
      ensures this.comments == comments && this.isInput == isInput
    {
      this.params := params;
      this.operationName := operationName;
      this.comments := comments;
      this.isInput := isInput;
    }

    /**
     * `example_code(prefix)`: an input example is the prefix followed by the
     * parameters as call arguments (so they must be a dict); an output example
     * is the value alone, without the prefix.
     */
    method ExampleCode(prefix: string) returns (r: string)
      requires isInput ==> params.Dict?
      ensures isInput ==> r == prefix + RenderParam(params, "", [], comments)
      ensures !isInput ==> r == Render(params, "", [], comments)
    {
      var path := new PathStack();
      if isInput {
        var code := Visit(params, "", path, true);
        r := prefix + code;
      } else {
        r := Visit(params, "", path, false);
      }
    }

    /** `_visit(value, indent, path, is_param)`. */
    method Visit(value: Value, indent: string, path: PathStack, isParam: bool) returns (r: string)
      requires isParam ==> value.Dict?
      modifies path
      ensures path.segments == old(path.segments)
      ensures isParam ==> r == RenderParam(value, indent, old(path.segments), comments)
      ensures !isParam ==> r == Render(value, indent, old(path.segments), comments)
      decreases value, 2
    {
      if isParam {
        r := VisitParam(value, indent, path);
        return;
      }
      match value
      case Dict(_) => r := VisitStruct(value, indent, path);
      case List(_) => r := VisitList(value, indent, path);
      case Str(s) => r := "'" + s + "'";
      case Scalar(t) => r := t;
    }

    /** `_visit_param(value, indent, path)`. */
    method VisitParam(value: Value, indent: string, path: PathStack) returns (r: string)
      requires value.Dict?
      modifies path
      ensures path.segments == old(path.segments)
      ensures r == RenderParam(value, indent, old(path.segments), comments)
      decreases value, 1
    {
      ghost var base := path.segments;
      var lines := ["("];
      var i := 0;
      while i < |value.entries|
        invariant 0 <= i <= |value.entries|
        invariant path.segments == base
        invariant lines == ["("] + ParamLines(value, indent, base, comments)[..i]
      {
        var (key, val) := value.entries[i];
        path.Append(KeySegment(key));
        var comment := ApplyComment(path.segments, comments);
        var shapeVal := Visit(val, "    " + indent, path, false);
        lines := lines + [indent + "    " + key + "=" + shapeVal + ", " + comment];
        path.Pop();
        assert path.segments == base;
        assert ParamLines(value, indent, base, comments)[..i + 1]
            == ParamLines(value, indent, base, comments)[..i] + [ParamLine(value, i, indent, base, comments)];
        i := i + 1;
      }
      assert ParamLines(value, indent, base, comments)[..i] == ParamLines(value, indent, base, comments);
      lines := lines + [indent + ")"];
      r := Join(lines, "\n");
    }

    /** `_visit_struct(value, indent, path)`. */
    method VisitStruct(value: Value, indent: string, path: PathStack) returns (r: string)
      requires value.Dict?
      modifies path
      ensures path.segments == old(path.segments)
      ensures r == RenderStruct(value, indent, old(path.segments), comments)
      decreases value, 1
    {
      ghost var base := path.segments;
      var lines := ["{"];
      var i := 0;
      while i < |value.entries|
        invariant 0 <= i <= |value.entries|
        invariant path.segments == base
        invariant lines == ["{"] + StructLines(value, indent, base, comments)[..i]
      {
        var (key, val) := value.entries[i];
        path.Append(KeySegment(key));
        var comment := ApplyComment(path.segments, comments);
        var shapeVal := Visit(val, "    " + indent, path, false);
        lines := lines + [indent + "    '" + key + "': " + shapeVal + ", " + comment];
        path.Pop();
        assert path.segments == base;
        assert StructLines(value, indent, base, comments)[..i + 1]
            == StructLines(value, indent, base, comments)[..i] + [StructLine(value, i, indent, base, comments)];
        i := i + 1;
      }
      assert StructLines(value, indent, base, comments)[..i] == StructLines(value, indent, base, comments);
      lines := lines + [indent + "}"];
      r := Join(lines, "\n");
    }

    /** `_visit_list(value, indent, path)`. */
    method VisitList(value: Value, indent: string, path: PathStack) returns (r: string)
      requires value.List?
      modifies path
      ensures path.segments == old(path.segments)
      ensures r == RenderList(value, indent, old(path.segments), comments)
      decreases value, 1
    {
      ghost var base := path.segments;
      var lines := ["["];
      var i := 0;
      while i < |value.items|
        invariant 0 <= i <= |value.items|
        invariant path.segments == base
        invariant lines == ["["] + ListLines(value, indent, base, comments)[..i]
      {
        var val := value.items[i];
        path.Append(IndexSegment(i));
        var comment := ApplyComment(path.segments, comments);
        var shapeVal := Visit(val, "    " + indent, path, false);
        lines := lines + [indent + "    " + shapeVal + ", " + comment];
        path.Pop();
        assert path.segments == base;
        assert ListLines(value, indent, base, comments)[..i + 1]
            == ListLines(value, indent, base, comments)[..i] + [ListLine(value, i, indent, base, comments)];
        i := i + 1;
      }
      assert ListLines(value, indent, base, comments)[..i] == ListLines(value, indent, base, comments);
      lines := lines + [indent + "]"];
      r := Join(lines, "\n");
    }
  }

  // ---- Properties of the rendering ----

  /** Each rendering opens with its bracket and closes with the matching one at the current indent. */
  lemma Brackets(v: Value, indent: string, path: seq<string>, comments: Option<map<string, string>>)
    ensures v.Dict? ==> (StartsWith(RenderParam(v, indent, path, comments), "(")
                     && EndsWith(RenderParam(v, indent, path, comments), indent + ")"))
    ensures v.Dict? ==> (StartsWith(RenderStruct(v, indent, path, comments), "{")
                     && EndsWith(RenderStruct(v, indent, path, comments), indent + "}"))
    ensures v.List? ==> (StartsWith(RenderList(v, indent, path, comments), "[")
                     && EndsWith(RenderList(v, indent, path, comments), indent + "]"))
  {
    if v.Dict? {
      JoinEnds(["("] + ParamLines(v, indent, path, comments) + [indent + ")"], "\n");
      JoinEnds(["{"] + StructLines(v, indent, path, comments) + [indent + "}"], "\n");
    }
    if v.List? {
      JoinEnds(["["] + ListLines(v, indent, path, comments) + [indent + "]"], "\n");
    }
  }

  /** A nested dict or list closes four spaces further in than the entry that holds it. */
  lemma NestedCloseIndent(v: Value, i: nat, indent: string, path: seq<string>, comments: Option<map<string, string>>)
    requires v.Dict? && i < |v.entries|
    ensures var child := v.entries[i].1;
      var here := path + [KeySegment(v.entries[i].0)];
      && (child.Dict? ==> EndsWith(Render(child, "    " + indent, here, comments), "    " + indent + "}"))
      && (child.List? ==> EndsWith(Render(child, "    " + indent, here, comments), "    " + indent + "]"))
  {
    Brackets(v.entries[i].1, "    " + indent, path + [KeySegment(v.entries[i].0)], comments);
  }

  /** A string or scalar whose text has no line break. */
  predicate FlatLeaf(v: Value)
  {
    (v.Str? && '\n' !in v.s) || (v.Scalar? && '\n' !in v.text)
  }

  /** No comment text holds a line break. */
  predicate OneLineComments(comments: Option<map<string, string>>)
  {
    comments.Some? ==> forall k :: k in comments.value ==> '\n' !in comments.value[k]
  }

  /**
   * A dict of one-line strings and scalars renders as exactly its lines:
   * splitting the text at line breaks gives the opening bracket, one line per
   * entry in order, and the closing bracket.
   */
  lemma FlatStructLines(v: Value, indent: string, path: seq<string>, comments: Option<map<string, string>>)
    requires v.Dict? && '\n' !in indent && OneLineComments(comments)
    requires forall i :: 0 <= i < |v.entries| ==> '\n' !in v.entries[i].0 && FlatLeaf(v.entries[i].1)
    ensures SplitOn(RenderStruct(v, indent, path, comments), '\n')
         == ["{"] + StructLines(v, indent, path, comments) + [indent + "}"]
    ensures |SplitOn(RenderStruct(v, indent, path, comments), '\n')| == |v.entries| + 2
  {
    var lines := ["{"] + StructLines(v, indent, path, comments) + [indent + "}"];
    forall i | 0 <= i < |lines| ensures '\n' !in lines[i] {
      if i == 0 {
        assert lines[i] == "{";
      } else if i < |lines| - 1 {
        assert lines[i] == StructLine(v, i - 1, indent, path, comments);
      } else {
        assert lines[i] == indent + "}";
      }
    }
    SplitJoin(lines, '\n');
  }

  /** The same for the call arguments of an input example. */
  lemma FlatParamLines(v: Value, indent: string, path: seq<string>, comments: Option<map<string, string>>)
    requires v.Dict? && '\n' !in indent && OneLineComments(comments)
    requires forall i :: 0 <= i < |v.entries| ==> '\n' !in v.entries[i].0 && FlatLeaf(v.entries[i].1)
    ensures SplitOn(RenderParam(v, indent, path, comments), '\n')
         == ["("] + ParamLines(v, indent, path, comments) + [indent + ")"]
    ensures |SplitOn(RenderParam(v, indent, path, comments), '\n')| == |v.entries| + 2
  {
    var lines := ["("] + ParamLines(v, indent, path, comments) + [indent + ")"];
    forall i | 0 <= i < |lines| ensures '\n' !in lines[i] {
      if i == 0 {
        assert lines[i] == "(";
      } else if i < |lines| - 1 {
        assert lines[i] == ParamLine(v, i - 1, indent, path, comments);
      } else {
        assert lines[i] == indent + ")";
      }
    }
    SplitJoin(lines, '\n');
  }

  /** The same for a list of one-line strings and scalars. */
  lemma FlatListLines(v: Value, indent: string, path: seq<string>, comments: Option<map<string, string>>)
    requires v.List? && '\n' !in indent && OneLineComments(comments)
    requires forall i :: 0 <= i < |v.items| ==> FlatLeaf(v.items[i])
    ensures SplitOn(RenderList(v, indent, path, comments), '\n')
         == ["["] + ListLines(v, indent, path, comments) + [indent + "]"]
    ensures |SplitOn(RenderList(v, indent, path, comments), '\n')| == |v.items| + 2
  {
    var lines := ["["] + ListLines(v, indent, path, comments) + [indent + "]"];
    forall i | 0 <= i < |lines| ensures '\n' !in lines[i] {
      if i == 0 {
        assert lines[i] == "[";
      } else if i < |lines| - 1 {
        var here := path + [IndexSegment(i - 1)];
        assert lines[i] == ListLine(v, i - 1, indent, path, comments);
        assert '\n' !in Render(v.items[i - 1], "    " + indent, here, comments);
        assert '\n' !in ApplyComment(here, comments);
      } else {
        assert lines[i] == indent + "]";
      }
    }
    SplitJoin(lines, '\n');
  }

  /** The comment key of a path drops only the first leading dot. */
  lemma CommentKeyExamples()
    ensures CommentKey([".Bucket"]) == "Bucket"
    ensures CommentKey([".Items", "[0]", ".Name"]) == "Items[0].Name"
    ensures CommentKey(["[0]"]) == "[0]"
  {
    assert Join([".Bucket"], "") == ".Bucket";
    assert Join([".Items", "[0]", ".Name"], "") == ".Items[0].Name" by {
      assert [".Items", "[0]", ".Name"][1..] == ["[0]", ".Name"];
      assert ["[0]", ".Name"][1..] == [".Name"];
    }
  }

  /**
   * An input example with one commented string parameter: the prefix, `(`,
   * the argument line with its comment, and `)`.
   */
  lemma OneStringParam(prefix: string, key: string, value: string, comment: string)
    ensures prefix + RenderParam(Dict([(key, Str(value))]), "", [], Some(map[key := comment]))
         == prefix + "(\n    " + key + "='" + value + "', # " + comment + "\n)"
  {
    var line := "    " + key + "='" + value + "', # " + comment;
    OneStringParamLines(key, value, comment);
    assert "(" + "\n" + line + "\n" + ")" == "(\n    " + key + "='" + value + "', # " + comment + "\n)" by {
      assert "(" + "\n" + "    " == "(\n    ";
      assert "\n" + ")" == "\n)";
    }
  }

  /** The rendered call arguments are the three lines `(`, the argument line and `)`, joined. */
  lemma OneStringParamLines(key: string, value: string, comment: string)
    ensures RenderParam(Dict([(key, Str(value))]), "", [], Some(map[key := comment]))
         == "(" + "\n" + ("    " + key + "='" + value + "', # " + comment) + "\n" + ")"
  {
    var params := Dict([(key, Str(value))]);
    var comments := Some(map[key := comment]);
    var line := "    " + key + "='" + value + "', # " + comment;
    assert ParamLines(params, "", [], comments) == [line] by {
      OneStringParamLine(key, value, comment);
    }
    assert ["("] + [line] + ["" + ")"] == ["(", line, ")"] by {
      assert "" + ")" == ")";
    }
    JoinThree("(", line, ")", "\n");
  }

  lemma OneStringParamLine(key: string, value: string, comment: string)
    ensures ParamLine(Dict([(key, Str(value))]), 0, "", [], Some(map[key := comment]))
         == "    " + key + "='" + value + "', # " + comment
  {
    var here: seq<string> := [] + [KeySegment(key)];
    assert Join(here, "") == "." + key;
    assert CommentKey(here) == key by {
      assert ("." + key)[1..] == key;
    }
  }

  /** The whole input example, built by the builder. */
  method BucketExample() returns (code: string)
    ensures code == "response = client.list_objects" + "(\n    " + "Bucket" + "='" + "examplebucket" + "', # "
                    + "the bucket" + "\n)"
  {
    var builder := new SharedExampleBuilder(Dict([("Bucket", Str("examplebucket"))]), "ListObjects",
                                            Some(map["Bucket" := "the bucket"]), true);
    code := builder.ExampleCode("response = client.list_objects");
    OneStringParam("response = client.list_objects", "Bucket", "examplebucket", "the bucket");
  }
}
