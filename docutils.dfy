/**
 * Helpers of the documentation generator: the Python names and default
 * literals of model types, the official name of a service, the defaults of a
 * documented shape, and the event handler that hides one parameter from the
 * documentation of several operations.
 */
module DocUtils {
  import opened Wrappers
  import opened Text

  // ---- `py_type_name` and `py_default` ----

  /** The model types whose Python type name differs from their own. */
  const TypeNames: map<string, string> := map[
    "blob" := "bytes",
    "character" := "string",
    "double" := "float",
    "long" := "integer",
    "map" := "dict",
    "structure" := "dict",
    "timestamp" := "datetime"]

  /** `py_type_name(type_name)`: the table's entry, or the name itself. */
  function PyTypeName(typeName: string): (r: string)
    ensures typeName in TypeNames ==> r == TypeNames[typeName]
    ensures typeName !in TypeNames ==> r == typeName
  {
    if typeName in TypeNames then TypeNames[typeName] else typeName
  }

  /** No Python type name is itself renamed, so mapping twice is mapping once. */
  lemma PyTypeNameIdempotent(typeName: string)
    ensures PyTypeName(PyTypeName(typeName)) == PyTypeName(typeName)
  {
    forall k | k in TypeNames ensures TypeNames[k] !in TypeNames {
      assert TypeNames[k] in {"bytes", "string", "float", "integer", "dict", "datetime"};
    }
  }

  /** The documented examples: 'list' is unchanged and 'structure' becomes 'dict'. */
  lemma PyTypeNameExamples()
    ensures PyTypeName("list") == "list"
    ensures PyTypeName("structure") == "dict"
  {
  }

  /** The model types that have a default literal in examples. */
  const Defaults: map<string, string> := map[
    "double" := "123.0",
    "long" := "123",
    "integer" := "123",
    "string" := "'string'",
    "blob" := "b'bytes'",
    "boolean" := "True|False",
    "list" := "[...]",
    "map" := "{...}",
    "structure" := "{...}",
    "timestamp" := "datetime(2015, 1, 1)"]

  /** `py_default(type_name)`: the table's literal, or '...'. */
  function PyDefault(typeName: string): (r: string)
    ensures typeName in Defaults ==> r == Defaults[typeName]
    ensures typeName !in Defaults ==> r == "..."
  {
    if typeName in Defaults then Defaults[typeName] else "..."
  }

  /** '...' is the answer exactly for the types without a literal. */
  lemma PyDefaultEllipsisIffUnknown(typeName: string)
    ensures PyDefault(typeName) == "..." <==> typeName !in Defaults
  {
    if typeName in Defaults {
      assert Defaults[typeName] in {"123.0", "123", "'string'", "b'bytes'", "True|False", "[...]", "{...}",
                                    "datetime(2015, 1, 1)"};
    }
  }

  // ---- `get_official_service_name` ----

  /** `None.lower()` raised because a model has an abbreviation but no full name. */
  datatype NameError = MissingServiceFullName

  /** The abbreviation with a leading 'Amazon' and then a leading 'AWS' cut off, with the character after each. */
  function CleanAbbreviation(shortName: string): (r: string)
    ensures |r| <= |shortName|
    ensures !StartsWith(shortName, "Amazon") && !StartsWith(shortName, "AWS") ==> r == shortName
  {
    var withoutAmazon := if StartsWith(shortName, "Amazon") then DropPrefix(shortName, 7) else shortName;
    if StartsWith(withoutAmazon, "AWS") then DropPrefix(withoutAmazon, 4) else withoutAmazon
  }

  /**
   * `get_official_service_name(service_model)` on the model's metadata: the
   * full name, followed by ' (abbreviation)' when the cleaned abbreviation is
   * not empty and not already part of the full name, ignoring ASCII case.
   * Without a full name the answer is `None`, or an error when there is an
   * abbreviation to compare.
   */
  function OfficialServiceName(metadata: map<string, string>): (r: Result<Option<string>, NameError>)
    ensures var short := CleanAbbreviation(if "serviceAbbreviation" in metadata then metadata["serviceAbbreviation"] else "");
      && ("serviceFullName" in metadata ==> r.Ok? && r.value.Some? && StartsWith(r.value.value, metadata["serviceFullName"]))
      && ("serviceFullName" !in metadata ==> (r.Err? <==> short != ""))
      && ("serviceFullName" !in metadata && short == "" ==> r == Ok(None))
  {
    var shortName := CleanAbbreviation(if "serviceAbbreviation" in metadata then metadata["serviceAbbreviation"] else "");
    if "serviceFullName" !in metadata then
      if shortName != "" then Err(MissingServiceFullName) else Ok(None)
    else
      var officialName := metadata["serviceFullName"];
      if shortName != "" && !Contains(Lower(officialName), Lower(shortName)) then
        var r := officialName + " (" + shortName + ")";
        assert r[..|officialName|] == officialName;
        Ok(Some(r))
      else Ok(Some(officialName))
  }

  /**
   * For any metadata with a full name: the cleaned abbreviation is appended in
   * parentheses exactly when it is not empty and not already part of the full
   * name, ignoring ASCII case; otherwise the official name is the full name.
   */
  lemma OfficialNameSuffix(metadata: map<string, string>)
    requires "serviceFullName" in metadata
    ensures var r := OfficialServiceName(metadata);
      var fullName := metadata["serviceFullName"];
      var short := CleanAbbreviation(if "serviceAbbreviation" in metadata then metadata["serviceAbbreviation"] else "");
      && r.Ok? && r.value.Some?
      && (short != "" && !Contains(Lower(fullName), Lower(short)) ==> r.value.value == fullName + " (" + short + ")")
      && (short == "" || Contains(Lower(fullName), Lower(short)) ==> r.value.value == fullName)
  {
  }

  /** Without an abbreviation, whatever else the metadata holds, the official name is the full name. */
  lemma OfficialNameWithoutAbbreviation(metadata: map<string, string>)
    requires "serviceFullName" in metadata && "serviceAbbreviation" !in metadata
    ensures OfficialServiceName(metadata) == Ok(Some(metadata["serviceFullName"]))
  {
  }

  /**
   * 'Amazon' and the character after it are cut off, then 'AWS' and the
   * character after it, in that order; both cuts can apply to one name.
   */
  lemma CleanAbbreviationPrefixes(rest: string, c: char)
    ensures !StartsWith(rest, "AWS") ==> CleanAbbreviation("Amazon " + rest) == rest
    ensures !StartsWith(rest, "AWS") ==> CleanAbbreviation("Amazon" + [c] + rest) == rest
    ensures CleanAbbreviation("Amazon AWS " + rest) == rest
    ensures CleanAbbreviation("AWS " + rest) == rest
    ensures CleanAbbreviation("Amazon") == ""
  {
    var a := "Amazon" + [c] + rest;
    assert a[..6] == "Amazon";
    assert a[7..] == rest;
    assert "Amazon " + rest == "Amazon" + [' '] + rest;
    var w := "AWS " + rest;
    assert w[..3] == "AWS";
    assert w[4..] == rest;
    assert w[1] != "Amazon"[1];
    assert !StartsWith(w, "Amazon");
    var b := "Amazon AWS " + rest;
    assert b[..6] == "Amazon";
    assert b[7..] == w;
    assert "Amazon"[..6] == "Amazon";
  }

  // ---- `DocumentedShape` ----

  /** `DocumentedShape`: a shape injected into a model for documentation. */
  datatype DocumentedShape = DocumentedShape(
    name: string,
    typeName: string,
    documentation: string,
    metadata: seq<string>,
    members: seq<string>,
    requiredMembers: seq<string>)

  /** `DocumentedShape.__new__`: a missing `metadata`, `members` or `required_members` becomes an empty list. */
  function NewDocumentedShape(name: string, typeName: string, documentation: string,
                              metadata: Option<seq<string>>, members: Option<seq<string>>,
                              requiredMembers: Option<seq<string>>): (r: DocumentedShape)
    ensures r.name == name && r.typeName == typeName && r.documentation == documentation
    ensures metadata.None? ==> r.metadata == []
    ensures metadata.Some? ==> r.metadata == metadata.value
    ensures members.None? ==> r.members == []
    ensures members.Some? ==> r.members == members.value
    ensures requiredMembers.None? ==> r.requiredMembers == []
    ensures requiredMembers.Some? ==> r.requiredMembers == requiredMembers.value
  {
    DocumentedShape(name, typeName, documentation,
      if metadata.None? then [] else metadata.value,
      if members.None? then [] else members.value,
      if requiredMembers.None? then [] else requiredMembers.value)
  }

  // ---- `HideParamFromOperations` ----

  const ParamsPrefix := "docs.request-params."
  const ExamplePrefix := "docs.request-example."
  const CompleteSection := ".complete-section"

  /** `'docs.request-params.%s.%s.complete-section' % (service_name, name)`. */
  function ParamsEvent(serviceName: string, operationName: string): string
  {
    ParamsPrefix + serviceName + "." + operationName + CompleteSection
  }

  /** `'docs.request-example.%s.%s.complete-section' % (service_name, name)`. */
  function ExampleEvent(serviceName: string, operationName: string): string
  {
    ExamplePrefix + serviceName + "." + operationName + CompleteSection
  }

  /** Each operation of a service has its own event name of each kind. */
  lemma EventsPerOperation(serviceName: string, op1: string, op2: string)
    ensures ParamsEvent(serviceName, op1) == ParamsEvent(serviceName, op2) <==> op1 == op2
    ensures ExampleEvent(serviceName, op1) == ExampleEvent(serviceName, op2) <==> op1 == op2
  {
    var p := ParamsPrefix + serviceName + ".";
    var e := ExamplePrefix + serviceName + ".";
    assert ParamsEvent(serviceName, op1) == p + op1 + CompleteSection;
    assert ParamsEvent(serviceName, op2) == p + op2 + CompleteSection;
    assert ExampleEvent(serviceName, op1) == e + op1 + CompleteSection;
    assert ExampleEvent(serviceName, op2) == e + op2 + CompleteSection;
    MiddleDetermined(p, op1, op2, CompleteSection);
    MiddleDetermined(e, op1, op2, CompleteSection);
  }

  lemma MiddleDetermined(pre: string, a: string, b: string, post: string)
    ensures pre + a + post == pre + b + post <==> a == b
  {
    if pre + a + post == pre + b + post {
      assert |a| == |b|;
      assert (pre + a + post)[|pre|..|pre| + |a|] == a;
      assert (pre + b + post)[|pre|..|pre| + |b|] == b;
    }
  }

  /** A parameter event is never an example event. */
  lemma ParamsEventIsNotExampleEvent(s1: string, op1: string, s2: string, op2: string)
    ensures ParamsEvent(s1, op1) != ExampleEvent(s2, op2)
  {
    assert ParamsEvent(s1, op1)[13] == 'p';
    assert ExampleEvent(s2, op2)[13] == 'e';
  }

  /** `section.delete_section(name)` on the list of available section names. */
  function Without(available: seq<string>, name: string): (r: seq<string>)
    ensures name !in r
    ensures forall x :: x in r <==> x in available && x != name
    ensures name !in available ==> r == available
  {
    if |available| == 0 then []
    else if available[0] == name then Without(available[1..], name)
    else
      assert available == [available[0]] + available[1..];
      [available[0]] + Without(available[1..], name)
  }

  /**
   * A documentation section, seen through the names of its subsections;
   * `structureValue` is its 'structure-value' subsection, where it has one.
   */
  class DocSection {
    var available: seq<string>
    const structureValue: DocSection?

    constructor(available: seq<string>, structureValue: DocSection?)
      ensures this.available == available && this.structureValue == structureValue
    {
      this.available := available;
      this.structureValue := structureValue;
    }

    method DeleteSection(name: string)
      modifies this
      ensures available == Without(old(available), name)
    {
      available := Without(available, name);
    }
  }

  /** Which section `hide_param` acts on for an event. */
  datatype HideTarget = Ignore | OwnSection | StructureValue

  function Target(eventName: string, paramsEvents: set<string>, exampleEvents: set<string>): (t: HideTarget)
    ensures t == StructureValue <==> eventName in exampleEvents
    ensures t == OwnSection <==> eventName !in exampleEvents && eventName in paramsEvents
    ensures t == Ignore <==> eventName !in exampleEvents && eventName !in paramsEvents
  {
    if eventName in exampleEvents then StructureValue
    else if eventName !in paramsEvents then Ignore
    else OwnSection
  }

  /** `HideParamFromOperations(service_name, parameter_name, operation_names)`. */
  class HideParamFromOperations {
    const parameterName: string
    var paramsEvents: set<string>
    var exampleEvents: set<string>

    /** One params event and one example event per operation name. */
    constructor(serviceName: string, parameterName: string, operationNames: seq<string>)
      ensures this.parameterName == parameterName
      ensures paramsEvents == set op | op in operationNames :: ParamsEvent(serviceName, op)
      ensures exampleEvents == set op | op in operationNames :: ExampleEvent(serviceName, op)
    {
      this.parameterName := parameterName;
      paramsEvents := {};
      exampleEvents := {};
      new;
      var i := 0;
      while i < |operationNames|
        invariant 0 <= i <= |operationNames|
        invariant paramsEvents == set op | op in operationNames[..i] :: ParamsEvent(serviceName, op)
        invariant exampleEvents == set op | op in operationNames[..i] :: ExampleEvent(serviceName, op)
      {
        var name := operationNames[i];
        assert operationNames[..i + 1] == operationNames[..i] + [name];
        paramsEvents := paramsEvents + {ParamsEvent(serviceName, name)};
        exampleEvents := exampleEvents + {ExampleEvent(serviceName, name)};
        i := i + 1;
      }
      assert operationNames[..i] == operationNames;
    }

    /**
     * `hide_param(event_name, section)`: for an example event the parameter is
     * removed from the section's structure value, for a params event from the
     * section itself, and only if it is there; other events change nothing.
     */
    method HideParam(eventName: string, section: DocSection)
      requires eventName in exampleEvents ==> section.structureValue != null
      modifies section, section.structureValue
      ensures var t := Target(eventName, paramsEvents, exampleEvents);
        && (t == Ignore ==> section.available == old(section.available)
                            && (section.structureValue != null ==>
                                section.structureValue.available == old(section.structureValue.available)))
        && (t == OwnSection ==> section.available == Without(old(section.available), parameterName)
                                && (section.structureValue != null && section.structureValue != section ==>
                                    section.structureValue.available == old(section.structureValue.available)))
        && (t == StructureValue ==>
              section.structureValue.available == Without(old(section.structureValue.available), parameterName)
              && (section.structureValue != section ==> section.available == old(section.available)))
    {
      var target := section;
      if eventName in exampleEvents {
        target := section.structureValue;
      } else if eventName !in paramsEvents {
        return;
      }
      if parameterName in target.available {
        target.DeleteSection(parameterName);
      }
    }
  }
}
