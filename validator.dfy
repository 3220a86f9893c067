/**
 * The document checks of v2/pkg/validator/validator.go: version dispatch, the order of the
 * v2 checks, the descent to the first leaf cause of a schema error, the mapping of a
 * schema instance path to a line and column of the document, and the duplicate-variable
 * check. Compiling and running the JSON schema is done by a library and enters as a given
 * outcome.
 */
module Validator {
  import opened Wrappers
  import opened GoStrings
  import opened PorterTypes
  import YamlNode

  /** A `*jsonschema.ValidationError`: where, what, and the errors that caused it. */
  datatype ValidationError = ValidationError(instanceLocation: string, message: string, causes: seq<ValidationError>)

  /** What reading and compiling the schemas and validating the raw document produced. */
  datatype SchemaOutcome =
    | SetupFailed(message: string)      // reading or compiling a schema failed; the message wraps the cause
    | SchemaPassed
    | SchemaInvalid(err: ValidationError)
    | SchemaFailedOtherwise              // validation failed with an error of another type

  /** The `(int, int, error)` result of `getLineColForSchemaInstanceName`. */
  datatype LineCol = LineCol(line: int, column: int, err: Option<LocateError>)

  datatype LocateError = InvalidInstanceName(instanceName: string)   // invalid instance name: <name>

  /** `ValidatorError` of v2/pkg/validator/errors.go: a position, possibly nil, and the error text. */
  datatype ValidatorError = ValidatorError(metadata: Option<YamlNode.YAMLNodeMetadata>, err: string)

  /** The errors `ValidatePorterYAML` returns. */
  datatype ValidateError =
    | InvalidVersion(version: string)        // invalid porter.yaml version: <version>
    | SchemaSetup(message: string)           // error reading/compiling porter_v2...schema.json: <cause>
    | LocateFailed(cause: LocateError)       // error validating porter.yaml: <cause>
    | SchemaReport(report: string)           // error validating porter.yaml against schema: <report>
    | SchemaFailed                           // error validating porter.yaml against schema
    | VariableInvalid(err: ValidatorError)

  // ---------------------------------------------------------------------------------------
  // First-cause descent

  /** `d` is reached from `e` by following `Causes[0]` zero or more times. */
  ghost predicate FirstDescendant(e: ValidationError, d: ValidationError)
    decreases e
  {
    d == e || (|e.causes| > 0 && FirstDescendant(e.causes[0], d))
  }

  /** `getAbsoluteInstanceName`: the instance location of the leaf reached through `Causes[0]`. */
  function GetAbsoluteInstanceName(e: ValidationError): (r: string)
    ensures exists d :: FirstDescendant(e, d) && d.causes == [] && r == d.instanceLocation
    decreases e
  {
    if |e.causes| == 0 then e.instanceLocation else GetAbsoluteInstanceName(e.causes[0])
  }

  /** `getAbsoluteMessage`: the message of the leaf reached through `Causes[0]`. */
  function GetAbsoluteMessage(e: ValidationError): (r: string)
    ensures exists d :: FirstDescendant(e, d) && d.causes == [] && r == d.message
    decreases e
  {
    if |e.causes| == 0 then e.message else GetAbsoluteMessage(e.causes[0])
  }

  /** The first-cause chain ends in exactly one leaf. */
  lemma {:induction false} FirstLeafUnique(e: ValidationError, d1: ValidationError, d2: ValidationError)
    requires FirstDescendant(e, d1) && d1.causes == []
    requires FirstDescendant(e, d2) && d2.causes == []
    ensures d1 == d2
    decreases e
  {
    if d1 != e && d2 != e {
      FirstLeafUnique(e.causes[0], d1, d2);
    }
  }

  /** The location and the message reported for a cause come from the same leaf. */
  lemma SameLeaf(e: ValidationError)
    ensures exists d ::
      && FirstDescendant(e, d) && d.causes == []
      && GetAbsoluteInstanceName(e) == d.instanceLocation && GetAbsoluteMessage(e) == d.message
  {
    var name, message := GetAbsoluteInstanceName(e), GetAbsoluteMessage(e);
    var d1 :| FirstDescendant(e, d1) && d1.causes == [] && name == d1.instanceLocation;
    var d2 :| FirstDescendant(e, d2) && d2.causes == [] && message == d2.message;
    FirstLeafUnique(e, d1, d2);
  }

  // ---------------------------------------------------------------------------------------
  // Instance path -> line and column

  /** The error result: position (-1, -1) and `invalid instance name`. */
  function Unlocated(instanceName: string): LineCol
  {
    LineCol(-1, -1, Some(InvalidInstanceName(instanceName)))
  }

  /** The path segments: a leading `/` is dropped and the rest split at every `/`. */
  function Tree(instanceName: string): (tree: seq<string>)
    ensures |tree| >= 1
  {
    Split(TrimPrefix(instanceName, '/'), '/')
  }

  /** The `variables` case: the index must parse and be in range, the field must be known. */
  function LocateVariable(instanceName: string, tree: seq<string>, vs: seq<Variable>): LineCol
  {
    if |tree| < 2 then Unlocated(instanceName)
    else match Atoi(tree[1])
      case None => Unlocated(instanceName)
      case Some(idx) =>
        if idx < 0 || idx >= |vs| then Unlocated(instanceName)
        else if |tree| > 2 then
          var v := vs[idx];
          if tree[2] == "name" then LineCol(v.name.GetLine(), v.name.GetColumn(), None)
          else if tree[2] == "value" then LineCol(v.value.GetLine(), v.value.GetColumn(), None)
          else if tree[2] == "random" then LineCol(v.random.GetLine(), v.random.GetColumn(), None)
          else if tree[2] == "once" then LineCol(v.once.GetLine(), v.once.GetColumn(), None)
          else Unlocated(instanceName)
        else Unlocated(instanceName)
  }

  /**
   * The `builds` case with the index range checked before `Builds[idx]` is read; an index
   * out of range is an invalid instance name, as in the `variables` case.
   */
  function LocateBuild(instanceName: string, tree: seq<string>, builds: YamlNode.NodeRef<seq<Build>>): LineCol
  {
    if |tree| < 2 then Unlocated(instanceName)
    else match Atoi(tree[1])
      case None => Unlocated(instanceName)
      case Some(idx) =>
        if |tree| > 2 then
          if tree[2] == "method" then
            var bs := builds.GetValue([]);
            if 0 <= idx < |bs| then LineCol(bs[idx].buildMethod.GetLine(), bs[idx].buildMethod.GetColumn(), None)
            else Unlocated(instanceName)
          else Unlocated(instanceName)
        else LineCol(builds.GetLine(), builds.GetColumn(), None)
  }

  /**
   * `getLineColForSchemaInstanceName`, with the `builds/<i>/method` index range checked.
   * The Go check for an empty path list can never fire: splitting yields at least one
   * segment. `env_groups`, `apps`, `addons` and any other head are never located.
   */
  function GetLineColForSchemaInstanceName(instanceName: string, doc: PorterYAML): (r: LineCol)
    ensures r.err.Some? ==> r == Unlocated(instanceName)
    ensures Tree(instanceName)[0] != "variables" && Tree(instanceName)[0] != "builds" ==> r == Unlocated(instanceName)
  {
    var tree := Tree(instanceName);
    if tree[0] == "variables" then LocateVariable(instanceName, tree, doc.variables.GetValue([]))
    else if tree[0] == "builds" then LocateBuild(instanceName, tree, doc.builds)
    else Unlocated(instanceName)
  }

  /** What the `builds` case of the Go code does: return a position, or panic on `Builds[idx]`. */
  datatype Located = Returned(lc: LineCol) | IndexOutOfRange(index: int)

  /** The `builds` case as written: `Builds[idx]` is read with no range check. */
  function LocateBuildAsWritten(instanceName: string, tree: seq<string>, builds: YamlNode.NodeRef<seq<Build>>): Located
  {
    if |tree| < 2 then Returned(Unlocated(instanceName))
    else match Atoi(tree[1])
      case None => Returned(Unlocated(instanceName))
      case Some(idx) =>
        if |tree| > 2 then
          if tree[2] == "method" then
            var bs := builds.GetValue([]);
            if 0 <= idx < |bs| then Returned(LineCol(bs[idx].buildMethod.GetLine(), bs[idx].buildMethod.GetColumn(), None))
            else IndexOutOfRange(idx)
          else Returned(Unlocated(instanceName))
        else Returned(LineCol(builds.GetLine(), builds.GetColumn(), None))
  }

  /** `getLineColForSchemaInstanceName` as written. */
  function GetLineColAsWritten(instanceName: string, doc: PorterYAML): Located
  {
    var tree := Tree(instanceName);
    if tree[0] == "variables" then Returned(LocateVariable(instanceName, tree, doc.variables.GetValue([])))
    else if tree[0] == "builds" then LocateBuildAsWritten(instanceName, tree, doc.builds)
    else Returned(Unlocated(instanceName))
  }

  /**
   * As written, a schema error at `/builds/<i>/method` for a build the document does not
   * have (for instance `/builds/0/method` with no builds) indexes out of range and panics.
   */
  lemma AsWrittenPanics(doc: PorterYAML, i: int)
    requires MinInt <= i <= MaxInt && !(0 <= i < |doc.builds.GetValue([])|)
    ensures GetLineColAsWritten(InstancePath(["builds", IntToString(i), "method"]), doc) == IndexOutOfRange(i)
  {
    var path := InstancePath(["builds", IntToString(i), "method"]);
    IntToStringNoSlash(i);
    TreeOfPath(["builds", IntToString(i), "method"]);
    var tree := Tree(path);
    assert tree[0] == "builds" && tree[1] == IntToString(i) && |tree| == 3 && tree[2] == "method";
    AtoiIntToString(i);
    assert LocateBuildAsWritten(path, tree, doc.builds) == IndexOutOfRange(i);
  }

  /**
   * The checked version returns what the code as written returns whenever the latter does
   * not panic, and reports an invalid instance name where it panics.
   */
  lemma CheckedAgrees(instanceName: string, doc: PorterYAML)
    ensures GetLineColAsWritten(instanceName, doc).Returned? ==>
      GetLineColForSchemaInstanceName(instanceName, doc) == GetLineColAsWritten(instanceName, doc).lc
    ensures GetLineColAsWritten(instanceName, doc).IndexOutOfRange? ==>
      GetLineColForSchemaInstanceName(instanceName, doc) == Unlocated(instanceName)
  {
  }

  /** The instance location `/<segment>/<segment>/...`. */
  function InstancePath(segments: seq<string>): string
    requires |segments| >= 1
  {
    "/" + Join(segments, '/')
  }

  /** An instance location splits back into its segments, none of which holds a '/'. */
  lemma TreeOfPath(segments: seq<string>)
    requires |segments| >= 1 && forall k :: 0 <= k < |segments| ==> '/' !in segments[k]
    ensures Tree(InstancePath(segments)) == segments
  {
    var path := InstancePath(segments);
    assert path[1..] == Join(segments, '/');
    SplitJoin(segments, '/');
  }

  /** The line and column of one field of a variable. */
  function FieldPosition(v: Variable, field: string): LineCol
  {
    if field == "name" then LineCol(v.name.GetLine(), v.name.GetColumn(), None)
    else if field == "value" then LineCol(v.value.GetLine(), v.value.GetColumn(), None)
    else if field == "random" then LineCol(v.random.GetLine(), v.random.GetColumn(), None)
    else LineCol(v.once.GetLine(), v.once.GetColumn(), None)
  }

  /** `/variables/<i>/<field>` for a variable that exists and a known field locates that field. */
  lemma LocateVariableField(doc: PorterYAML, i: int, field: string)
    requires 0 <= i < |doc.variables.GetValue([])| && i <= MaxInt
    requires field == "name" || field == "value" || field == "random" || field == "once"
    ensures GetLineColForSchemaInstanceName(InstancePath(["variables", IntToString(i), field]), doc) ==
      FieldPosition(doc.variables.GetValue([])[i], field)
  {
    var path := InstancePath(["variables", IntToString(i), field]);
    IntToStringNoSlash(i);
    TreeOfPath(["variables", IntToString(i), field]);
    var tree := Tree(path);
    assert |tree| == 3 && tree[0] == "variables" && tree[1] == IntToString(i) && tree[2] == field;
    AtoiIntToString(i);
    assert Atoi(tree[1]) == Some(i);
  }

  /** `/variables/<i>/...` with `i` out of range is never located. */
  lemma LocateVariableOutOfRange(doc: PorterYAML, i: int, field: string)
    requires MinInt <= i <= MaxInt && !(0 <= i < |doc.variables.GetValue([])|)
    requires '/' !in field
    ensures GetLineColForSchemaInstanceName(InstancePath(["variables", IntToString(i), field]), doc) ==
      Unlocated(InstancePath(["variables", IntToString(i), field]))
  {
    var path := InstancePath(["variables", IntToString(i), field]);
    IntToStringNoSlash(i);
    TreeOfPath(["variables", IntToString(i), field]);
    var tree := Tree(path);
    assert |tree| == 3 && tree[0] == "variables" && tree[1] == IntToString(i) && tree[2] == field;
    AtoiIntToString(i);
    assert Atoi(tree[1]) == Some(i);
  }

  /** `/variables/<i>` names a whole variable, which has no position of its own. */
  lemma LocateVariableWhole(doc: PorterYAML, i: int)
    ensures GetLineColForSchemaInstanceName(InstancePath(["variables", IntToString(i)]), doc) ==
      Unlocated(InstancePath(["variables", IntToString(i)]))
  {
    var path := InstancePath(["variables", IntToString(i)]);
    IntToStringNoSlash(i);
    TreeOfPath(["variables", IntToString(i)]);
    var tree := Tree(path);
    assert |tree| == 2 && tree[0] == "variables" && tree[1] == IntToString(i);
  }

  /** `/builds/<i>` locates the builds list itself, whatever the index. */
  lemma LocateBuildsList(doc: PorterYAML, i: int)
    requires MinInt <= i <= MaxInt
    ensures GetLineColForSchemaInstanceName(InstancePath(["builds", IntToString(i)]), doc) ==
      LineCol(doc.builds.GetLine(), doc.builds.GetColumn(), None)
  {
    var path := InstancePath(["builds", IntToString(i)]);
    IntToStringNoSlash(i);
    TreeOfPath(["builds", IntToString(i)]);
    var tree := Tree(path);
    assert |tree| == 2 && tree[0] == "builds" && tree[1] == IntToString(i);
    AtoiIntToString(i);
    assert Atoi(tree[1]) == Some(i);
  }

  /** `/builds/<i>/method` for a build that exists locates its method. */
  lemma LocateBuildMethod(doc: PorterYAML, i: int)
    requires 0 <= i < |doc.builds.GetValue([])| && i <= MaxInt
    ensures GetLineColForSchemaInstanceName(InstancePath(["builds", IntToString(i), "method"]), doc) ==
      LineCol(doc.builds.GetValue([])[i].buildMethod.GetLine(), doc.builds.GetValue([])[i].buildMethod.GetColumn(), None)
  {
    var path := InstancePath(["builds", IntToString(i), "method"]);
    IntToStringNoSlash(i);
    TreeOfPath(["builds", IntToString(i), "method"]);
    var tree := Tree(path);
    assert |tree| == 3 && tree[0] == "builds" && tree[1] == IntToString(i) && tree[2] == "method";
    AtoiIntToString(i);
    assert Atoi(tree[1]) == Some(i);
  }

  /** `/builds/<i>/method` for a build that does not exist is an invalid instance name. */
  lemma LocateBuildMethodOutOfRange(doc: PorterYAML, i: int)
    requires MinInt <= i <= MaxInt && !(0 <= i < |doc.builds.GetValue([])|)
    ensures GetLineColForSchemaInstanceName(InstancePath(["builds", IntToString(i), "method"]), doc) ==
      Unlocated(InstancePath(["builds", IntToString(i), "method"]))
  {
    var path := InstancePath(["builds", IntToString(i), "method"]);
    IntToStringNoSlash(i);
    TreeOfPath(["builds", IntToString(i), "method"]);
    var tree := Tree(path);
    assert |tree| == 3 && tree[0] == "builds" && tree[1] == IntToString(i) && tree[2] == "method";
    AtoiIntToString(i);
    assert Atoi(tree[1]) == Some(i);
  }

  /** `/variables/<seg>/...` with an index that does not parse is never located. */
  lemma LocateVariableBadIndex(doc: PorterYAML, seg: string, rest: seq<string>)
    requires Atoi(seg).None? && '/' !in seg
    requires forall k :: 0 <= k < |rest| ==> '/' !in rest[k]
    ensures GetLineColForSchemaInstanceName(InstancePath(["variables", seg] + rest), doc) ==
      Unlocated(InstancePath(["variables", seg] + rest))
  {
    var segments := ["variables", seg] + rest;
    TreeOfPath(segments);
    assert Tree(InstancePath(segments))[1] == seg;
  }

  /** `/builds/<seg>/...` with an index that does not parse is never located. */
  lemma LocateBuildBadIndex(doc: PorterYAML, seg: string, rest: seq<string>)
    requires Atoi(seg).None? && '/' !in seg
    requires forall k :: 0 <= k < |rest| ==> '/' !in rest[k]
    ensures GetLineColForSchemaInstanceName(InstancePath(["builds", seg] + rest), doc) ==
      Unlocated(InstancePath(["builds", seg] + rest))
  {
    var segments := ["builds", seg] + rest;
    TreeOfPath(segments);
    assert Tree(InstancePath(segments))[1] == seg;
  }

  /** `/variables/<i>/<field>` for an existing variable but a field it does not have is never located. */
  lemma LocateVariableUnknownField(doc: PorterYAML, i: int, field: string)
    requires 0 <= i < |doc.variables.GetValue([])| && i <= MaxInt
    requires field != "name" && field != "value" && field != "random" && field != "once" && '/' !in field
    ensures GetLineColForSchemaInstanceName(InstancePath(["variables", IntToString(i), field]), doc) ==
      Unlocated(InstancePath(["variables", IntToString(i), field]))
  {
    var path := InstancePath(["variables", IntToString(i), field]);
    IntToStringNoSlash(i);
    TreeOfPath(["variables", IntToString(i), field]);
    var tree := Tree(path);
    assert |tree| == 3 && tree[0] == "variables" && tree[1] == IntToString(i) && tree[2] == field;
    AtoiIntToString(i);
    assert Atoi(tree[1]) == Some(i);
  }

  /** `/builds/<i>/<field>` for any field but `method` is never located, whatever the index. */
  lemma LocateBuildUnknownField(doc: PorterYAML, i: int, field: string)
    requires MinInt <= i <= MaxInt
    requires field != "method" && '/' !in field
    ensures GetLineColForSchemaInstanceName(InstancePath(["builds", IntToString(i), field]), doc) ==
      Unlocated(InstancePath(["builds", IntToString(i), field]))
  {
    var path := InstancePath(["builds", IntToString(i), field]);
    IntToStringNoSlash(i);
    TreeOfPath(["builds", IntToString(i), field]);
    var tree := Tree(path);
    assert |tree| == 3 && tree[0] == "builds" && tree[1] == IntToString(i) && tree[2] == field;
    AtoiIntToString(i);
    assert Atoi(tree[1]) == Some(i);
  }

  // ---------------------------------------------------------------------------------------
  // Variables

  /** The variable names, read with `GetValue`. */
  function VarNames(vs: seq<Variable>): (ns: seq<string>)
    ensures |ns| == |vs| && forall i :: 0 <= i < |vs| ==> ns[i] == vs[i].name.GetValue("")
  {
    seq(|vs|, i requires 0 <= i < |vs| => vs[i].name.GetValue(""))
  }

  /** Variable `j` is the first whose name was already used. */
  ghost predicate FirstDuplicateAt(vs: seq<Variable>, j: int)
  {
    0 <= j < |vs| && VarNames(vs)[j] in VarNames(vs)[..j] && Distinct(VarNames(vs)[..j])
  }

  /** The error for a repeated variable, positioned at the repeat. */
  function DuplicateError(v: Variable): ValidatorError
  {
    ValidatorError(v.name.GetYAMLNodeMetadata(), "duplicate variable name: " + v.name.GetValue(""))
  }

  /**
   * `validateV2Variables`: fails exactly when some name repeats, reporting the first
   * variable whose name was already seen.
   */
  method ValidateV2Variables(variables: seq<Variable>) returns (err: Option<ValidatorError>)
    ensures err.None? <==> Distinct(VarNames(variables))
    ensures err.Some? ==> exists j :: FirstDuplicateAt(variables, j) && err == Some(DuplicateError(variables[j]))
  {
    var vars: set<string> := {};
    ghost var names := VarNames(variables);
    for i := 0 to |variables|
      invariant vars == set k | 0 <= k < i :: names[k]
      invariant Distinct(names[..i])
    {
      var name := variables[i].name.GetValue("");
      if name in vars {
        ghost var k :| 0 <= k < i && names[k] == name;
        assert names[..i][k] == name;
        assert FirstDuplicateAt(variables, i);
        return Some(DuplicateError(variables[i]));
      }
      vars := vars + {name};
      assert names[..i + 1] == names[..i] + [name];
    }
    assert names[..|variables|] == names;
    return None;
  }

  /** There is at most one first repeat. */
  lemma FirstDuplicateUnique(vs: seq<Variable>, i: int, j: int)
    requires FirstDuplicateAt(vs, i) && FirstDuplicateAt(vs, j)
    ensures i == j
  {
  }

  // ---------------------------------------------------------------------------------------
  // The schema error report and the order of the checks

  /** One line of the report: `\n- porter.yaml:<line>:<col> : <message>`. */
  function ReportLine(line: int, column: int, message: string): string
  {
    "\n- porter.yaml:" + IntToString(line) + ":" + IntToString(column) + " : " + message
  }

  /** Where cause `c` is located in the document. */
  function CauseLineCol(c: ValidationError, doc: PorterYAML): LineCol
  {
    GetLineColForSchemaInstanceName(GetAbsoluteInstanceName(c), doc)
  }

  /** The locator of `doc`, as a function of the cause. */
  function Locator(doc: PorterYAML): ValidationError -> LineCol
  {
    c => CauseLineCol(c, doc)
  }

  /**
   * The report for a list of causes, in order, each located by `locate`: the first cause
   * that cannot be located ends it with that error; otherwise one line per cause.
   */
  function Report(causes: seq<ValidationError>, locate: ValidationError -> LineCol): Result<string, LocateError>
  {
    if causes == [] then Success("")
    else match Report(causes[..|causes| - 1], locate)
      case Failure(e) => Failure(e)
      case Success(s) =>
        var c := causes[|causes| - 1];
        var lc := locate(c);
        if lc.err.Some? then Failure(lc.err.value)
        else Success(s + ReportLine(lc.line, lc.column, GetAbsoluteMessage(c)))
  }

  /** Cause `i` is the first that cannot be located. */
  ghost predicate FirstUnlocated(causes: seq<ValidationError>, locate: ValidationError -> LineCol, i: int)
  {
    && 0 <= i < |causes|
    && locate(causes[i]).err.Some?
    && forall k :: 0 <= k < i ==> locate(causes[k]).err.None?
  }

  /**
   * The report lists every cause when all of them can be located, and otherwise fails with
   * the error of the first cause that cannot.
   */
  lemma {:induction false} ReportFailsAtFirst(causes: seq<ValidationError>, locate: ValidationError -> LineCol)
    ensures Report(causes, locate).Success? ==> forall i :: 0 <= i < |causes| ==> locate(causes[i]).err.None?
    ensures Report(causes, locate).Failure? ==> exists i ::
      FirstUnlocated(causes, locate, i) && locate(causes[i]).err == Some(Report(causes, locate).error)
  {
    if causes != [] {
      var front := causes[..|causes| - 1];
      var last := causes[|causes| - 1];
      ReportFailsAtFirst(front, locate);
      var rf := Report(front, locate);
      if rf.Failure? {
        assert Report(causes, locate) == rf;
        var i :| FirstUnlocated(front, locate, i) && locate(front[i]).err == Some(rf.error);
        assert front[i] == causes[i];
        forall k | 0 <= k < i
          ensures locate(causes[k]).err.None?
        {
          assert front[k] == causes[k];
        }
        assert FirstUnlocated(causes, locate, i);
      } else if locate(last).err.Some? {
        assert Report(causes, locate) == Failure(locate(last).err.value);
        forall k | 0 <= k < |causes| - 1
          ensures locate(causes[k]).err.None?
        {
          assert front[k] == causes[k];
        }
        assert FirstUnlocated(causes, locate, |causes| - 1);
      } else {
        assert Report(causes, locate).Success?;
        forall k | 0 <= k < |causes|
          ensures locate(causes[k]).err.None?
        {
          if k < |causes| - 1 {
            assert front[k] == causes[k];
          }
        }
      }
    }
  }

  /** The loop over the causes in `validateV2`. */
  method ReportCauses(causes: seq<ValidationError>, doc: PorterYAML) returns (r: Result<string, LocateError>)
    ensures r == Report(causes, Locator(doc))
  {
    var errStr := "";
    for i := 0 to |causes|
      invariant Report(causes[..i], Locator(doc)) == Success(errStr)
    {
      var c := causes[i];
      assert causes[..i + 1][..i] == causes[..i];
      var absInstanceName := GetAbsoluteInstanceName(c);
      var absMessage := GetAbsoluteMessage(c);
      var lc := GetLineColForSchemaInstanceName(absInstanceName, doc);
      assert Locator(doc)(c) == lc;
      if lc.err.Some? {
        assert Report(causes[..i + 1], Locator(doc)) == Failure(lc.err.value);
        ReportPrefixFailure(causes, Locator(doc), i + 1);
        return Failure(lc.err.value);
      }
      errStr := errStr + ReportLine(lc.line, lc.column, absMessage);
    }
    assert causes[..|causes|] == causes;
    return Success(errStr);
  }

  /** Once a prefix of the causes fails, the whole report fails the same way. */
  lemma {:induction false} ReportPrefixFailure(causes: seq<ValidationError>, locate: ValidationError -> LineCol, n: nat)
    requires n <= |causes| && Report(causes[..n], locate).Failure?
    ensures Report(causes, locate) == Report(causes[..n], locate)
    decreases |causes| - n
  {
    if n < |causes| {
      assert causes[..n + 1][..n] == causes[..n];
      ReportPrefixFailure(causes, locate, n + 1);
    } else {
      assert causes[..n] == causes;
    }
  }

  /** `validateV2Apps` and `validateV2Addons`: no checks yet. */
  function ValidateV2Resources(resources: seq<Resource>): Option<ValidateError>
  {
    None
  }

  /**
   * `validateV2`: the schema first, then the variables, then apps and addons (which never
   * fail); the first failure is returned.
   */
  method ValidateV2(doc: PorterYAML, schema: SchemaOutcome) returns (err: Option<ValidateError>)
    ensures schema.SetupFailed? ==> err == Some(SchemaSetup(schema.message))
    ensures schema.SchemaFailedOtherwise? ==> err == Some(SchemaFailed)
    ensures schema.SchemaInvalid? ==> err.Some? && match Report(schema.err.causes, Locator(doc))
      case Failure(e) => err.value == LocateFailed(e)
      case Success(s) => err.value == SchemaReport(s)
    ensures schema.SchemaPassed? ==> (err.None? <==> Distinct(VarNames(doc.variables.GetValue([]))))
    ensures schema.SchemaPassed? && err.Some? ==> exists j ::
      FirstDuplicateAt(doc.variables.GetValue([]), j) &&
      err == Some(VariableInvalid(DuplicateError(doc.variables.GetValue([])[j])))
  {
    match schema {
      case SetupFailed(m) => return Some(SchemaSetup(m));
      case SchemaFailedOtherwise => return Some(SchemaFailed);
      case SchemaInvalid(validationErr) =>
        var r := ReportCauses(validationErr.causes, doc);
        match r {
          case Failure(e) => return Some(LocateFailed(e));
          case Success(errStr) => return Some(SchemaReport(errStr));
        }
      case SchemaPassed =>
    }
    var verr := ValidateV2Variables(doc.variables.GetValue([]));
    if verr.Some? {
      return Some(VariableInvalid(verr.value));
    }
    err := ValidateV2Resources(doc.apps.GetValue([]));
    if err.Some? {
      return err;
    }
    err := ValidateV2Resources(doc.addons.GetValue([]));
    if err.Some? {
      return err;
    }
    return None;
  }

  /** `ValidatePorterYAML`: only version `v2` is validated; any other version is refused. */
  method ValidatePorterYAML(doc: PorterYAML, schema: SchemaOutcome) returns (err: Option<ValidateError>)
    ensures doc.version.GetValue("") != "v2" ==> err == Some(InvalidVersion(doc.version.GetValue("")))
    ensures doc.version.GetValue("") == "v2" && schema.SetupFailed? ==> err == Some(SchemaSetup(schema.message))
    ensures doc.version.GetValue("") == "v2" && schema.SchemaFailedOtherwise? ==> err == Some(SchemaFailed)
    ensures doc.version.GetValue("") == "v2" && schema.SchemaInvalid? ==>
      err.Some? && match Report(schema.err.causes, Locator(doc))
        case Failure(e) => err.value == LocateFailed(e)
        case Success(s) => err.value == SchemaReport(s)
    ensures doc.version.GetValue("") == "v2" && schema.SchemaPassed? ==>
      (err.None? <==> Distinct(VarNames(doc.variables.GetValue([]))))
    ensures doc.version.GetValue("") == "v2" && schema.SchemaPassed? && err.Some? ==> exists j ::
      FirstDuplicateAt(doc.variables.GetValue([]), j) &&
      err == Some(VariableInvalid(DuplicateError(doc.variables.GetValue([])[j])))
  {
    if doc.version.GetValue("") == "v2" {
      err := ValidateV2(doc, schema);
      return;
    }
    return Some(InvalidVersion(doc.version.GetValue("")));
  }
}
