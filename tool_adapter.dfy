/** The adapter that turns one catalogued tool into an MCP tool function
    (server.py, `create_mcp_tool_function` and its inner `mcp_tool_function`).

    Building an adapter fills an annotation map from the descriptor's required
    and optional parameter lists.  Calling an adapter drops `None` arguments,
    injects the data-lake path when the implementation declares `data_path`,
    invokes the implementation and turns whatever happens into text.
 */
module ToolAdapter {
  import opened Python

  /** One element of a descriptor's parameter list; `None` marks a missing key. */
  datatype ParamSpec = ParamSpec(name: Option<string>, ptype: Option<string>)

  /** A catalogued tool descriptor; a `None` list or description is a missing key. */
  datatype ToolInfo = ToolInfo(
    name: string,
    description: Option<string>,
    required: Option<seq<ParamSpec>>,
    optional: Option<seq<ParamSpec>>)

  /** The Python types an annotation can name. */
  datatype PyType = StrType | IntType | FloatType | BoolType

  /** An annotation: the type itself, or `T | None`. */
  datatype Annotation = Plain(t: PyType) | OrNone(t: PyType)

  /** A resolved implementation: the parameter names its signature declares and
      what calling it with keyword arguments does. */
  datatype Impl = Impl(params: set<string>, call: map<string, Value> -> Outcome<Value>)

  /** The function handed to the MCP server: its name, docstring, annotations and target. */
  datatype Adapter = Adapter(name: string, doc: string, annotations: map<string, Annotation>, impl: Impl)

  /** What the wrapper reads from its surroundings: the data directory and the two
      serialisers `json.dumps(_, indent=2, ensure_ascii=False)` and `str(_)`, either of
      which may raise. */
  datatype Env = Env(
    dataPath: string,
    dumps: Value -> Outcome<string>,
    toStr: Value -> Outcome<string>)

  const DataPathParam := "data_path"
  const DataLakeSuffix := "/biomni_data/data_lake"

  // ---------------------------------------------------------------------------
  // Annotations

  /** The type a declared type name maps to; unknown names fall back to `str`. */
  function MapType(declared: string): (t: PyType)
    ensures t == IntType <==> declared == "int"
    ensures t == FloatType <==> declared == "float"
    ensures t == BoolType <==> declared == "bool"
    ensures t == StrType <==> declared != "int" && declared != "float" && declared != "bool"
  {
    if declared == "str" then StrType
    else if declared == "int" then IntType
    else if declared == "float" then FloatType
    else if declared == "bool" then BoolType
    else StrType
  }

  /** The annotation of a required parameter: always the plain mapped type. */
  function RequiredAnnotation(declared: string): (a: Annotation)
    ensures a.Plain? && a.t == MapType(declared)
  {
    Plain(MapType(declared))
  }

  /** The annotation of an optional parameter: `T | None`, except that `bool` stays plain. */
  function OptionalAnnotation(declared: string): (a: Annotation)
    ensures a.t == MapType(declared)
    ensures a.Plain? <==> declared == "bool"
  {
    if declared == "bool" then Plain(BoolType) else OrNone(MapType(declared))
  }

  function Annotate(declared: string, optional: bool): Annotation {
    if optional then OptionalAnnotation(declared) else RequiredAnnotation(declared)
  }

  /** `tool_info.get(key, [])` */
  function ParamsOf(field: Option<seq<ParamSpec>>): seq<ParamSpec> {
    if field.Some? then field.value else []
  }

  /** Every parameter has both a `name` and a `type` key. */
  predicate Complete(ps: seq<ParamSpec>) {
    forall i :: 0 <= i < |ps| ==> ps[i].name.Some? && ps[i].ptype.Some?
  }

  /** The names the parameters declare. */
  function Names(ps: seq<ParamSpec>): set<string> {
    set i | 0 <= i < |ps| && ps[i].name.Some? :: ps[i].name.value
  }

  /** The declared type of the last parameter called `k`, if that parameter has one. */
  function LastType(ps: seq<ParamSpec>, k: string): Option<string> {
    if ps == [] then None
    else if ps[|ps| - 1].name == Some(k) then ps[|ps| - 1].ptype
    else LastType(ps[..|ps| - 1], k)
  }

  /** One iteration of an annotation loop: `param['name']` and `param['type']` raise
      `KeyError` when missing, otherwise the name's annotation is (over)written. */
  function AddParam(ann: map<string, Annotation>, p: ParamSpec, optional: bool): Outcome<map<string, Annotation>> {
    if p.name.None? then Raised("'name'")
    else if p.ptype.None? then Raised("'type'")
    else Ok(ann[p.name.value := Annotate(p.ptype.value, optional)])
  }

  /** A whole annotation loop over `ps`, stopping at the first exception. */
  function AddParams(ann: map<string, Annotation>, ps: seq<ParamSpec>, optional: bool): Outcome<map<string, Annotation>> {
    if ps == [] then Ok(ann)
    else
      var prev := AddParams(ann, ps[..|ps| - 1], optional);
      if prev.Raised? then prev else AddParam(prev.value, ps[|ps| - 1], optional)
  }

  /** The annotation map `create_mcp_tool_function` builds: required parameters first,
      then optional ones. */
  function Annotations(info: ToolInfo): Outcome<map<string, Annotation>> {
    var req := AddParams(map[], ParamsOf(info.required), false);
    if req.Raised? then req else AddParams(req.value, ParamsOf(info.optional), true)
  }

  lemma NamesSnoc(ps: seq<ParamSpec>)
    requires ps != []
    ensures Names(ps) == Names(ps[..|ps| - 1]) + (if ps[|ps| - 1].name.Some? then {ps[|ps| - 1].name.value} else {})
  {
  }

  /** An annotation loop raises exactly when some parameter lacks a key, and the
      exception is the `KeyError` for `'name'` or `'type'`. */
  lemma {:induction false} AddParamsRaises(ann: map<string, Annotation>, ps: seq<ParamSpec>, optional: bool)
    ensures AddParams(ann, ps, optional).Raised? <==> !Complete(ps)
    ensures AddParams(ann, ps, optional).Raised? ==> AddParams(ann, ps, optional).msg in {"'name'", "'type'"}
  {
    if ps != [] {
      var init := ps[..|ps| - 1];
      AddParamsRaises(ann, init, optional);
      assert Complete(ps) <==> Complete(init) && ps[|ps| - 1].name.Some? && ps[|ps| - 1].ptype.Some? by {
        if Complete(init) && ps[|ps| - 1].name.Some? && ps[|ps| - 1].ptype.Some? {
          forall i | 0 <= i < |ps| ensures ps[i].name.Some? && ps[i].ptype.Some? {
            if i < |ps| - 1 { assert ps[i] == init[i]; }
          }
        }
      }
    }
  }

  /** A completed annotation loop adds exactly the parameters' names, each annotated
      from the last parameter of that name, and leaves every other entry alone. */
  lemma {:induction false} AddParamsResult(ann: map<string, Annotation>, ps: seq<ParamSpec>, optional: bool)
    requires Complete(ps)
    ensures AddParams(ann, ps, optional).Ok?
    ensures forall k :: k in Names(ps) ==> LastType(ps, k).Some?
    ensures AddParams(ann, ps, optional).value.Keys == ann.Keys + Names(ps)
    ensures forall k :: k in AddParams(ann, ps, optional).value ==>
      AddParams(ann, ps, optional).value[k] ==
        if k in Names(ps) then Annotate(LastType(ps, k).value, optional) else ann[k]
  {
    AddParamsRaises(ann, ps, optional);
    if ps != [] {
      var init := ps[..|ps| - 1];
      assert Complete(init) by {
        forall i | 0 <= i < |init| ensures init[i].name.Some? && init[i].ptype.Some? {
          assert init[i] == ps[i];
        }
      }
      AddParamsResult(ann, init, optional);
      NamesSnoc(ps);
    }
  }

  /** The annotation map holds exactly the required and optional names; an optional
      parameter's annotation wins over a required one of the same name, and the last
      parameter of a name wins within each list.  It fails exactly when some parameter
      lacks its `name` or `type` key. */
  lemma AnnotationsSpec(info: ToolInfo)
    ensures Annotations(info).Raised? <==> !Complete(ParamsOf(info.required)) || !Complete(ParamsOf(info.optional))
    ensures Annotations(info).Ok? ==>
      var req, opt, ann := ParamsOf(info.required), ParamsOf(info.optional), Annotations(info).value;
      && ann.Keys == Names(req) + Names(opt)
      && (forall k :: k in Names(opt) ==> LastType(opt, k).Some? && ann[k] == OptionalAnnotation(LastType(opt, k).value))
      && (forall k :: k in Names(req) && k !in Names(opt) ==>
            LastType(req, k).Some? && ann[k] == RequiredAnnotation(LastType(req, k).value))
  {
    var req, opt := ParamsOf(info.required), ParamsOf(info.optional);
    AddParamsRaises(map[], req, false);
    if Complete(req) {
      AddParamsResult(map[], req, false);
      var first := AddParams(map[], req, false).value;
      AddParamsRaises(first, opt, true);
      if Complete(opt) {
        AddParamsResult(first, opt, true);
      }
    }
  }

  /** `tool_info.get('description', f'Execute {tool_name}')` */
  function Doc(toolName: string, info: ToolInfo): string {
    if info.description.Some? then info.description.value else "Execute " + toolName
  }

  /** The adapter for `toolName`, or the exception building its annotations raised. */
  function MakeAdapter(toolName: string, impl: Impl, info: ToolInfo): Outcome<Adapter> {
    var ann := Annotations(info);
    if ann.Raised? then Raised(ann.msg) else Ok(Adapter(toolName, Doc(toolName, info), ann.value, impl))
  }

  /** If the accumulated annotation loop has raised on a prefix, it raises with the same
      exception on the whole list. */
  lemma {:induction false} AddParamsRaisedPrefix(ann: map<string, Annotation>, ps: seq<ParamSpec>, optional: bool, n: nat)
    requires n <= |ps|
    requires AddParams(ann, ps[..n], optional).Raised?
    ensures AddParams(ann, ps, optional) == AddParams(ann, ps[..n], optional)
    decreases |ps| - n
  {
    if n < |ps| {
      assert ps[..|ps| - 1][..n] == ps[..n];
      AddParamsRaisedPrefix(ann, ps[..|ps| - 1], optional, n);
    } else {
      assert ps[..n] == ps;
    }
  }

  /** The annotation loop as the source runs it, over `ps` starting from `ann`. */
  method FillAnnotations(ann: map<string, Annotation>, ps: seq<ParamSpec>, optional: bool)
    returns (r: Outcome<map<string, Annotation>>)
    ensures r == AddParams(ann, ps, optional)
  {
    var annotations := ann;
    for i := 0 to |ps|
      invariant AddParams(ann, ps[..i], optional) == Ok(annotations)
    {
      assert ps[..i + 1][..i] == ps[..i];
      var param := ps[i];
      if param.name.None? {
        AddParamsRaisedPrefix(ann, ps, optional, i + 1);
        return Raised("'name'");
      }
      if param.ptype.None? {
        AddParamsRaisedPrefix(ann, ps, optional, i + 1);
        return Raised("'type'");
      }
      annotations := annotations[param.name.value := Annotate(param.ptype.value, optional)];
    }
    assert ps[..|ps|] == ps;
    r := Ok(annotations);
  }

  /** `create_mcp_tool_function`: fill the annotations from the required list, then from
      the optional list, and bind name, docstring and implementation. */
  method CreateToolFunction(toolName: string, impl: Impl, info: ToolInfo) returns (r: Outcome<Adapter>)
    ensures r == MakeAdapter(toolName, impl, info)
    ensures r.Ok? ==> r.value.name == toolName && r.value.impl == impl
  {
    var annotations := FillAnnotations(map[], ParamsOf(info.required), false);
    if annotations.Raised? {
      return Raised(annotations.msg);
    }
    annotations := FillAnnotations(annotations.value, ParamsOf(info.optional), true);
    if annotations.Raised? {
      return Raised(annotations.msg);
    }
    r := Ok(Adapter(toolName, Doc(toolName, info), annotations.value, impl));
  }

  // ---------------------------------------------------------------------------
  // The call wrapper

  /** The keyword arguments the implementation receives: the caller's arguments that
      are not `None`, unchanged, plus the data-lake path under `data_path` when the
      implementation declares that parameter and the caller did not supply it. */
  function Forwarded(kwargs: map<string, Value>, declared: set<string>, dataPath: string): (r: map<string, Value>)
    ensures forall k :: k in kwargs && !kwargs[k].PyNone? ==> k in r && r[k] == kwargs[k]
    ensures forall k :: k != DataPathParam ==> (k in r <==> k in kwargs && !kwargs[k].PyNone?)
    ensures DataPathParam in r <==> DataPathParam in declared || (DataPathParam in kwargs && !kwargs[DataPathParam].PyNone?)
    ensures DataPathParam in r && !(DataPathParam in kwargs && !kwargs[DataPathParam].PyNone?) ==>
      r[DataPathParam] == PyStr(dataPath + DataLakeSuffix)
    ensures forall k :: k in r ==> !r[k].PyNone?
  {
    var filtered := map k | k in kwargs && !kwargs[k].PyNone? :: kwargs[k];
    if DataPathParam in declared && DataPathParam !in filtered then
      filtered[DataPathParam := PyStr(dataPath + DataLakeSuffix)]
    else
      filtered
  }

  /** The text returned for an exception: it names the tool and carries `str(e)`. */
  function ErrorText(toolName: string, msg: string): (text: string)
    ensures IsSubstring(toolName, text)
    ensures IsSubstring(msg, text)
  {
    var prefix := "\U{274C} Error executing ";
    var text := prefix + toolName + ": " + msg;
    SubstringOfConcat(prefix, toolName, ": " + msg);
    assert prefix + toolName + (": " + msg) == text;
    SubstringOfConcat(prefix + toolName + ": ", msg, "");
    assert prefix + toolName + ": " + msg + "" == text;
    text
  }

  /** The text for a formatting step that either produced text or raised. */
  function Reply(toolName: string, formatted: Outcome<string>): string {
    if formatted.Ok? then formatted.value else ErrorText(toolName, formatted.msg)
  }

  /** `mcp_tool_function(**kwargs)`: never raises; a string result comes back verbatim,
      a dict or list result as its JSON text, any other result as `str(result)`, and an
      exception from the call or from formatting as the error text naming the tool. */
  method Invoke(tool: Adapter, kwargs: map<string, Value>, env: Env) returns (text: string)
    ensures var out := tool.impl.call(Forwarded(kwargs, tool.impl.params, env.dataPath));
      match out
      case Raised(e) => text == ErrorText(tool.name, e)
      case Ok(PyStr(s)) => text == s
      case Ok(PyDict(_)) => text == Reply(tool.name, env.dumps(out.value))
      case Ok(PyList(_)) => text == Reply(tool.name, env.dumps(out.value))
      case Ok(v) => text == Reply(tool.name, env.toStr(v))
  {
    var filtered := map k | k in kwargs && !kwargs[k].PyNone? :: kwargs[k];
    if DataPathParam in tool.impl.params && DataPathParam !in filtered {
      filtered := filtered[DataPathParam := PyStr(env.dataPath + DataLakeSuffix)];
    }
    assert filtered == Forwarded(kwargs, tool.impl.params, env.dataPath);
    var result := tool.impl.call(filtered);
    if result.Raised? {
      return ErrorText(tool.name, result.msg);
    }
    var formatted: Outcome<string>;
    match result.value {
      case PyStr(s) => return s;
      case PyDict(_) => formatted := env.dumps(result.value);
      case PyList(_) => formatted := env.dumps(result.value);
      case _ => formatted := env.toStr(result.value);
    }
    if formatted.Raised? {
      return ErrorText(tool.name, formatted.msg);
    }
    text := formatted.value;
  }
}
