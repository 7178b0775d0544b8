/** The registration pass (server.py, `register_selected_tools`).

    For every selected module that the catalog knows, every catalogued descriptor
    whose name is selected is resolved to its implementation, wrapped into an
    adapter and handed to the MCP server; failures are counted and skipped.
 */
module Registration {
  import opened Python
  import opened ToolAdapter
  import opened ToolsConfig

  /** The MCP server's side of registration: the adapters handed to `mcp.tool()`, in order. */
  class McpServer {
    var tools: seq<Adapter>

    constructor ()
      ensures tools == []
    {
      tools := [];
    }

    /** `mcp.tool()(adapter)` */
    method Tool(adapter: Adapter)
      modifies this
      ensures tools == old(tools) + [adapter]
    {
      tools := tools + [adapter];
    }
  }

  /** The two counters printed in the registration summary. */
  datatype Summary = Summary(registered: nat, failed: nat)

  /** A selected descriptor found in a catalogued module, with that module's name. */
  type Candidate = (string, ToolInfo)

  /** `importlib.import_module(module)` followed by `getattr(module, name)`. */
  type Resolver = (string, string) -> Outcome<Impl>

  /** The descriptors of one module that the selection names, in catalog order. */
  function ModuleCandidates(moduleName: string, infos: seq<ToolInfo>, names: Value): seq<Candidate>
    requires Sized(names)
  {
    if infos == [] then []
    else
      var info := infos[|infos| - 1];
      ModuleCandidates(moduleName, infos[..|infos| - 1], names) + (if Member(info.name, names) then [(moduleName, info)] else [])
  }

  /** The candidate module of one selection entry, if its key names a catalogued module. */
  predicate Catalogued(key: Value, catalog: map<string, seq<ToolInfo>>) {
    key.PyStr? && key.s in catalog
  }

  /** Every descriptor the registration loop tries to register, in the order it tries them. */
  function Candidates(selection: seq<(Value, Value)>, catalog: map<string, seq<ToolInfo>>): seq<Candidate>
    requires forall i :: 0 <= i < |selection| ==> Sized(selection[i].1)
  {
    if selection == [] then []
    else
      var (key, names) := selection[|selection| - 1];
      Candidates(selection[..|selection| - 1], catalog)
        + (if Catalogued(key, catalog) then ModuleCandidates(key.s, catalog[key.s], names) else [])
  }

  /** The body of the `try` for one candidate: resolve, then build the adapter. */
  function Attempt(c: Candidate, resolve: Resolver): Outcome<Adapter> {
    var impl := resolve(c.0, c.1.name);
    if impl.Raised? then Raised(impl.msg) else MakeAdapter(c.1.name, impl.value, c.1)
  }

  /** The adapters of the candidates whose attempt succeeded, in order. */
  function Registered(cs: seq<Candidate>, resolve: Resolver): seq<Adapter> {
    if cs == [] then []
    else
      var a := Attempt(cs[|cs| - 1], resolve);
      Registered(cs[..|cs| - 1], resolve) + (if a.Ok? then [a.value] else [])
  }

  /** The number of candidates whose attempt raised. */
  function Failures(cs: seq<Candidate>, resolve: Resolver): nat {
    if cs == [] then 0
    else Failures(cs[..|cs| - 1], resolve) + (if Attempt(cs[|cs| - 1], resolve).Raised? then 1 else 0)
  }

  /** Every candidate is either registered or counted as failed: the two counters add
      up to the number of candidates. */
  lemma {:induction false} CountsAddUp(cs: seq<Candidate>, resolve: Resolver)
    ensures |Registered(cs, resolve)| + Failures(cs, resolve) == |cs|
  {
    if cs != [] {
      CountsAddUp(cs[..|cs| - 1], resolve);
    }
  }

  /** Every registered adapter is the successful attempt of some candidate, under that
      candidate's name and with the annotations of its descriptor. */
  lemma {:induction false} RegisteredComeFromCandidates(cs: seq<Candidate>, resolve: Resolver)
    ensures forall j :: 0 <= j < |Registered(cs, resolve)| ==>
      exists i :: 0 <= i < |cs| && Attempt(cs[i], resolve) == Ok(Registered(cs, resolve)[j])
                  && Registered(cs, resolve)[j].name == cs[i].1.name
                  && Registered(cs, resolve)[j].annotations == Annotations(cs[i].1).value
  {
    if cs != [] {
      var init := cs[..|cs| - 1];
      RegisteredComeFromCandidates(init, resolve);
      var r := Registered(cs, resolve);
      forall j | 0 <= j < |r|
        ensures exists i :: 0 <= i < |cs| && Attempt(cs[i], resolve) == Ok(r[j])
                  && r[j].name == cs[i].1.name && r[j].annotations == Annotations(cs[i].1).value
      {
        if j < |Registered(init, resolve)| {
          var i :| 0 <= i < |init| && Attempt(init[i], resolve) == Ok(Registered(init, resolve)[j])
                  && Registered(init, resolve)[j].name == init[i].1.name
                  && Registered(init, resolve)[j].annotations == Annotations(init[i].1).value;
          assert cs[i] == init[i] && r[j] == Registered(init, resolve)[j];
        } else {
          var last := cs[|cs| - 1];
          var impl := resolve(last.0, last.1.name);
          assert Attempt(last, resolve) == Ok(r[j]);
          assert impl.Ok? && MakeAdapter(last.1.name, impl.value, last.1) == Ok(r[j]);
          assert r[j].name == last.1.name && r[j].annotations == Annotations(last.1).value;
          assert cs[|cs| - 1] == last;
        }
      }
      assert forall j :: 0 <= j < |r| ==>
        exists i :: 0 <= i < |cs| && Attempt(cs[i], resolve) == Ok(r[j])
                  && r[j].name == cs[i].1.name && r[j].annotations == Annotations(cs[i].1).value;
    } else {
      assert Registered(cs, resolve) == [];
    }
  }

  /** Conversely, every candidate whose attempt succeeds is registered: no successful
      adapter is dropped. */
  lemma {:induction false} SuccessfulCandidatesRegistered(cs: seq<Candidate>, resolve: Resolver, i: int)
    requires 0 <= i < |cs| && Attempt(cs[i], resolve).Ok?
    ensures Attempt(cs[i], resolve).value in Registered(cs, resolve)
  {
    var init := cs[..|cs| - 1];
    if i < |cs| - 1 {
      assert init[i] == cs[i];
      SuccessfulCandidatesRegistered(init, resolve, i);
    }
  }

  /** A module's candidates are exactly its selected descriptors. */
  lemma {:induction false} ModuleCandidatesExactly(moduleName: string, infos: seq<ToolInfo>, names: Value, c: Candidate)
    requires Sized(names)
    ensures c in ModuleCandidates(moduleName, infos, names) <==> c.0 == moduleName && c.1 in infos && Member(c.1.name, names)
  {
    if infos != [] {
      var init := infos[..|infos| - 1];
      ModuleCandidatesExactly(moduleName, init, names, c);
      assert infos == init + [infos[|infos| - 1]];
    }
  }

  /** The candidates are exactly the descriptors of catalogued modules whose names the
      selection lists for that module: unknown modules and unselected descriptors are
      skipped, and nothing else is. */
  lemma {:induction false} CandidatesExactly(selection: seq<(Value, Value)>, catalog: map<string, seq<ToolInfo>>, c: Candidate)
    requires forall i :: 0 <= i < |selection| ==> Sized(selection[i].1)
    ensures c in Candidates(selection, catalog) <==>
      exists i :: 0 <= i < |selection| && selection[i].0 == PyStr(c.0) && c.0 in catalog
                  && c.1 in catalog[c.0] && Member(c.1.name, selection[i].1)
  {
    if selection != [] {
      var init := selection[..|selection| - 1];
      var (key, names) := selection[|selection| - 1];
      CandidatesExactly(init, catalog, c);
      if Catalogued(key, catalog) {
        ModuleCandidatesExactly(key.s, catalog[key.s], names, c);
      }
      if exists i :: 0 <= i < |selection| && selection[i].0 == PyStr(c.0) && c.0 in catalog
                     && c.1 in catalog[c.0] && Member(c.1.name, selection[i].1) {
        var i :| 0 <= i < |selection| && selection[i].0 == PyStr(c.0) && c.0 in catalog
                 && c.1 in catalog[c.0] && Member(c.1.name, selection[i].1);
        if i < |selection| - 1 {
          assert selection[i] == init[i];
        }
      }
      if c in Candidates(init, catalog) {
        var i :| 0 <= i < |init| && init[i].0 == PyStr(c.0) && c.0 in catalog
                 && c.1 in catalog[c.0] && Member(c.1.name, init[i].1);
        assert selection[i] == init[i];
      }
    }
  }

  /** `register_selected_tools()` over the selection `load_tools_config` returned, the
      outcome of `read_module2api()` and the resolver.  If the catalog cannot be read
      nothing is registered and no summary is printed; otherwise every candidate is
      attempted in order, each success is handed to the server, and the summary counts
      successes and failures. */
  method RegisterSelectedTools(server: McpServer, selection: Value, catalog: Outcome<map<string, seq<ToolInfo>>>, resolve: Resolver)
    returns (summary: Option<Summary>)
    requires Usable(selection)
    modifies server
    ensures catalog.Raised? ==> summary.None? && server.tools == old(server.tools)
    ensures catalog.Ok? ==>
      var cs := Candidates(selection.entries, catalog.value);
      && server.tools == old(server.tools) + Registered(cs, resolve)
      && summary == Some(Summary(|Registered(cs, resolve)|, Failures(cs, resolve)))
  {
    if catalog.Raised? {
      return None;
    }
    var module2api := catalog.value;
    var entries := selection.entries;
    var registeredCount, failedCount := 0, 0;
    ghost var done: seq<Candidate> := [];
    for i := 0 to |entries|
      invariant done == Candidates(entries[..i], module2api)
      invariant server.tools == old(server.tools) + Registered(done, resolve)
      invariant registeredCount == |Registered(done, resolve)| && failedCount == Failures(done, resolve)
    {
      assert entries[..i + 1][..i] == entries[..i];
      var (moduleKey, selectedToolNames) := entries[i];
      if !Catalogued(moduleKey, module2api) {
        continue;
      }
      var moduleName := moduleKey.s;
      var moduleTools := module2api[moduleName];
      ghost var before := done;
      for j := 0 to |moduleTools|
        invariant done == before + ModuleCandidates(moduleName, moduleTools[..j], selectedToolNames)
        invariant server.tools == old(server.tools) + Registered(done, resolve)
        invariant registeredCount == |Registered(done, resolve)| && failedCount == Failures(done, resolve)
      {
        assert moduleTools[..j + 1][..j] == moduleTools[..j];
        var toolInfo := moduleTools[j];
        if !Member(toolInfo.name, selectedToolNames) {
          continue;
        }
        ghost var c := (moduleName, toolInfo);
        assert (done + [c])[..|done|] == done;
        var toolFunc := resolve(moduleName, toolInfo.name);
        if toolFunc.Raised? {
          failedCount := failedCount + 1;
        } else {
          var adapter := CreateToolFunction(toolInfo.name, toolFunc.value, toolInfo);
          if adapter.Raised? {
            failedCount := failedCount + 1;
          } else {
            server.Tool(adapter.value);
            registeredCount := registeredCount + 1;
          }
        }
        done := done + [c];
      }
      assert moduleTools[..|moduleTools|] == moduleTools;
    }
    assert entries[..|entries|] == entries;
    summary := Some(Summary(registeredCount, failedCount));
  }
}
