/** The tool selection the server starts from (server.py, `load_tools_config`).

    The selection is the `selected_tools` object of a JSON configuration file:
    module name to the tool names to expose.  A missing or unreadable file, and
    every exception while the loader inspects the document, yields the fixed
    two-tool fallback selection instead.
 */
module ToolsConfig {
  import opened Python

  /** What opening and parsing the configuration file gave: no such file, an
      exception from `open` or `json.load`, or the parsed document. */
  datatype ConfigSource = NotFound | Unreadable(msg: string) | Parsed(doc: Value)

  const FallbackModule := "biomni.tool.support_tools"

  /** The minimal selection used whenever the configuration cannot be used. */
  const Fallback := PyDict([(PyStr(FallbackModule), PyList([PyStr("run_python_repl"), PyStr("read_function_source_code")]))])

  const SelectedToolsKey := PyStr("selected_tools")

  /** A selection the loader can return: a dict whose every value has a length, so
      that `selected_tools.values()` and `len(tools)` do not raise. */
  predicate Usable(selection: Value) {
    selection.PyDict? && forall i :: 0 <= i < |selection.entries| ==> Sized(selection.entries[i].1)
  }

  /** `load_tools_config()`: the document's `selected_tools` when the document is a dict
      and that value is usable, an empty selection when the key is missing, and the
      fallback in every other case (missing file, read or parse error, `AttributeError`
      or `TypeError` while summarising). */
  function LoadToolsConfig(source: ConfigSource): (selection: Value)
    ensures Usable(selection)
    ensures source.NotFound? || source.Unreadable? ==> selection == Fallback
    ensures source.Parsed? && !source.doc.PyDict? ==> selection == Fallback
    ensures source.Parsed? && source.doc.PyDict? && DictGet(source.doc.entries, SelectedToolsKey).None? ==>
      selection == PyDict([])
    ensures source.Parsed? && source.doc.PyDict? && DictGet(source.doc.entries, SelectedToolsKey).Some? ==>
      var given := DictGet(source.doc.entries, SelectedToolsKey).value;
      (Usable(given) ==> selection == given) && (!Usable(given) ==> selection == Fallback)
  {
    match source
    case NotFound => Fallback
    case Unreadable(_) => Fallback
    case Parsed(doc) =>
      if !doc.PyDict? then Fallback
      else
        var selected := match DictGet(doc.entries, SelectedToolsKey)
          case Some(v) => v
          case None => PyDict([]);
        if Usable(selected) then selected else Fallback
  }
}
