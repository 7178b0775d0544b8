# Biomni MCP wrapper — a Dafny model

This project models the core of the Biomni MCP server. The server exposes a selection of
Biomni's computational tools as MCP tools. The model covers four pieces:

- **Selection loading** (`ToolsConfig`, `tools_config.dfy`). `load_tools_config` reads the
  `selected_tools` object of the configuration file. A missing or unusable file yields a
  fixed two-tool selection.
- **Adapters** (`ToolAdapter`, `tool_adapter.dfy`). `create_mcp_tool_function` turns a
  catalogued tool descriptor and its implementation into an annotated tool function. The
  inner `mcp_tool_function` does the following on each call:
  - it filters the keyword arguments;
  - it injects `data_path`;
  - it calls the implementation and turns the result, or any exception, into text.
- **Registration** (`Registration`, `registration.dfy`). `register_selected_tools` walks the
  selection against the catalog from `read_module2api`. It hands each built adapter to the
  MCP server and counts successes and failures.
- **Index building** (`ToolsIndex`, `tools_index.dfy`). `utils/build_tools_index.py` extracts
  the `description` list of every description file. It folds these lists, in sorted file
  order, into one name-keyed index.

`python.dfy` (module `Python`) holds the shared model of Python values:
- `Value`: `None`, booleans, numbers, strings, lists, tuples, dicts as item lists, other objects;
- truthiness;
- the `in` operator;
- `Outcome`, which is either a value or the text `str(e)` of a raised exception.

Exceptions are values here. A function the source lets raise returns `Raised(msg)`. A
`try`/`except` is a test for `Raised?`.

Boundaries are parameters:
- the resolver `(module, name) -> Outcome<Impl>` stands for `importlib.import_module` plus `getattr`;
- an `Impl` carries the parameter names its signature declares and its call behaviour;
- `Env` carries the data path and the two serialisers, `json.dumps(..., indent=2, ensure_ascii=False)` and `str(...)`. Either serialiser may raise;
- `ConfigSource` stands for opening and parsing the configuration file;
- each description file is given as its name and its parsed top-level statements.

On these points the model follows the code of server.py:
- An optional `bool` parameter keeps the plain `bool` annotation, not `bool | None`.
- A parameter's `default` is read but never used. The annotations ignore it.
- The fallback selection is module `biomni.tool.support_tools` with `run_python_repl` and
  `read_function_source_code`.
- The fallback applies to the selection only. If `read_module2api` raises, registration
  stops with nothing registered.
- Registration does not de-duplicate names. It hands every adapter to FastMCP, in order.

## Model

| member | source | states |
|---|---|---|
| `Python.DictGet` | server.py:48 | `dict.get` finds a value exactly when some item has the key, and the value belongs to such an item |
| `Python.DictGetUnique` | server.py:48 | on a real dict, whose keys are distinct, `dict.get` returns the value of the one item with that key |
| `ToolAdapter.MapType` | server.py:97-106 | `'int'`, `'float'` and `'bool'` map to their own types; every other declared type, `'str'` included, maps to `str` |
| `ToolAdapter.RequiredAnnotation` | server.py:96-106 | a required parameter's annotation is always the plain mapped type |
| `ToolAdapter.OptionalAnnotation` | server.py:115-125 | an optional parameter's annotation is the mapped type or `None`, except a declared `'bool'`, which stays plain `bool` |
| `ToolAdapter.AddParamsRaises` | server.py:92-94 | an annotation loop raises exactly when some parameter lacks its `name` or `type` key, and the exception is that `KeyError` |
| `ToolAdapter.AddParamsResult` | server.py:92-106 | a completed loop adds exactly the parameters' names and leaves other keys unchanged; each name gets the annotation of the last parameter of that name |
| `ToolAdapter.AnnotationsSpec` | server.py:88-125 | the annotation keys are exactly the required names plus the optional names; an optional parameter's annotation overrides a required one of the same name; building fails exactly when a parameter lacks a key |
| `ToolAdapter.AddParamsRaisedPrefix` | server.py:92-94 | once a loop has raised on a prefix of the list, the whole loop raises with the same exception |
| `ToolAdapter.FillAnnotations` | server.py:91-125 | the imperative annotation loop computes the same map or exception as the loop specification |
| `ToolAdapter.CreateToolFunction` | server.py:77-157 | builds the adapter bound to the given name and implementation, with the descriptor's annotations and docstring, or raises as annotation building does |
| `ToolAdapter.Forwarded` | server.py:131-135 | the forwarded arguments are exactly the caller's non-`None` arguments, unchanged; `data_path` is added only when the target declares it and no non-`None` value was supplied, as the base path plus `/biomni_data/data_lake`; no forwarded value is `None` |
| `ToolAdapter.ErrorText` | server.py:149-150 | the error text contains the tool's name and the exception's text |
| `ToolAdapter.Invoke` | server.py:128-150 | the wrapper always returns text: a string result verbatim; a dict or list result as its JSON text; any other result as `str(result)`; an exception from the call or from formatting as the error text naming the tool |
| `ToolsConfig.LoadToolsConfig` | server.py:31-66 | the result is always a dict of sized values; a missing or unreadable file gives the fallback; so does a document that is not a dict or a `selected_tools` value that makes the summary raise; a document without `selected_tools` gives an empty selection; otherwise the result is the document's `selected_tools` |
| `Registration.McpServer.Tool` | server.py:197 | handing an adapter to the server appends it to the server's tool list |
| `Registration.CountsAddUp` | server.py:170-204 | each candidate adds one to exactly one counter, so the registered and failed counts sum to the number of selected descriptors found in catalogued modules |
| `Registration.RegisteredComeFromCandidates` | server.py:188-200 | every registered adapter is the successful resolution and build of some selected candidate; it carries that candidate's name and its descriptor's annotations |
| `Registration.SuccessfulCandidatesRegistered` | server.py:188-200 | every candidate whose resolution and build succeed is registered; no successful adapter is dropped |
| `Registration.ModuleCandidatesExactly` | server.py:179-186 | inside one module, the tried descriptors are exactly those whose name is `in` the module's selected names |
| `Registration.CandidatesExactly` | server.py:174-186 | the tried descriptors are exactly those of selected modules present in the catalog whose names the selection lists for that module; absent modules and unselected descriptors are skipped |
| `Registration.RegisterSelectedTools` | server.py:159-208 | if the catalog cannot be read, nothing is registered and there is no summary; otherwise the server's tool list grows by the successful adapters in selection and catalog order, and the summary counts successes and failures |
| `ToolsIndex.DescriptionOfFirst` | utils/build_tools_index.py:31-35 | extraction yields the value of the first top-level assignment with a bare `description` target, and `[]` when there is none |
| `ToolsIndex.Extract` | utils/build_tools_index.py:28-35 | the early-return search over the module body computes the first-assignment value, or raises as `literal_eval` does |
| `ToolsIndex.RFind` | utils/build_tools_index.py:41 | the last index holding the character, with none after it, or -1 |
| `ToolsIndex.StemOfPyFile` | utils/build_tools_index.py:41 | the stem of `x.py` is `x`; a file named just `.py` keeps `.py` as its stem |
| `ToolsIndex.StrLeTotal` | utils/build_tools_index.py:40 | Python's string order compares any two file names |
| `ToolsIndex.InsertByName` | utils/build_tools_index.py:40 | inserting into a name-sorted list gives a sorted list with one more file |
| `ToolsIndex.SortByName` | utils/build_tools_index.py:40 | the processing order is a permutation of the found files, sorted by file name |
| `ToolsIndex.OrEmpty` | utils/build_tools_index.py:50-51 | a parameter list is kept when truthy and becomes `[]` when missing or falsy |
| `ToolsIndex.AggregateKeys` | utils/build_tools_index.py:43-47 | the index keys are exactly the truthy entry names; an entry whose name is missing or empty adds nothing |
| `ToolsIndex.AggregateLastWins` | utils/build_tools_index.py:43-52 | the record under a name comes from the last entry with that name; its `module` is that entry's file stem, its `description` is the entry's, and its parameter lists are normalised |
| `ToolsIndex.CollectRaisedPrefix` | utils/build_tools_index.py:40-42 | once extraction raises for one file, the whole run ends with that exception |
| `ToolsIndex.StoreEntries` | utils/build_tools_index.py:43-52 | the inner loop stores one file's entries as the fold over those entries specifies |
| `ToolsIndex.BuildIndex` | utils/build_tools_index.py:38-60 | files are processed in sorted name order; the index holds the fold of all their entries, `tool_count` is its number of keys and `schema_version` is 1; an extraction exception ends the run |

## Left out

- FastMCP (`FastMCP(...)`, `mcp.run`, the stdio transport) is not modelled. Handing an adapter to `mcp.tool()` is an append to a list that never fails, and the model says nothing about how FastMCP treats duplicate tool names.
- Dynamic import (`importlib.import_module`, `getattr`) is the resolver parameter, a lookup that may raise.
- `inspect.signature` is the `params` set of an implementation. A `ValueError` from `inspect.signature` is not modelled.
- Assigning `__name__`, `__doc__` and `__annotations__` is Python metadata plumbing. The adapter records name, docstring and annotations as fields.
- File and environment I/O are inputs of the model: `dotenv`, `os.getenv`, `os.path.exists`, `open`, `json.load`, `read_text`, `write_text` and `glob`. So are the `sys.path` edit and all printed banners and summaries. The counters are returned instead of printed.
- `ast.parse` is not modelled: a description file arrives as its parsed top-level statements. A file with a syntax error is not modelled.
- `ast.literal_eval` is modelled on two shapes only: a literal list of descriptor dicts, or a non-literal (which raises). Other literal shapes are not modelled, such as a string, a dict, or a list holding non-dicts. The script crashes on most of them.
- In the wrapper (server.py:140-146), the text produced by `json.dumps` and `str()` is opaque: both are parameters of `Env` that may raise.
- `datetime.utcnow` (`generated_at`) is not modelled, because it is nondeterministic.
- Concurrency during serving is not modelled.
- `ToolAdapter.Invoke`: contains only `Exception`s. A `BaseException` that is not an `Exception`, such as `KeyboardInterrupt` or `SystemExit`, escapes the real wrapper; the model has no such exceptions.
- The startup sequence in `main` is not modelled: banners, then `register_selected_tools`, then `mcp.run`.
- An item list that repeats a key is not a Python dict and is outside the model. `DictGet` returns the first such item and `json.load` would keep the last; the selection and the configuration document are meant to have distinct keys (`Python.DistinctKeys`).
- A catalog entry without a `name` key is not modelled. `tool_info['name']` at server.py:182 raises outside the `try` for it. `ToolInfo.name` is always present.
- A `required_parameters` or `optional_parameters` value that is present but not a list is not modelled (for example `None`). The model's lists are missing or lists.
- `Registration.RegisterSelectedTools`: does not model a selection value that is neither a string, list, tuple nor dict. `load_tools_config` never returns one, but `in` on it would raise outside the `try`.
- `ToolsIndex.BuildIndex`: keys the index by structural equality of names. Python would treat `1`, `1.0` and `True` as one key and would raise for an unhashable name.
- `ToolsIndex.BuildIndex`: does not model the final `json.dumps(payload, indent=2)` of utils/build_tools_index.py:59 or its `TypeError`. A name that is truthy and hashable but not a `str`, `int`, `float`, `bool` or `None` (a tuple, say) is stored, then makes `json.dumps` raise, and nothing is written. The model returns `Ok` with that key, so its `Raised?` iff covers `extract` failures only.
- `ToolsIndex.BuildIndex`: does not model the insertion order of the `tools` dict, which is only visible in the written JSON.
- `ToolsIndex.SortByName`: assumes the glob yields distinct file names, so the stability of `sorted` plays no part.
