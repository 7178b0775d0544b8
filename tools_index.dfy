/** The tool index builder (utils/build_tools_index.py).

    Every description file is an already-parsed list of top-level statements;
    `extract` finds the first assignment to `description`, and `main` folds the
    descriptor lists of all files, in sorted file-name order, into one map from
    tool name to record, the last occurrence of a name winning.
 */
module ToolsIndex {
  import opened Python

  /** One descriptor dict; a key that is missing reads as `None`, as `entry.get(key)` does. */
  datatype Entry = Entry(name: Value, description: Value, requiredParameters: Value, optionalParameters: Value)

  /** An assignment target: a bare name, or anything else (attribute, subscript, tuple). */
  datatype Target = Name(id: string) | OtherTarget

  /** The right-hand side of an assignment: a literal list of descriptor dicts, or an
      expression `ast.literal_eval` rejects. */
  datatype Rhs = Literal(entries: seq<Entry>) | NotLiteral

  /** A top-level statement: an `ast.Assign`, or any other node. */
  datatype Stmt = Assign(targets: seq<Target>, value: Rhs) | OtherStmt

  /** A description file: its file name and its parsed module body. */
  datatype DescFile = DescFile(fileName: string, body: seq<Stmt>)

  /** The record stored under a tool's name. */
  datatype Record = Record(moduleName: string, description: Value, requiredParameters: Value, optionalParameters: Value)

  /** The written payload, without its `generated_at` timestamp. */
  datatype Index = Index(toolCount: nat, tools: map<Value, Record>, schemaVersion: int)

  /** An entry together with the stem of the file it came from. */
  datatype Item = Item(stem: string, entry: Entry)

  // ---------------------------------------------------------------------------
  // extract

  /** An `ast.Assign` one of whose targets is the bare name `description`. */
  predicate AssignsDescription(s: Stmt) {
    s.Assign? && Name("description") in s.targets
  }

  /** `ast.literal_eval(node.value)` */
  function Evaluate(rhs: Rhs): Outcome<seq<Entry>> {
    match rhs
    case Literal(es) => Ok(es)
    case NotLiteral => Raised("malformed node or string")
  }

  /** The value of the first assignment to `description`, or `[]` when there is none. */
  function DescriptionOf(body: seq<Stmt>): Outcome<seq<Entry>> {
    if body == [] then Ok([])
    else if AssignsDescription(body[0]) then Evaluate(body[0].value)
    else DescriptionOf(body[1..])
  }

  /** `extract` yields the first `description` assignment's value and ignores every later
      one; without such an assignment it yields the empty list. */
  lemma {:induction false} DescriptionOfFirst(body: seq<Stmt>)
    ensures (forall i :: 0 <= i < |body| ==> !AssignsDescription(body[i])) ==> DescriptionOf(body) == Ok([])
    ensures forall i :: 0 <= i < |body| && AssignsDescription(body[i])
                        && (forall j :: 0 <= j < i ==> !AssignsDescription(body[j])) ==>
                        DescriptionOf(body) == Evaluate(body[i].value)
  {
    if body != [] {
      DescriptionOfFirst(body[1..]);
      assert forall i :: 1 <= i < |body| ==> body[1..][i - 1] == body[i];
      if !AssignsDescription(body[0]) {
        forall i | 0 <= i < |body| && AssignsDescription(body[i])
                   && (forall j :: 0 <= j < i ==> !AssignsDescription(body[j]))
          ensures DescriptionOf(body) == Evaluate(body[i].value)
        {
          assert i >= 1;
          assert forall j :: 0 <= j < i - 1 ==> body[1..][j] == body[j + 1];
        }
      }
    }
  }

  /** `extract(py_file)`: a linear search of the module body that returns at the first
      assignment to `description`. */
  method Extract(body: seq<Stmt>) returns (r: Outcome<seq<Entry>>)
    ensures r == DescriptionOf(body)
  {
    assert body[0..] == body;
    for i := 0 to |body|
      invariant DescriptionOf(body[i..]) == DescriptionOf(body)
    {
      var node := body[i];
      if node.Assign? && Name("description") in node.targets {
        return Evaluate(node.value);
      }
      assert body[i..][1..] == body[i + 1..];
    }
    return Ok([]);
  }

  // ---------------------------------------------------------------------------
  // File names

  /** `s.rfind(c)`: the last index holding `c`, or -1. */
  function RFind(s: string, c: char): (i: int)
    ensures -1 <= i < |s|
    ensures i >= 0 ==> s[i] == c
    ensures forall j :: i < j < |s| ==> s[j] != c
  {
    if s == [] then -1
    else if s[|s| - 1] == c then |s| - 1
    else RFind(s[..|s| - 1], c)
  }

  /** `PurePath(name).stem`: the name without its last suffix, where a suffix needs a
      dot that is neither the first nor the last character. */
  function Stem(name: string): string {
    var i := RFind(name, '.');
    if 0 < i < |name| - 1 then name[..i] else name
  }

  /** For a file the `*.py` glob finds, with something before the `.py`, the stem is the
      name without `.py`; a file called just `.py` keeps its whole name as stem. */
  lemma StemOfPyFile(name: string)
    requires |name| >= 3 && name[|name| - 3..] == ".py"
    ensures |name| > 3 ==> Stem(name) == name[..|name| - 3]
    ensures |name| == 3 ==> Stem(name) == ".py"
  {
    assert name[|name| - 3] == '.' && name[|name| - 2] == 'p' && name[|name| - 1] == 'y' by {
      assert name[|name| - 3..][0] == name[|name| - 3];
      assert name[|name| - 3..][1] == name[|name| - 2];
      assert name[|name| - 3..][2] == name[|name| - 1];
    }
  }

  // ---------------------------------------------------------------------------
  // sorted()

  /** Python's `a <= b` on strings: code-point lexicographic order, a prefix first. */
  predicate StrLe(a: string, b: string) {
    a == [] || (b != [] && (a[0] < b[0] || (a[0] == b[0] && StrLe(a[1..], b[1..]))))
  }

  lemma {:induction false} StrLeTotal(a: string, b: string)
    ensures StrLe(a, b) || StrLe(b, a)
  {
    if a != [] && b != [] && a[0] == b[0] {
      StrLeTotal(a[1..], b[1..]);
    }
  }

  predicate SortedByName(fs: seq<DescFile>) {
    forall i :: 0 <= i < |fs| - 1 ==> StrLe(fs[i].fileName, fs[i + 1].fileName)
  }

  /** Insert one file into a sorted list of files. */
  function InsertByName(f: DescFile, s: seq<DescFile>): (r: seq<DescFile>)
    requires SortedByName(s)
    ensures |r| == |s| + 1 && multiset(r) == multiset(s) + multiset{f}
    ensures r[0] == f || (s != [] && r[0] == s[0])
    ensures SortedByName(r)
  {
    if s == [] then [f]
    else if StrLe(f.fileName, s[0].fileName) then [f] + s
    else
      StrLeTotal(f.fileName, s[0].fileName);
      assert s == [s[0]] + s[1..];
      [s[0]] + InsertByName(f, s[1..])
  }

  /** `sorted(files)`: the same files, ordered by file name. */
  function SortByName(fs: seq<DescFile>): (r: seq<DescFile>)
    ensures |r| == |fs| && multiset(r) == multiset(fs)
    ensures SortedByName(r)
  {
    if fs == [] then []
    else
      assert fs == [fs[0]] + fs[1..];
      InsertByName(fs[0], SortByName(fs[1..]))
  }

  // ---------------------------------------------------------------------------
  // main

  /** `entry.get(key, []) or []`: the entry's value when it is truthy, `[]` otherwise. */
  function OrEmpty(v: Value): (r: Value)
    ensures Truthy(v) ==> r == v
    ensures !Truthy(v) ==> r == PyList([])
  {
    if Truthy(v) then v else PyList([])
  }

  /** The record `main` stores for an entry of the file with stem `stem`. */
  function RecordOf(it: Item): Record {
    Record(it.stem, it.entry.description, OrEmpty(it.entry.requiredParameters), OrEmpty(it.entry.optionalParameters))
  }

  /** The entries of one file, tagged with its stem. */
  function Tag(stem: string, es: seq<Entry>): (r: seq<Item>)
    ensures |r| == |es|
    ensures forall k :: 0 <= k < |es| ==> r[k] == Item(stem, es[k])
  {
    seq(|es|, k requires 0 <= k < |es| => Item(stem, es[k]))
  }

  /** All entries of the files in order, or the first exception `extract` raised. */
  function Collect(files: seq<DescFile>): Outcome<seq<Item>> {
    if files == [] then Ok([])
    else
      var prev := Collect(files[..|files| - 1]);
      var f := files[|files| - 1];
      if prev.Raised? then prev
      else match DescriptionOf(f.body)
        case Raised(e) => Raised(e)
        case Ok(es) => Ok(prev.value + Tag(Stem(f.fileName), es))
  }

  /** The `tools` dict after processing `items` in order. */
  function Aggregate(items: seq<Item>): map<Value, Record> {
    if items == [] then map[]
    else
      var tools := Aggregate(items[..|items| - 1]);
      var it := items[|items| - 1];
      if Truthy(it.entry.name) then tools[it.entry.name := RecordOf(it)] else tools
  }

  /** The keys of `tools` are exactly the truthy names of the entries: an entry whose
      name is missing or empty never creates a key. */
  lemma {:induction false} AggregateKeys(items: seq<Item>)
    ensures forall k :: k in Aggregate(items) <==>
      Truthy(k) && exists j :: 0 <= j < |items| && items[j].entry.name == k
  {
    if items != [] {
      var init := items[..|items| - 1];
      AggregateKeys(init);
      forall k | Truthy(k) && (exists j :: 0 <= j < |items| && items[j].entry.name == k)
        ensures k in Aggregate(items)
      {
        var j :| 0 <= j < |items| && items[j].entry.name == k;
        if j < |items| - 1 { assert init[j] == items[j]; }
      }
      forall k | k in Aggregate(init) ensures exists j :: 0 <= j < |items| && items[j].entry.name == k {
        var j :| 0 <= j < |init| && init[j].entry.name == k;
        assert items[j] == init[j];
      }
    }
  }

  /** The record stored under a name is built from the last entry carrying that name:
      its module is that entry's file stem and its fields are that entry's. */
  lemma {:induction false} AggregateLastWins(items: seq<Item>, j: nat)
    requires j < |items| && Truthy(items[j].entry.name)
    requires forall j' :: j < j' < |items| ==> items[j'].entry.name != items[j].entry.name
    ensures items[j].entry.name in Aggregate(items)
    ensures Aggregate(items)[items[j].entry.name] == RecordOf(items[j])
  {
    var init := items[..|items| - 1];
    if j < |items| - 1 {
      assert init[j] == items[j];
      forall j' | j < j' < |init| ensures init[j'].entry.name != init[j].entry.name {
        assert init[j'] == items[j'];
      }
      AggregateLastWins(init, j);
    }
  }

  /** Once `extract` has raised for some file, the whole run has raised with that exception. */
  lemma {:induction false} CollectRaisedPrefix(files: seq<DescFile>, n: nat)
    requires n <= |files| && Collect(files[..n]).Raised?
    ensures Collect(files) == Collect(files[..n])
    decreases |files| - n
  {
    if n < |files| {
      assert files[..|files| - 1][..n] == files[..n];
      CollectRaisedPrefix(files[..|files| - 1], n);
    } else {
      assert files[..n] == files;
    }
  }

  lemma AggregateSnoc(items: seq<Item>, it: Item)
    ensures Aggregate(items + [it]) ==
      if Truthy(it.entry.name) then Aggregate(items)[it.entry.name := RecordOf(it)] else Aggregate(items)
  {
  }

  /** The inner loop of `main`: store the entries of one file, in order. */
  method StoreEntries(tools: map<Value, Record>, ghost before: seq<Item>, moduleName: string, entries: seq<Entry>)
    returns (r: map<Value, Record>)
    requires tools == Aggregate(before)
    ensures r == Aggregate(before + Tag(moduleName, entries))
  {
    r := tools;
    assert before + Tag(moduleName, entries[..0]) == before;
    for j := 0 to |entries|
      invariant r == Aggregate(before + Tag(moduleName, entries[..j]))
    {
      var entry := entries[j];
      ghost var processed := before + Tag(moduleName, entries[..j]);
      assert before + Tag(moduleName, entries[..j + 1]) == processed + [Item(moduleName, entry)];
      AggregateSnoc(processed, Item(moduleName, entry));
      var name := entry.name;
      if !Truthy(name) {
        continue;
      }
      r := r[name := Record(moduleName, entry.description,
                            OrEmpty(entry.requiredParameters), OrEmpty(entry.optionalParameters))];
    }
    assert entries[..|entries|] == entries;
  }

  /** `main()` over the files the `*.py` glob found, in any order: it sorts them by name,
      extracts each file's descriptor list and stores one record per truthy name, later
      entries overwriting earlier ones; `tool_count` is the number of distinct names.  An
      exception from `extract` ends the run with nothing written. */
  method BuildIndex(files: seq<DescFile>) returns (r: Outcome<Index>)
    ensures var items := Collect(SortByName(files));
      && (r.Raised? <==> items.Raised?)
      && (r.Ok? ==> r.value.tools == Aggregate(items.value) && r.value.toolCount == |r.value.tools.Keys|
                    && r.value.schemaVersion == 1)
  {
    var sorted := SortByName(files);
    var tools: map<Value, Record> := map[];
    ghost var done: seq<Item> := [];
    for i := 0 to |sorted|
      invariant Collect(sorted[..i]) == Ok(done)
      invariant tools == Aggregate(done)
    {
      assert sorted[..i + 1][..i] == sorted[..i];
      var moduleName := Stem(sorted[i].fileName);
      var entries := Extract(sorted[i].body);
      if entries.Raised? {
        CollectRaisedPrefix(sorted, i + 1);
        return Raised(entries.msg);
      }
      tools := StoreEntries(tools, done, moduleName, entries.value);
      done := done + Tag(moduleName, entries.value);
    }
    assert sorted[..|sorted|] == sorted;
    r := Ok(Index(|tools|, tools, 1));
  }
}
