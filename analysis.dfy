/**
 * `analyze_module` (nopkg/analysis.py:8-82): the record of the functions,
 * classes and constants found by walking a module's syntax tree.
 *
 * The records are built in `ast.walk` order, so everything the walk reaches
 * counts, not only top-level statements: methods appear among the
 * functions as well as under their class.
 */
module Analysis {
  import opened Strings
  import opened SyntaxTree

  datatype FunctionRecord = FunctionRecord(name: string, args: seq<string>, docstring: string)
  datatype MethodRecord = MethodRecord(name: string, args: seq<string>)
  datatype ClassRecord = ClassRecord(name: string, methods: seq<MethodRecord>, docstring: string)

  /** The dictionary `{'functions': ..., 'classes': ..., 'variables': ...}`. */
  datatype Report = Report(functions: seq<FunctionRecord>, classes: seq<ClassRecord>, variables: seq<string>)

  const EmptyReport := Report([], [], [])

  /** What reading and parsing the file produced: a tree, or one of SyntaxError, UnicodeDecodeError, OSError. */
  datatype SourceText = Parsed(tree: Node) | Unreadable

  /** A name the analyzer reports: one that does not start with an underscore. */
  predicate IsPublic(name: string) {
    !StartsWith(name, "_")
  }

  predicate IsPublicFunction(n: Node) {
    n.FunctionDef? && IsPublic(n.name)
  }

  predicate IsPublicClass(n: Node) {
    n.ClassDef? && IsPublic(n.name)
  }

  /** The parameter names without `self`, in order. */
  function WithoutSelf(args: seq<string>): (r: seq<string>)
    ensures |r| <= |args|
    ensures "self" !in r
    ensures forall a :: a in r <==> a in args && a != "self"
  {
    if args == [] then []
    else (if args[0] == "self" then [] else [args[0]]) + WithoutSelf(args[1..])
  }

  /** A parameter as the record shows it: with `=...` when it has a default value. */
  function FormatArg(arg: string, hasDefault: bool): string {
    if hasDefault then arg + "=..." else arg
  }

  /**
   * The argument list as analysis.py:26-41 computes it: drop `self`, then
   * mark the last `len(defaults)` remaining names. When there are more
   * defaults than remaining names (position-only parameters with defaults,
   * or a defaulted `self`), `len(args) - len(defaults)` is negative and
   * Python's slicing counts it from the end.
   */
  function FormatArgsAsWritten(args: seq<string>, defaultCount: nat): (r: seq<string>)
    ensures |r| == |WithoutSelf(args)|
  {
    var kept := WithoutSelf(args);
    if defaultCount == 0 then kept
    else
      var nonDefaultCount := |kept| - defaultCount;
      var split := if nonDefaultCount >= 0 then nonDefaultCount
                   else if |kept| + nonDefaultCount >= 0 then |kept| + nonDefaultCount
                   else 0;
      MarkedFrom(kept, split)
  }

  /** The names with every one from position `split` on marked `=...`. */
  function MarkedFrom(names: seq<string>, split: nat): (r: seq<string>)
    requires split <= |names|
    ensures |r| == |names|
    ensures forall m :: 0 <= m < split ==> r[m] == names[m]
    ensures forall m :: split <= m < |names| ==> r[m] == names[m] + "=..."
  {
    names[..split] + seq(|names| - split, i requires 0 <= i < |names| - split => names[split + i] + "=...")
  }

  /**
   * The argument list from position `i` on, as intended: defaults belong to
   * the last `defaultCount` positional parameters (position-only ones come
   * first, so `args[i]` has one exactly when `i + defaultCount >= |args|`);
   * `self` is dropped after that is decided.
   */
  function FormatArgsFrom(args: seq<string>, defaultCount: nat, i: nat): seq<string>
    requires i <= |args|
    decreases |args| - i
  {
    if i == |args| then []
    else
      (if args[i] == "self" then [] else [FormatArg(args[i], i + defaultCount >= |args|)])
      + FormatArgsFrom(args, defaultCount, i + 1)
  }

  function FormatArgs(args: seq<string>, defaultCount: nat): seq<string> {
    FormatArgsFrom(args, defaultCount, 0)
  }

  lemma {:induction false} FormatArgsFromMarks(args: seq<string>, defaultCount: nat, i: nat)
    requires i <= |args| && "self" !in args
    ensures |FormatArgsFrom(args, defaultCount, i)| == |args| - i
    ensures forall k :: i <= k < |args| ==>
      FormatArgsFrom(args, defaultCount, i)[k - i] == FormatArg(args[k], k + defaultCount >= |args|)
    decreases |args| - i
  {
    if i < |args| {
      var r := FormatArgsFrom(args, defaultCount, i);
      var rest := FormatArgsFrom(args, defaultCount, i + 1);
      FormatArgsFromMarks(args, defaultCount, i + 1);
      assert args[i] in args;
      assert r == [FormatArg(args[i], i + defaultCount >= |args|)] + rest;
      forall k | i < k < |args|
        ensures r[k - i] == FormatArg(args[k], k + defaultCount >= |args|)
      {
        assert r[k - i] == rest[k - (i + 1)];
      }
    }
  }

  /**
   * Without a `self` parameter, every parameter is kept in order, and it
   * carries `=...` exactly when it has a default value.
   */
  lemma FormatArgsMarksDefaults(args: seq<string>, defaultCount: nat)
    requires "self" !in args
    ensures |FormatArgs(args, defaultCount)| == |args|
    ensures forall k :: 0 <= k < |args| ==>
      FormatArgs(args, defaultCount)[k] == FormatArg(args[k], k + defaultCount >= |args|)
  {
    FormatArgsFromMarks(args, defaultCount, 0);
  }

  lemma {:induction false} FormatArgsFromKeeps(args: seq<string>, defaultCount: nat, i: nat)
    requires i <= |args|
    ensures |FormatArgsFrom(args, defaultCount, i)| == |WithoutSelf(args[i..])|
    ensures defaultCount == 0 ==> FormatArgsFrom(args, defaultCount, i) == WithoutSelf(args[i..])
    decreases |args| - i
  {
    if i < |args| {
      assert args[i..][1..] == args[i + 1..];
      FormatArgsFromKeeps(args, defaultCount, i + 1);
    }
  }

  /** `self` is dropped and nothing else; with no defaults the names are unchanged. */
  lemma FormatArgsDropsSelf(args: seq<string>, defaultCount: nat)
    ensures |FormatArgs(args, defaultCount)| == |WithoutSelf(args)|
    ensures defaultCount == 0 ==> FormatArgs(args, defaultCount) == WithoutSelf(args)
  {
    FormatArgsFromKeeps(args, defaultCount, 0);
    assert args[0..] == args;
  }

  /**
   * The code as written agrees with the intended marking whenever there are
   * no more defaults than ordinary parameters (no position-only parameter
   * has a default) and `self`, if present, is not among the defaulted ones.
   */
  lemma FormatArgsAsWrittenAgrees(args: seq<string>, defaultCount: nat)
    requires defaultCount <= |args|
    requires forall k :: |args| - defaultCount <= k < |args| ==> args[k] != "self"
    ensures FormatArgsAsWritten(args, defaultCount) == FormatArgs(args, defaultCount)
  {
    if defaultCount == 0 {
      FormatArgsDropsSelf(args, 0);
    } else {
      var p := |args| - defaultCount;
      var head := WithoutSelf(args[..p]);
      assert WithoutSelf(args) == head + args[p..] by {
        assert args == args[..p] + args[p..];
        WithoutSelfAppend(args[..p], args[p..]);
        assert "self" !in args[p..];
        WithoutSelfKeepsAll(args[p..]);
      }
      var tail := FormatArgsFrom(args, defaultCount, p);
      assert FormatArgs(args, defaultCount) == head + tail by {
        FormatArgsFromHead(args, defaultCount, 0);
        assert args[0..p] == args[..p];
      }
      assert FormatArgsAsWritten(args, defaultCount) == MarkedFrom(head + args[p..], |head|);
      FormatArgsFromTail(args, defaultCount, p);
      MarkedFromAppend(head, args[p..], tail);
    }
  }

  /** Marking everything after `head` gives `head` followed by the marked rest. */
  lemma MarkedFromAppend(head: seq<string>, rest: seq<string>, marked: seq<string>)
    requires |marked| == |rest| && forall j :: 0 <= j < |rest| ==> marked[j] == rest[j] + "=..."
    ensures MarkedFrom(head + rest, |head|) == head + marked
  {
    var r := MarkedFrom(head + rest, |head|);
    forall k | 0 <= k < |r|
      ensures r[k] == (head + marked)[k]
    {
      if k >= |head| {
        assert (head + rest)[k] == rest[k - |head|];
      }
    }
  }

  lemma {:induction false} WithoutSelfAppend(a: seq<string>, b: seq<string>)
    ensures WithoutSelf(a + b) == WithoutSelf(a) + WithoutSelf(b)
  {
    if a != [] {
      var first := if a[0] == "self" then [] else [a[0]];
      assert (a + b)[1..] == a[1..] + b;
      WithoutSelfAppend(a[1..], b);
      assert WithoutSelf(a + b) == first + (WithoutSelf(a[1..]) + WithoutSelf(b));
      assert WithoutSelf(a) == first + WithoutSelf(a[1..]);
    } else {
      assert a + b == b;
    }
  }

  /** Before the defaulted parameters, the intended list is just the names without `self`. */
  lemma {:induction false} FormatArgsFromHead(args: seq<string>, defaultCount: nat, i: nat)
    requires defaultCount <= |args| && i <= |args| - defaultCount
    ensures FormatArgsFrom(args, defaultCount, i)
      == WithoutSelf(args[i..|args| - defaultCount]) + FormatArgsFrom(args, defaultCount, |args| - defaultCount)
    decreases |args| - i
  {
    var p := |args| - defaultCount;
    if i < p {
      FormatArgsFromHead(args, defaultCount, i + 1);
      assert args[i..p][1..] == args[i + 1..p];
    }
  }

  /** From the first defaulted parameter on, every name is marked. */
  lemma {:induction false} FormatArgsFromTail(args: seq<string>, defaultCount: nat, i: nat)
    requires |args| - defaultCount <= i <= |args|
    requires forall k :: i <= k < |args| ==> args[k] != "self"
    ensures |FormatArgsFrom(args, defaultCount, i)| == |args| - i
    ensures forall j :: 0 <= j < |args| - i ==> FormatArgsFrom(args, defaultCount, i)[j] == args[i + j] + "=..."
    decreases |args| - i
  {
    if i < |args| {
      FormatArgsFromTail(args, defaultCount, i + 1);
      var rest := FormatArgsFrom(args, defaultCount, i + 1);
      assert FormatArgsFrom(args, defaultCount, i) == [args[i] + "=..."] + rest;
    }
  }

  lemma {:induction false} WithoutSelfKeepsAll(args: seq<string>)
    requires "self" !in args
    ensures WithoutSelf(args) == args
  {
    if args != [] {
      WithoutSelfKeepsAll(args[1..]);
    }
  }

  /**
   * `def f(p=0, /, x=1, y=2)`: all three parameters have defaults, but the
   * code as written shows `x` without its `=...`.
   */
  lemma FormatArgsAsWrittenMissesDefault()
    ensures FormatArgsAsWritten(["x", "y"], 3) == ["x", "y=..."]
    ensures FormatArgs(["x", "y"], 3) == ["x=...", "y=..."]
  {
    var args := ["x", "y"];
    assert WithoutSelf(args) == args by {
      WithoutSelfKeepsAll(args);
    }
    var asWritten := FormatArgsAsWritten(args, 3);
    assert |asWritten| == 2 && asWritten[0] == "x" && asWritten[1] == "y" + "=...";
    FormatArgsMarksDefaults(args, 3);
    var intended := FormatArgs(args, 3);
    assert intended[0] == "x=..." && intended[1] == "y=...";
  }

  /**
   * `def f(x, self=1)`: the default belongs to `self`, which is dropped
   * before the slicing, so the code as written marks `x` instead.
   */
  lemma FormatArgsAsWrittenMarksSelfDefault(x: string)
    requires x != "self"
    ensures FormatArgsAsWritten([x, "self"], 1) == [x + "=..."]
    ensures FormatArgs([x, "self"], 1) == [x]
  {
    var args := [x, "self"];
    assert WithoutSelf(args) == [x] by {
      assert args[1..] == ["self"];
      assert WithoutSelf(["self"]) == [] by {
        assert ["self"][1..] == [];
      }
    }
    assert FormatArgsFrom(args, 1, 1) == [] by {
      assert FormatArgsFrom(args, 1, 2) == [];
    }
  }

  /**
   * Intended: a `self` parameter at position `k` is dropped and the other
   * parameters keep exactly the marks they would have without it; only
   * when `self` itself has a default is there one default fewer.
   */
  lemma FormatArgsIgnoresSelf(args: seq<string>, defaultCount: nat, k: nat)
    requires k < |args| && args[k] == "self"
    ensures var others := args[..k] + args[k + 1..];
      var othersDefaults := if k + defaultCount >= |args| then defaultCount - 1 else defaultCount;
      FormatArgs(args, defaultCount) == FormatArgs(others, othersDefaults)
  {
    FormatArgsIgnoresSelfBefore(args, defaultCount, k, 0);
  }

  lemma {:induction false} FormatArgsIgnoresSelfAfter(args: seq<string>, defaultCount: nat, k: nat, i: nat)
    requires k < i <= |args|
    ensures var others := args[..k] + args[k + 1..];
      var othersDefaults := if k + defaultCount >= |args| then defaultCount - 1 else defaultCount;
      FormatArgsFrom(args, defaultCount, i) == FormatArgsFrom(others, othersDefaults, i - 1)
    decreases |args| - i
  {
    var others := args[..k] + args[k + 1..];
    if i < |args| {
      FormatArgsIgnoresSelfAfter(args, defaultCount, k, i + 1);
      assert others[i - 1] == args[i];
    }
  }

  lemma {:induction false} FormatArgsIgnoresSelfBefore(args: seq<string>, defaultCount: nat, k: nat, i: nat)
    requires k < |args| && args[k] == "self" && i <= k
    ensures var others := args[..k] + args[k + 1..];
      var othersDefaults := if k + defaultCount >= |args| then defaultCount - 1 else defaultCount;
      FormatArgsFrom(args, defaultCount, i) == FormatArgsFrom(others, othersDefaults, i)
    decreases k - i
  {
    var others := args[..k] + args[k + 1..];
    if i < k {
      FormatArgsIgnoresSelfBefore(args, defaultCount, k, i + 1);
      assert others[i] == args[i];
    } else {
      FormatArgsIgnoresSelfAfter(args, defaultCount, k, k + 1);
    }
  }

  function FunctionRecordOf(n: Node): FunctionRecord
    requires n.FunctionDef?
  {
    FunctionRecord(n.name, FormatArgsAsWritten(n.args, n.defaultCount), n.docstring)
  }

  function MethodRecordOf(n: Node): MethodRecord
    requires n.FunctionDef?
  {
    MethodRecord(n.name, WithoutSelf(n.args))
  }

  /** The methods of a class: its public `def`s, from its own body only (analysis.py:51-59). */
  function MethodsOf(body: seq<Node>): seq<MethodRecord> {
    if body == [] then []
    else
      var last := body[|body| - 1];
      MethodsOf(body[..|body| - 1]) + (if IsPublicFunction(last) then [MethodRecordOf(last)] else [])
  }

  function ClassRecordOf(n: Node): ClassRecord
    requires n.ClassDef?
  {
    ClassRecord(n.name, MethodsOf(n.body), n.docstring)
  }

  /** The names one assignment contributes: each public bare-name target, when the value is a literal (analysis.py:69-73). */
  function AssignedNames(targets: seq<Target>, value: Expr): seq<string> {
    if targets == [] then []
    else
      var t := targets[|targets| - 1];
      AssignedNames(targets[..|targets| - 1], value)
      + (if t.Name? && IsPublic(t.id) && value == Constant then [t.id] else [])
  }

  /** The function records for the nodes visited so far. */
  function FunctionsOf(nodes: seq<Node>): seq<FunctionRecord> {
    if nodes == [] then []
    else
      var last := nodes[|nodes| - 1];
      FunctionsOf(nodes[..|nodes| - 1]) + (if IsPublicFunction(last) then [FunctionRecordOf(last)] else [])
  }

  /** The class records for the nodes visited so far. */
  function ClassesOf(nodes: seq<Node>): seq<ClassRecord> {
    if nodes == [] then []
    else
      var last := nodes[|nodes| - 1];
      ClassesOf(nodes[..|nodes| - 1]) + (if IsPublicClass(last) then [ClassRecordOf(last)] else [])
  }

  /** The constant names for the nodes visited so far. */
  function VariablesOf(nodes: seq<Node>): seq<string> {
    if nodes == [] then []
    else
      var last := nodes[|nodes| - 1];
      VariablesOf(nodes[..|nodes| - 1]) + (if last.Assign? then AssignedNames(last.targets, last.value) else [])
  }

  function ReportOf(nodes: seq<Node>): Report {
    Report(FunctionsOf(nodes), ClassesOf(nodes), VariablesOf(nodes))
  }

  /** What `analyze_module` returns for a file that exists or not, has a suffix, and reads and parses or not. */
  function Analyze(fileExists: bool, suffix: string, source: SourceText): Report {
    if !fileExists || suffix != ".py" then EmptyReport
    else match source
      case Unreadable => EmptyReport
      case Parsed(tree) => ReportOf(Walk(tree))
  }

  /**
   * The argument list of a function record (analysis.py:26-39): collect the
   * names other than `self`, then mark the names from position
   * `len(args) - len(defaults)` on, with Python's slicing of a negative
   * position. It is the intended list whenever the defaults fall on
   * ordinary parameters other than `self`.
   */
  method FormatParameters(args: seq<string>, defaultCount: nat) returns (formatted: seq<string>)
    ensures formatted == FormatArgsAsWritten(args, defaultCount)
    ensures "self" !in formatted
    ensures defaultCount <= |args| && (forall k :: |args| - defaultCount <= k < |args| ==> args[k] != "self")
      ==> formatted == FormatArgs(args, defaultCount)
  {
    var kept := KeepNonSelf(args);
    if defaultCount == 0 {
      formatted := kept;
    } else {
      var nonDefaultCount := |kept| - defaultCount;
      var split := if nonDefaultCount >= 0 then nonDefaultCount
                   else if |kept| + nonDefaultCount >= 0 then |kept| + nonDefaultCount
                   else 0;
      formatted := MarkDefaults(kept, split);
    }
    AsWrittenHasNoSelf(args, defaultCount);
    if defaultCount <= |args| && (forall k :: |args| - defaultCount <= k < |args| ==> args[k] != "self") {
      FormatArgsAsWrittenAgrees(args, defaultCount);
    }
  }

  /** The parameter names other than `self`, collected in order (analysis.py:28). */
  method KeepNonSelf(args: seq<string>) returns (kept: seq<string>)
    ensures kept == WithoutSelf(args)
  {
    kept := [];
    for i := 0 to |args|
      invariant kept + WithoutSelf(args[i..]) == WithoutSelf(args)
    {
      assert args[i..][1..] == args[i + 1..];
      if args[i] != "self" {
        assert kept + WithoutSelf(args[i..]) == (kept + [args[i]]) + WithoutSelf(args[i + 1..]);
        kept := kept + [args[i]];
      }
    }
    assert args[|args|..] == [];
  }

  /** The names before `split` unchanged, then `f"{arg}=..."` for each of the rest (analysis.py:39). */
  method MarkDefaults(names: seq<string>, split: nat) returns (marked: seq<string>)
    requires split <= |names|
    ensures marked == MarkedFrom(names, split)
  {
    marked := names[..split];
    for j := split to |names|
      invariant |marked| == j
      invariant forall m :: 0 <= m < split ==> marked[m] == names[m]
      invariant forall m :: split <= m < j ==> marked[m] == names[m] + "=..."
    {
      marked := marked + [names[j] + "=..."];
    }
  }

  /** The record of one public function definition. */
  method FunctionRecordFor(node: Node) returns (record: FunctionRecord)
    requires node.FunctionDef?
    ensures record == FunctionRecordOf(node)
  {
    var args := FormatParameters(node.args, node.defaultCount);
    record := FunctionRecord(node.name, args, node.docstring);
  }

  /** The methods found in a class body. */
  method CollectMethods(body: seq<Node>) returns (methods: seq<MethodRecord>)
    ensures methods == MethodsOf(body)
    ensures forall m :: m in methods <==> exists n :: n in body && IsPublicFunction(n) && MethodRecordOf(n) == m
  {
    methods := [];
    for i := 0 to |body|
      invariant methods == MethodsOf(body[..i])
    {
      var node := body[i];
      assert body[..i + 1][..i] == body[..i];
      if node.FunctionDef? && IsPublic(node.name) {
        var methodArgs := WithoutSelf(node.args);
        methods := methods + [MethodRecord(node.name, methodArgs)];
      }
    }
    assert body[..|body|] == body;
    forall m
      ensures m in methods <==> exists n :: n in body && IsPublicFunction(n) && MethodRecordOf(n) == m
    {
      MethodsOfExactly(body, m);
    }
  }

  /** The constants one assignment contributes. */
  method CollectAssignedNames(targets: seq<Target>, value: Expr) returns (names: seq<string>)
    ensures names == AssignedNames(targets, value)
  {
    names := [];
    for i := 0 to |targets|
      invariant names == AssignedNames(targets[..i], value)
    {
      var target := targets[i];
      assert targets[..i + 1][..i] == targets[..i];
      if target.Name? && IsPublic(target.id) {
        if value == Constant {
          names := names + [target.id];
        }
      }
    }
    assert targets[..|targets|] == targets;
  }

  /**
   * `analyze_module`: a missing file, a path not ending in `.py`, and a
   * file that cannot be read, decoded or parsed all give three empty
   * lists; otherwise the records of the walked tree.
   */
  method AnalyzeModule(fileExists: bool, suffix: string, source: SourceText) returns (report: Report)
    ensures !fileExists || suffix != ".py" || source.Unreadable? ==> report == EmptyReport
    ensures fileExists && suffix == ".py" && source.Parsed? ==> report == ReportOf(Walk(source.tree))
    ensures report == Analyze(fileExists, suffix, source)
  {
    if !fileExists || suffix != ".py" {
      return EmptyReport;
    }
    match source
    case Unreadable =>
      return EmptyReport;
    case Parsed(tree) =>
      var nodes := Walk(tree);
      var functions: seq<FunctionRecord> := [];
      var classes: seq<ClassRecord> := [];
      var variables: seq<string> := [];
      for i := 0 to |nodes|
        invariant functions == FunctionsOf(nodes[..i])
        invariant classes == ClassesOf(nodes[..i])
        invariant variables == VariablesOf(nodes[..i])
      {
        var node := nodes[i];
        assert nodes[..i + 1][..i] == nodes[..i];
        if node.FunctionDef? && IsPublic(node.name) {
          var record := FunctionRecordFor(node);
          functions := functions + [record];
        } else if node.ClassDef? && IsPublic(node.name) {
          var methods := CollectMethods(node.body);
          classes := classes + [ClassRecord(node.name, methods, node.docstring)];
        } else if node.Assign? {
          var names := CollectAssignedNames(node.targets, node.value);
          variables := variables + names;
        }
      }
      assert nodes[..|nodes|] == nodes;
      report := Report(functions, classes, variables);
  }

  // ---------------------------------------------------------------------
  // What the records promise

  /** Splitting the walk order: the records for `a + b` are those for `a` followed by those for `b`. */
  lemma {:induction false} FunctionsOfAppend(a: seq<Node>, b: seq<Node>)
    ensures FunctionsOf(a + b) == FunctionsOf(a) + FunctionsOf(b)
    decreases |b|
  {
    if b == [] {
      assert a + b == a;
    } else {
      var b' := b[..|b| - 1];
      assert (a + b)[..|a + b| - 1] == a + b';
      assert (a + b)[|a + b| - 1] == b[|b| - 1];
      FunctionsOfAppend(a, b');
    }
  }

  lemma {:induction false} ClassesOfAppend(a: seq<Node>, b: seq<Node>)
    ensures ClassesOf(a + b) == ClassesOf(a) + ClassesOf(b)
    decreases |b|
  {
    if b == [] {
      assert a + b == a;
    } else {
      var b' := b[..|b| - 1];
      assert (a + b)[..|a + b| - 1] == a + b';
      assert (a + b)[|a + b| - 1] == b[|b| - 1];
      ClassesOfAppend(a, b');
    }
  }

  lemma {:induction false} VariablesOfAppend(a: seq<Node>, b: seq<Node>)
    ensures VariablesOf(a + b) == VariablesOf(a) + VariablesOf(b)
    decreases |b|
  {
    if b == [] {
      assert a + b == a;
    } else {
      var b' := b[..|b| - 1];
      assert (a + b)[..|a + b| - 1] == a + b';
      assert (a + b)[|a + b| - 1] == b[|b| - 1];
      var last := b[|b| - 1];
      var names := if last.Assign? then AssignedNames(last.targets, last.value) else [];
      assert VariablesOf(a + b) == VariablesOf(a + b') + names;
      VariablesOfAppend(a, b');
      assert (VariablesOf(a) + VariablesOf(b')) + names == VariablesOf(a) + (VariablesOf(b') + names);
    }
  }

  lemma {:induction false} MethodsOfPublic(body: seq<Node>)
    ensures forall m :: m in MethodsOf(body) ==> IsPublic(m.name) && "self" !in m.args
  {
    if body != [] {
      MethodsOfPublic(body[..|body| - 1]);
    }
  }

  lemma {:induction false} AssignedNamesPublic(targets: seq<Target>, value: Expr)
    ensures forall v :: v in AssignedNames(targets, value) ==> IsPublic(v)
    ensures value != Constant ==> AssignedNames(targets, value) == []
  {
    if targets != [] {
      AssignedNamesPublic(targets[..|targets| - 1], value);
    }
  }

  /**
   * No reported function, class, method or constant name starts with an
   * underscore, and no argument list contains `self`.
   */
  lemma {:induction false} ReportNamesPublic(nodes: seq<Node>)
    ensures forall f :: f in FunctionsOf(nodes) ==> IsPublic(f.name) && "self" !in f.args
    ensures forall c :: c in ClassesOf(nodes) ==>
      IsPublic(c.name) && forall m :: m in c.methods ==> IsPublic(m.name) && "self" !in m.args
    ensures forall v :: v in VariablesOf(nodes) ==> IsPublic(v)
  {
    if nodes != [] {
      var last := nodes[|nodes| - 1];
      ReportNamesPublic(nodes[..|nodes| - 1]);
      if last.FunctionDef? {
        AsWrittenHasNoSelf(last.args, last.defaultCount);
      }
      if last.ClassDef? {
        MethodsOfPublic(last.body);
      }
      if last.Assign? {
        AssignedNamesPublic(last.targets, last.value);
      }
    }
  }

  /** The source's argument lists never show `self`: kept names are not `self`, marked ones end in `=...`. */
  lemma AsWrittenHasNoSelf(args: seq<string>, defaultCount: nat)
    ensures "self" !in FormatArgsAsWritten(args, defaultCount)
  {
    var kept := WithoutSelf(args);
    var r := FormatArgsAsWritten(args, defaultCount);
    forall m | 0 <= m < |r|
      ensures r[m] != "self"
    {
      assert kept[m] in kept;
      if r[m] != kept[m] {
        assert r[m] == kept[m] + "=...";
        assert r[m][|kept[m]|] == '=';
      }
    }
  }

  lemma {:induction false} FormatArgsHasNoSelf(args: seq<string>, defaultCount: nat, i: nat)
    requires i <= |args|
    ensures "self" !in FormatArgsFrom(args, defaultCount, i)
    decreases |args| - i
  {
    if i < |args| {
      var rest := FormatArgsFrom(args, defaultCount, i + 1);
      FormatArgsHasNoSelf(args, defaultCount, i + 1);
      if args[i] != "self" {
        var arg := FormatArg(args[i], i + defaultCount >= |args|);
        assert arg != "self" by {
          if arg != args[i] {
            assert arg[|args[i]|] == '=';
          }
        }
        assert FormatArgsFrom(args, defaultCount, i) == [arg] + rest;
      }
    }
  }

  /** Exactly the public `def`s among the visited nodes are reported as functions, each by its own record. */
  lemma {:induction false} FunctionsOfExactly(nodes: seq<Node>, f: FunctionRecord)
    ensures f in FunctionsOf(nodes) <==> exists n :: n in nodes && IsPublicFunction(n) && FunctionRecordOf(n) == f
  {
    if nodes != [] {
      var init := nodes[..|nodes| - 1];
      var last := nodes[|nodes| - 1];
      FunctionsOfExactly(init, f);
      assert nodes == init + [last];
      if exists n :: n in nodes && IsPublicFunction(n) && FunctionRecordOf(n) == f {
        var n :| n in nodes && IsPublicFunction(n) && FunctionRecordOf(n) == f;
        if n != last {
          assert n in init;
        }
      }
    }
  }

  /**
   * The methods of a class are exactly the records of the public `def`s of
   * its own body (analysis.py:52 iterates `node.body`, not the walk).
   */
  lemma {:induction false} MethodsOfExactly(body: seq<Node>, m: MethodRecord)
    ensures m in MethodsOf(body) <==> exists n :: n in body && IsPublicFunction(n) && MethodRecordOf(n) == m
  {
    if body != [] {
      var init := body[..|body| - 1];
      var last := body[|body| - 1];
      MethodsOfExactly(init, m);
      assert body == init + [last];
      if exists n :: n in body && IsPublicFunction(n) && MethodRecordOf(n) == m {
        var n :| n in body && IsPublicFunction(n) && MethodRecordOf(n) == m;
        if n != last {
          assert n in init;
        }
      }
    }
  }

  /** Exactly the public `class`es among the visited nodes are reported as classes. */
  lemma {:induction false} ClassesOfExactly(nodes: seq<Node>, c: ClassRecord)
    ensures c in ClassesOf(nodes) <==> exists n :: n in nodes && IsPublicClass(n) && ClassRecordOf(n) == c
  {
    if nodes != [] {
      var init := nodes[..|nodes| - 1];
      var last := nodes[|nodes| - 1];
      ClassesOfExactly(init, c);
      assert nodes == init + [last];
      if exists n :: n in nodes && IsPublicClass(n) && ClassRecordOf(n) == c {
        var n :| n in nodes && IsPublicClass(n) && ClassRecordOf(n) == c;
        if n != last {
          assert n in init;
        }
      }
    }
  }

  lemma {:induction false} AssignedNamesExactly(targets: seq<Target>, value: Expr, v: string)
    ensures v in AssignedNames(targets, value) <==> Name(v) in targets && IsPublic(v) && value == Constant
  {
    if targets != [] {
      var init := targets[..|targets| - 1];
      AssignedNamesExactly(init, value, v);
      assert targets == init + [targets[|targets| - 1]];
    }
  }

  /**
   * A constant is reported exactly when some visited assignment has it as a
   * bare-name target, its value is a literal, and it is public.
   */
  lemma {:induction false} VariablesOfExactly(nodes: seq<Node>, v: string)
    ensures v in VariablesOf(nodes) <==>
      exists n :: n in nodes && n.Assign? && Name(v) in n.targets && n.value == Constant && IsPublic(v)
  {
    if nodes != [] {
      var init := nodes[..|nodes| - 1];
      var last := nodes[|nodes| - 1];
      VariablesOfExactly(init, v);
      assert nodes == init + [last];
      if last.Assign? {
        AssignedNamesExactly(last.targets, last.value, v);
      }
      if exists n :: n in nodes && n.Assign? && Name(v) in n.targets && n.value == Constant && IsPublic(v) {
        var n :| n in nodes && n.Assign? && Name(v) in n.targets && n.value == Constant && IsPublic(v);
        if n != last {
          assert n in init;
        }
      }
    }
  }

  lemma {:induction false} MethodsOfContains(body: seq<Node>, m: Node)
    requires m in body && IsPublicFunction(m)
    ensures MethodRecordOf(m) in MethodsOf(body)
  {
    var init := body[..|body| - 1];
    if m != body[|body| - 1] {
      assert body == init + [body[|body| - 1]];
      assert m in init;
      MethodsOfContains(init, m);
    }
  }

  /**
   * A public method of a public class the walk reaches is reported twice:
   * under its class, and (with its defaults marked) among the functions,
   * because `ast.walk` also visits the class body.
   */
  lemma MethodsAreAlsoFunctions(tree: Node, c: Node, m: Node)
    requires c in Walk(tree) && IsPublicClass(c)
    requires m in c.body && IsPublicFunction(m)
    ensures MethodRecordOf(m) in ClassRecordOf(c).methods
    ensures FunctionRecordOf(m) in FunctionsOf(Walk(tree))
  {
    MethodsOfContains(c.body, m);
    WalkVisitsTree(tree);
    assert m in Children(c);
    assert m in Walk(tree);
    FunctionsOfExactly(Walk(tree), FunctionRecordOf(m));
  }

}
