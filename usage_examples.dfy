/**
 * `generate_usage_examples` (nopkg/analysis.py:85-147): the display lines
 * shown after an install, built from a module name and its analysis
 * record.
 *
 * The lines are: `import M`; one `from M import ...` line for the first
 * three functions and one for the first two classes; then, when there is
 * anything to call, the header and a call line for each of the first two
 * functions, an instantiation of the first class and a call of its first
 * method.
 */
module UsageExamples {
  import opened Strings
  import opened Analysis

  const UsageHeader := "\n# Usage examples:"

  /** Python's `s[:n]`. */
  function Take<T>(s: seq<T>, n: nat): (r: seq<T>)
    ensures |r| == if |s| <= n then |s| else n
    ensures r == s[..|r|]
  {
    if |s| <= n then s else s[..n]
  }

  function ImportStatement(moduleName: string): string {
    "import " + moduleName
  }

  function FromImport(moduleName: string, names: seq<string>): string {
    "from " + moduleName + " import " + Join(", ", names)
  }

  function FunctionNames(functions: seq<FunctionRecord>): (names: seq<string>)
    ensures |names| == |functions| && forall i :: 0 <= i < |functions| ==> names[i] == functions[i].name
  {
    seq(|functions|, i requires 0 <= i < |functions| => functions[i].name)
  }

  function ClassNames(classes: seq<ClassRecord>): (names: seq<string>)
    ensures |names| == |classes| && forall i :: 0 <= i < |classes| ==> names[i] == classes[i].name
  {
    seq(|classes|, i requires 0 <= i < |classes| => classes[i].name)
  }

  /** The import lines: the first three function names, then the first two class names. */
  function ImportLines(moduleName: string, analysis: Report): seq<string> {
    (if analysis.functions == [] then []
     else [FromImport(moduleName, FunctionNames(Take(analysis.functions, 3)))])
    + (if analysis.classes == [] then []
       else [FromImport(moduleName, ClassNames(Take(analysis.classes, 2)))])
  }

  /**
   * The value suggested for an argument: the first rule that matches the
   * lower-cased argument text, in a fixed order (analysis.py:117-126).
   */
  function SuggestArg(arg: string): (v: string)
    ensures v != ""
    ensures v in {"\"World\"", "\"hello world\"", "5", "10", "42"}
  {
    var lowered := Lower(arg);
    if Contains(lowered, "name") then "\"World\""
    else if Contains(lowered, "text") || Contains(lowered, "string") || Contains(lowered, "word") then "\"hello world\""
    else if Contains(lowered, "radius") || Contains(lowered, "num") || Contains(lowered, "n") then "5"
    else if lowered == "a" || lowered == "b" then "10"
    else "42"
  }

  function Suggestions(args: seq<string>): (values: seq<string>)
    ensures |values| == |args| && forall i :: 0 <= i < |args| ==> values[i] == SuggestArg(args[i])
  {
    seq(|args|, i requires 0 <= i < |args| => SuggestArg(args[i]))
  }

  /** `receiver.name(v1, v2, ...)`. */
  function CallText(receiver: string, name: string, values: seq<string>): string {
    receiver + "." + name + "(" + Join(", ", values) + ")"
  }

  /** A function called with suggestions for its first two arguments. */
  function FunctionCallLine(moduleName: string, f: FunctionRecord): string {
    CallText(moduleName, f.name, Suggestions(Take(f.args, 2)))
  }

  /** A method called on `obj` with `42` for each of its first two arguments. */
  function MethodCallLine(m: MethodRecord): string {
    CallText("obj", m.name, seq(|Take(m.args, 2)|, _ => "42"))
  }

  function ClassLines(moduleName: string, c: ClassRecord): seq<string> {
    ["obj = " + moduleName + "." + c.name + "()"]
    + (if c.methods == [] then [] else [MethodCallLine(c.methods[0])])
  }

  function FunctionCalls(moduleName: string, functions: seq<FunctionRecord>): (lines: seq<string>)
    ensures |lines| == |functions| && forall i :: 0 <= i < |functions| ==> lines[i] == FunctionCallLine(moduleName, functions[i])
  {
    seq(|functions|, i requires 0 <= i < |functions| => FunctionCallLine(moduleName, functions[i]))
  }

  /** The call lines: the first two functions, then the first class. */
  function CallLines(moduleName: string, analysis: Report): seq<string> {
    FunctionCalls(moduleName, Take(analysis.functions, 2))
    + (if analysis.classes == [] then [] else ClassLines(moduleName, analysis.classes[0]))
  }

  /** The whole display: import, import lines, and the usage section when there is one. */
  function Examples(moduleName: string, analysis: Report): seq<string> {
    var calls := CallLines(moduleName, analysis);
    [ImportStatement(moduleName)] + ImportLines(moduleName, analysis)
    + (if calls == [] then [] else [UsageHeader] + calls)
  }

  /** The suggestion loop for one function's first two arguments (analysis.py:115-126). */
  method SuggestValues(args: seq<string>) returns (suggestedArgs: seq<string>)
    ensures suggestedArgs == Suggestions(Take(args, 2))
  {
    suggestedArgs := [];
    var firstArgs := Take(args, 2);
    for j := 0 to |firstArgs|
      invariant suggestedArgs == Suggestions(firstArgs[..j])
    {
      suggestedArgs := suggestedArgs + [SuggestArg(firstArgs[j])];
    }
    assert firstArgs[..|firstArgs|] == firstArgs;
  }

  /** The import lines, as the source builds them (analysis.py:87-106). */
  method ImportSection(moduleName: string, analysis: Report) returns (examples: seq<string>)
    ensures examples == [ImportStatement(moduleName)] + ImportLines(moduleName, analysis)
  {
    examples := ["import " + moduleName];

    if analysis.functions != [] {
      var funcNames := FunctionNames(Take(analysis.functions, 3));
      if |funcNames| == 1 {
        examples := examples + ["from " + moduleName + " import " + funcNames[0]];
      } else if |funcNames| > 1 {
        examples := examples + ["from " + moduleName + " import " + Join(", ", funcNames)];
      }
    }

    if analysis.classes != [] {
      var classNames := ClassNames(Take(analysis.classes, 2));
      if |classNames| == 1 {
        examples := examples + ["from " + moduleName + " import " + classNames[0]];
      } else if |classNames| > 1 {
        examples := examples + ["from " + moduleName + " import " + Join(", ", classNames)];
      }
    }
  }

  /** The usage lines for the first two functions (analysis.py:111-130). */
  method FunctionUsage(moduleName: string, functions: seq<FunctionRecord>) returns (usageExamples: seq<string>)
    ensures usageExamples == FunctionCalls(moduleName, Take(functions, 2))
  {
    usageExamples := [];
    var shownFunctions := Take(functions, 2);
    for i := 0 to |shownFunctions|
      invariant usageExamples == FunctionCalls(moduleName, shownFunctions[..i])
    {
      var func := shownFunctions[i];
      var line;
      if func.args != [] {
        var suggestedArgs := SuggestValues(func.args);
        var argsStr := Join(", ", suggestedArgs);
        line := moduleName + "." + func.name + "(" + argsStr + ")";
      } else {
        line := moduleName + "." + func.name + "()";
      }
      assert line == FunctionCallLine(moduleName, func);
      usageExamples := usageExamples + [line];
      assert shownFunctions[..i + 1] == shownFunctions[..i] + [func];
    }
    assert shownFunctions[..|shownFunctions|] == shownFunctions;
  }

  /** The usage lines for the first class and its first method (analysis.py:132-141). */
  method ClassUsage(moduleName: string, cls: ClassRecord) returns (usageExamples: seq<string>)
    ensures usageExamples == ClassLines(moduleName, cls)
  {
    usageExamples := ["obj = " + moduleName + "." + cls.name + "()"];
    if cls.methods != [] {
      var method_ := cls.methods[0];
      var line;
      if method_.args != [] {
        var argsStr := Join(", ", seq(|Take(method_.args, 2)|, _ => "42"));
        line := "obj." + method_.name + "(" + argsStr + ")";
      } else {
        line := "obj." + method_.name + "()";
      }
      assert line == MethodCallLine(method_);
      usageExamples := usageExamples + [line];
    }
  }

  /** `generate_usage_examples`: import lines, then the usage section when there is one. */
  method GenerateUsageExamples(moduleName: string, analysis: Report) returns (examples: seq<string>)
    ensures examples == Examples(moduleName, analysis)
  {
    examples := ImportSection(moduleName, analysis);
    var usageExamples := FunctionUsage(moduleName, analysis.functions);
    if analysis.classes != [] {
      var classLines := ClassUsage(moduleName, analysis.classes[0]);
      usageExamples := usageExamples + classLines;
    }
    assert usageExamples == CallLines(moduleName, analysis);
    if usageExamples != [] {
      examples := examples + [UsageHeader];
      examples := examples + usageExamples;
    }
  }

  /** The display always opens with the plain import of the module. */
  lemma ExamplesStartWithImport(moduleName: string, analysis: Report)
    ensures |Examples(moduleName, analysis)| >= 1
    ensures Examples(moduleName, analysis)[0] == "import " + moduleName
  {
  }

  /** Every call line ends with a closing parenthesis. */
  lemma CallLinesEndWithParen(moduleName: string, analysis: Report)
    ensures forall k :: 0 <= k < |CallLines(moduleName, analysis)| ==>
              var line := CallLines(moduleName, analysis)[k];
              line != [] && line[|line| - 1] == ')'
  {
  }

  /** Each function's line calls it on the module: `module.name(` up to the closing parenthesis. */
  lemma FunctionCallsShape(moduleName: string, functions: seq<FunctionRecord>, i: nat)
    requires i < |functions|
    ensures var line := FunctionCalls(moduleName, functions)[i];
      StartsWith(line, moduleName + "." + functions[i].name + "(") && line[|line| - 1] == ')'
  {
    var head := moduleName + "." + functions[i].name + "(";
    var values := Suggestions(Take(functions[i].args, 2));
    var line := FunctionCalls(moduleName, functions)[i];
    assert line == head + (Join(", ", values) + ")");
    assert line[..|head|] == head;
  }

  /** How many call lines there are: one per shown function, one for the class, one for its method. */
  lemma CallLinesCount(moduleName: string, analysis: Report)
    ensures |CallLines(moduleName, analysis)| ==
              (if |analysis.functions| <= 2 then |analysis.functions| else 2)
              + (if analysis.classes == [] then 0
                 else if analysis.classes[0].methods == [] then 1 else 2)
  {
  }

  /**
   * The usage header appears exactly when the module has a public function
   * or class, right after the import lines, and nowhere else; the display
   * then has at most eight lines.
   */
  lemma UsageSection(moduleName: string, analysis: Report)
    ensures var ex := Examples(moduleName, analysis);
            var h := 1 + |ImportLines(moduleName, analysis)|;
            && (UsageHeader in ex <==> analysis.functions != [] || analysis.classes != [])
            && (UsageHeader in ex ==> |ex| > h && ex[h] == UsageHeader
                                      && forall k :: 0 <= k < |ex| && k != h ==> ex[k] != UsageHeader)
            && |ex| <= 8
  {
    var ex := Examples(moduleName, analysis);
    var imports := [ImportStatement(moduleName)] + ImportLines(moduleName, analysis);
    var calls := CallLines(moduleName, analysis);
    var h := |imports|;
    CallLinesCount(moduleName, analysis);
    CallLinesEndWithParen(moduleName, analysis);
    assert calls == [] <==> analysis.functions == [] && analysis.classes == [];
    assert UsageHeader[0] == '\n' && UsageHeader[|UsageHeader| - 1] == ':';
    forall k | 0 <= k < |imports|
      ensures imports[k] != UsageHeader
    {
      assert imports[k][0] == 'i' || imports[k][0] == 'f';
    }
    if calls == [] {
      assert ex == imports;
    } else {
      assert ex == imports + [UsageHeader] + calls;
      forall k | 0 <= k < |ex| && k != h
        ensures ex[k] != UsageHeader
      {
        if k > h {
          assert ex[k] == calls[k - h - 1];
        }
      }
    }
  }

  /** The display is empty of usage lines, and holds only the import, exactly when nothing public was found. */
  lemma OnlyImportWhenNothingPublic(moduleName: string, analysis: Report)
    ensures Examples(moduleName, analysis) == [ImportStatement(moduleName)]
            <==> analysis.functions == [] && analysis.classes == []
  {
    CallLinesCount(moduleName, analysis);
  }

  /** A single name is imported on its own, several are separated by commas (analysis.py:95-98, 103-106). */
  lemma FromImportNames(moduleName: string, names: seq<string>)
    requires 1 <= |names|
    ensures |names| == 1 ==> FromImport(moduleName, names) == "from " + moduleName + " import " + names[0]
    ensures |names| == 2 ==> FromImport(moduleName, names) == "from " + moduleName + " import " + names[0] + ", " + names[1]
  {
    if |names| == 2 {
      assert Join(", ", names[1..]) == names[1];
    }
  }

  /** Suggestions depend only on the lower-cased argument. */
  lemma SuggestIgnoresCase(arg: string)
    ensures SuggestArg(Lower(arg)) == SuggestArg(arg)
  {
    LowerIdempotent(arg);
  }

  /**
   * A default marker on an argument (`p=...`, as the analysis records it)
   * leaves the suggestion unchanged, except for the arguments `a` and `b`,
   * which only match by equality and fall back to `42`.
   */
  lemma SuggestWithDefaultMarker(p: string)
    ensures SuggestArg(p + "=...") == if Lower(p) == "a" || Lower(p) == "b" then "42" else SuggestArg(p)
  {
    var marker := "=...";
    LowerAppend(p, marker);
    assert Lower(marker) == marker;
    var low := Lower(p);
    ContainsAppend(low, marker, "name");
    ContainsAppend(low, marker, "text");
    ContainsAppend(low, marker, "string");
    ContainsAppend(low, marker, "word");
    ContainsAppend(low, marker, "radius");
    ContainsAppend(low, marker, "num");
    ContainsAppend(low, marker, "n");
    assert |low + marker| >= 4;
    if low == "a" || low == "b" {
      NotContainsLetter(low, 'n');
    }
  }

  /** A string without the character `c` does not contain the one-letter word `c`. */
  lemma NotContainsLetter(s: string, c: char)
    requires c !in s
    ensures !Contains(s, [c])
  {
    forall i | 0 <= i <= |s| - 1
      ensures !OccursAt(s, [c], i)
    {
      assert s[i..i + 1][0] == s[i] != c;
    }
  }

  /** The display for a module with one function and one class without methods. */
  lemma ExamplesOfOneFunctionAndClass(moduleName: string, f: FunctionRecord, c: ClassRecord, variables: seq<string>)
    requires c.methods == []
    ensures Examples(moduleName, Report([f], [c], variables))
            == ["import " + moduleName,
                "from " + moduleName + " import " + f.name,
                "from " + moduleName + " import " + c.name,
                UsageHeader,
                FunctionCallLine(moduleName, f),
                "obj = " + moduleName + "." + c.name + "()"]
  {
    var analysis := Report([f], [c], variables);
    assert ImportLines(moduleName, analysis)
           == ["from " + moduleName + " import " + f.name, "from " + moduleName + " import " + c.name] by {
      assert FunctionNames(Take([f], 3)) == [f.name];
      assert ClassNames(Take([c], 2)) == [c.name];
    }
    assert CallLines(moduleName, analysis) == [FunctionCallLine(moduleName, f), "obj = " + moduleName + "." + c.name + "()"] by {
      assert FunctionCalls(moduleName, Take([f], 2)) == [FunctionCallLine(moduleName, f)];
    }
  }

  /** A one-letter argument other than `n`, `a` and `b` (in either case) is given `42`. */
  lemma SuggestOneLetter(c: char)
    requires LowerChar(c) != 'n' && LowerChar(c) != 'a' && LowerChar(c) != 'b'
    ensures SuggestArg([c]) == "42"
  {
    var low := Lower([c]);
    assert low == [LowerChar(c)];
    NotContainsLetter(low, 'n');
    assert low != "a" && low != "b";
  }

  /** Arguments whose names suggest nothing in particular are given `42`. */
  lemma PlainArgumentsCall(moduleName: string)
    ensures FunctionCallLine(moduleName, FunctionRecord("test_func", ["x", "y"], "")) == moduleName + ".test_func(42, 42)"
  {
    var args := ["x", "y"];
    assert Take(args, 2) == args;
    var values := Suggestions(args);
    assert values == ["42", "42"] by {
      SuggestOneLetter('x');
      SuggestOneLetter('y');
    }
    var joined := Join(", ", values);
    assert joined == "42" + ", " + "42" by {
      assert values[1..] == ["42"];
      assert Join(", ", ["42"]) == "42";
    }
    var m := moduleName;
    assert m + "." + "test_func" + "(" + joined + ")" == m + ("." + "test_func" + "(" + joined + ")");
    assert "42" + ", " + "42" == "42, 42";
    assert "." + "test_func" + "(" == ".test_func(";
    assert ".test_func(" + "42, 42" + ")" == ".test_func(42, 42)";
  }

  /**
   * The display for a module with one two-argument function `test_func(x, y)`
   * and one class `TestClass` without methods.
   */
  lemma ExamplesOfSmallModule(moduleName: string)
    ensures Examples(moduleName, Report([FunctionRecord("test_func", ["x", "y"], "")],
                                        [ClassRecord("TestClass", [], "")], []))
            == ["import " + moduleName,
                "from " + moduleName + " import test_func",
                "from " + moduleName + " import TestClass",
                "\n# Usage examples:",
                moduleName + ".test_func(42, 42)",
                "obj = " + moduleName + ".TestClass()"]
  {
    ExamplesOfOneFunctionAndClass(moduleName, FunctionRecord("test_func", ["x", "y"], ""), ClassRecord("TestClass", [], ""), []);
    PlainArgumentsCall(moduleName);
    var from := "from " + moduleName;
    assert from + " import " + "test_func" == from + " import test_func";
    assert from + " import " + "TestClass" == from + " import TestClass";
    var obj := "obj = " + moduleName;
    assert obj + "." + "TestClass" + "()" == obj + ".TestClass()";
  }

  /** The display for a module with one function and no class. */
  lemma ExamplesOfOneFunction(moduleName: string, f: FunctionRecord, variables: seq<string>)
    ensures Examples(moduleName, Report([f], [], variables))
            == ["import " + moduleName,
                "from " + moduleName + " import " + f.name,
                UsageHeader,
                FunctionCallLine(moduleName, f)]
  {
    var analysis := Report([f], [], variables);
    assert ImportLines(moduleName, analysis) == ["from " + moduleName + " import " + f.name] by {
      assert FunctionNames(Take([f], 3)) == [f.name];
    }
    assert CallLines(moduleName, analysis) == [FunctionCallLine(moduleName, f)] by {
      assert FunctionCalls(moduleName, Take([f], 2)) == [FunctionCallLine(moduleName, f)];
    }
  }

  /** An argument called `name` is given `"World"`. */
  lemma NameArgumentCall(moduleName: string)
    ensures FunctionCallLine(moduleName, FunctionRecord("greet", ["name"], "")) == moduleName + ".greet(\"World\")"
  {
    assert SuggestArg("name") == "\"World\"" by {
      assert Lower("name") == "name";
      assert OccursAt("name", "name", 0);
    }
    var values := Suggestions(Take(["name"], 2));
    assert values == ["\"World\""];
    assert "." + "greet" + "(" + "\"World\"" + ")" == ".greet(\"World\")";
  }

  /** A module with one function `greet(name)`: the function is called with `"World"`. */
  lemma ExamplesOfGreeting(moduleName: string)
    ensures Examples(moduleName, Report([FunctionRecord("greet", ["name"], "")], [], []))
            == ["import " + moduleName,
                "from " + moduleName + " import greet",
                "\n# Usage examples:",
                moduleName + ".greet(\"World\")"]
  {
    ExamplesOfOneFunction(moduleName, FunctionRecord("greet", ["name"], ""), []);
    NameArgumentCall(moduleName);
    var from := "from " + moduleName;
    assert from + " import " + "greet" == from + " import greet";
  }

}
