# nopkg, modelled in Dafny

nopkg installs a single Python file, or every `*.py` file of a directory,
straight into an interpreter's site-packages. It either copies the file or,
in development mode, writes a `nopkg_<name>.pth` path file. It records each
install in a registry file, as one line holding the name, the source and
the mode separated by bars. It can uninstall a module and update one from
its recorded source. After a single-file install it analyses the installed
module and prints usage examples.

This project models that core:

- `registry.dfy` (module `Registry`): the registry file as a sequence of
  lines, read the way the source reads it (each line stripped, blank lines
  ignored). It covers appending an entry, filtering out a module, the list
  of registered names and the first-match lookup of `update_module`.
- `core.dfy` (module `Core`): an `Environment` class. Its fields are whether
  site-packages was found, whether the registry file exists, the registry's
  lines and the set of file names in site-packages. Its methods are
  `install_module`, `_install_directory`, `uninstall_module`,
  `update_module`, `_register_module`, `_unregister_module` and
  `_get_registered_modules`. The install, uninstall and update methods
  update those fields and return the source's success flag and message.
  `Register` and `Unregister` update the registry fields and return
  nothing; `RegisteredModules` returns the registered names and changes
  nothing.
- `syntax_tree.dfy` (module `SyntaxTree`): an abstract Python syntax tree
  and `ast.walk`'s breadth-first order.
- `analysis.dfy` (module `Analysis`): `analyze_module`, that is, the
  function, class and constant records collected in walk order.
- `usage_examples.dfy` (module `UsageExamples`): `generate_usage_examples`,
  the display lines built from a module name and its analysis.
- `strings.dfy` and `paths.dfy`: the parts of Python's `str` and `pathlib`
  that the core relies on (`strip`, `split`, `join`, `lower`, `in`,
  `Path.name`, `Path.suffix` and `Path.stem`).

The loops of the source are methods with loop invariants, each proved
against a function of its inputs or of the old state. Four loops are not
loops here. The registry write-backs of `_register_module` and
`_unregister_module` (core.py:255-257 and 275-277) write every line of a
sequence, which `Register` and `Unregister` state as one assignment of the
registry's lines. `ast.walk`'s queue is the recursive function
`WalkQueue`. The loop over `analysis['classes'][:1]` (analysis.py:133)
runs at most once, so `GenerateUsageExamples` writes it as an `if` on a
non-empty class list. The
properties the source relies on are proved about those functions as
lemmas. Examples are register-then-list, unregister-after-register, the
lookup of a fresh entry, which modules a directory install adds, walk
coverage and the shape of the usage display.

## Model

| member | source | states |
|---|---|---|
| Strings.Strip | nopkg/core.py:247 | `str.strip()` leaves no whitespace at either end and never lengthens a line |
| Strings.StripRemovesOnlySpace | nopkg/core.py:247 | the stripped line is a slice of the line, and everything cut off before or after it is whitespace |
| Strings.StripKeepsNonSpace | nopkg/core.py:247 | a line holding any non-whitespace character is not blank after stripping, so it is kept as an entry |
| Strings.StripIdempotent | nopkg/core.py:269 | stripping twice is stripping once, so entries written back stripped read back the same |
| Strings.LowerIdempotent | nopkg/analysis.py:117-123 | lower-casing a lower-cased text changes nothing |
| Strings.Split | nopkg/core.py:292 | splitting on the bar always yields at least one field |
| Strings.SplitHead | nopkg/core.py:292 | the first field is the text before the first separator (all of it when there is none) and holds no separator |
| Strings.SplitThree | nopkg/core.py:203-209 | splitting three parts joined by bars, none of which holds a bar, gives exactly the three parts |
| Paths.LastIndexOfIsLast | nopkg/core.py:65 | the dot that separates `Path.suffix` is the last dot of the name: it is a dot and no dot follows it |
| Paths.BaseNameIsLastComponent | nopkg/core.py:65 | `Path.name` is the tail of the path after its last `/` and contains no `/` |
| Paths.StemThenSuffix | nopkg/core.py:65 | stem followed by suffix is the file name, the stem holds no `/`, and the suffix is empty or starts with a dot |
| Paths.PyFileParts | nopkg/core.py:119 | a globbed `dir/stem.py` has stem `stem` and suffix `.py` |
| SyntaxTree.WalkQueueLength | nopkg/analysis.py:23 | `ast.walk` yields as many nodes as the pending trees hold |
| SyntaxTree.WalkQueueVisitsPending | nopkg/analysis.py:23 | every pending node is yielded |
| SyntaxTree.WalkQueueVisitsChildren | nopkg/analysis.py:23 | the children of every yielded node are yielded too |
| SyntaxTree.WalkVisitsTree | nopkg/analysis.py:23 | `ast.walk(tree)` starts at the root, yields each node of the tree once, and yields the children of every node it yields, so nested definitions are reached |
| Analysis.WithoutSelf | nopkg/analysis.py:26-29 | the argument names keep every name except `self`, and no others |
| Analysis.FormatArgsAsWritten | nopkg/analysis.py:37-39 | the argument list as the source slices it has one entry per name other than `self` |
| Analysis.FormatArgsAsWrittenAgrees | nopkg/analysis.py:37-39 | when the defaults fall on ordinary parameters other than `self` (`self` may come anywhere before them), the source's slicing marks exactly the defaulted parameters |
| Analysis.FormatArgsAsWrittenMissesDefault | nopkg/analysis.py:37-39 | for `def f(p=0, /, x=1, y=2)` the source's slicing leaves `x` unmarked, while every parameter has a default |
| Analysis.FormatArgsAsWrittenMarksSelfDefault | nopkg/analysis.py:26-39 | for `def f(x, self=1)`, any name `x`, the source's slicing marks `x`, which has no default |
| Analysis.FormatArgsIgnoresSelf | nopkg/analysis.py:26-39 | intended: a `self` parameter is dropped and the other parameters keep the marks they would have without it |
| Analysis.AsWrittenHasNoSelf | nopkg/analysis.py:28-39 | `self` never appears in a function's argument list as the source builds it |
| Analysis.FormatArgsMarksDefaults | nopkg/analysis.py:26-41 | each parameter name is kept in order and gets `=...` exactly when it is among the last parameters that carry defaults |
| Analysis.FormatArgsDropsSelf | nopkg/analysis.py:26-41 | the list has one entry per parameter other than `self`; with no defaults it is exactly those names |
| Analysis.FormatArgsHasNoSelf | nopkg/analysis.py:28 | `self` never appears in the intended argument list either |
| Analysis.KeepNonSelf | nopkg/analysis.py:26-29 | the loop collects exactly the names other than `self`, in order |
| Analysis.MarkDefaults | nopkg/analysis.py:39 | the comprehension marks every name from the split position on |
| Analysis.FormatParameters | nopkg/analysis.py:26-41 | the argument list of a function record is the source's slicing; it never holds `self`, and it is the intended marking whenever the defaults fall on ordinary parameters other than `self` |
| Analysis.CollectMethods | nopkg/analysis.py:51-59 | the loop over a class body collects the public methods of that body, in order, without `self`: a record is collected exactly when some public `def` of that body has it |
| Analysis.CollectAssignedNames | nopkg/analysis.py:69-73 | the loop over an assignment's targets collects its public bare names when the value is a literal |
| Analysis.FunctionRecordFor | nopkg/analysis.py:24-47 | a public function's record holds its name, its argument list as the source slices it, and its docstring |
| Analysis.AnalyzeModule | nopkg/analysis.py:8-82 | a missing file, a suffix other than `.py` or an unreadable or unparsable file gives the empty record; otherwise the records of the tree's nodes in walk order, with argument lists as the source slices them |
| Analysis.FunctionsOfAppend | nopkg/analysis.py:23-47 | the function records of two stretches of the walk are those of the first followed by those of the second |
| Analysis.ClassesOfAppend | nopkg/analysis.py:49-65 | the same for class records |
| Analysis.VariablesOfAppend | nopkg/analysis.py:67-73 | the same for constant names |
| Analysis.MethodsOfPublic | nopkg/analysis.py:52-59 | every reported method is public and has no `self` argument |
| Analysis.AssignedNamesPublic | nopkg/analysis.py:69-73 | every reported constant is public, and an assignment of a non-literal reports nothing |
| Analysis.ReportNamesPublic | nopkg/analysis.py:23-73 | no reported function, class, method or constant starts with `_`, and no argument list contains `self` |
| Analysis.FunctionsOfExactly | nopkg/analysis.py:24-47 | a function record is reported exactly when some visited node is a public `def` with that record |
| Analysis.ClassesOfExactly | nopkg/analysis.py:49-65 | a class record is reported exactly when some visited node is a public `class` with that record |
| Analysis.AssignedNamesExactly | nopkg/analysis.py:69-73 | a name is reported for an assignment exactly when it is a public bare-name target and the value is a literal |
| Analysis.VariablesOfExactly | nopkg/analysis.py:67-73 | a constant is reported exactly when some visited assignment of a literal has it as a public bare-name target |
| Analysis.MethodsOfContains | nopkg/analysis.py:52-59 | every public `def` of a class body is among the class's methods |
| Analysis.MethodsOfExactly | nopkg/analysis.py:52-59 | a method record is reported for a class exactly when some public `def` of the class's own body has that record |
| Analysis.MethodsAreAlsoFunctions | nopkg/analysis.py:23-59 | a public method of a public class is reported both under its class and among the functions, since the walk reaches it too |
| UsageExamples.SuggestArg | nopkg/analysis.py:117-126 | the suggested value is one of `"World"`, `"hello world"`, `5`, `10`, `42` |
| UsageExamples.FunctionCallsShape | nopkg/analysis.py:127-130 | each function's call line starts with `M.name(` and ends with `)` |
| UsageExamples.SuggestValues | nopkg/analysis.py:115-126 | the loop suggests a value for each of the first two arguments |
| UsageExamples.ImportSection | nopkg/analysis.py:87-106 | `import M`, then one `from M import` line for the first three functions and one for the first two classes, each present only when there are such names |
| UsageExamples.FunctionUsage | nopkg/analysis.py:111-130 | the loop writes one call line for each of the first two functions |
| UsageExamples.ClassUsage | nopkg/analysis.py:132-141 | the class lines are the instantiation, then a call of the first method with `42` for up to two arguments |
| UsageExamples.GenerateUsageExamples | nopkg/analysis.py:85-147 | the method builds the import lines, then the header and the call lines when there are any |
| UsageExamples.ExamplesStartWithImport | nopkg/analysis.py:90 | the display always starts with `import M` |
| UsageExamples.CallLinesEndWithParen | nopkg/analysis.py:128-141 | every call line ends with `)` |
| UsageExamples.CallLinesCount | nopkg/analysis.py:109-141 | there are at most two function calls, plus one line for the first class and one for its first method |
| UsageExamples.UsageSection | nopkg/analysis.py:143-145 | the header appears exactly when there is a function or a class, only once, right after the import lines, and the display has at most eight lines |
| UsageExamples.OnlyImportWhenNothingPublic | nopkg/analysis.py:85-147 | the display is the bare `import M` exactly when no function and no class is reported |
| UsageExamples.FromImportNames | nopkg/analysis.py:93-106 | one name gives `from M import n`; two give `from M import n1, n2` |
| UsageExamples.SuggestIgnoresCase | nopkg/analysis.py:117-124 | the suggestion does not depend on letter case |
| UsageExamples.SuggestWithDefaultMarker | nopkg/analysis.py:116-126 | the `=...` marker of a defaulted argument changes its suggestion only for `a` and `b`, which then get `42` instead of `10` |
| UsageExamples.SuggestOneLetter | nopkg/analysis.py:117-126 | a one-letter argument other than `n`, `a` or `b` gets `42` |
| UsageExamples.PlainArgumentsCall | nopkg/analysis.py:112-128 | `test_func(x, y)` is shown as `M.test_func(42, 42)` |
| UsageExamples.NameArgumentCall | nopkg/analysis.py:117-118 | `greet(name)` is shown as `M.greet("World")` |
| UsageExamples.ExamplesOfOneFunction | nopkg/analysis.py:85-147 | the whole display for a module with one function |
| UsageExamples.ExamplesOfOneFunctionAndClass | nopkg/analysis.py:85-147 | the whole display for one function and one class without methods |
| UsageExamples.ExamplesOfSmallModule | nopkg/analysis.py:85-147 | the whole display for `test_func(x, y)` and `TestClass` |
| UsageExamples.ExamplesOfGreeting | nopkg/analysis.py:85-147 | the whole display for `greet(name)` |
| Registry.ModeText | nopkg/core.py:250 | the mode is `dev` exactly in development mode and holds no bar |
| Registry.Entries | nopkg/core.py:247 | the entries read from a registry file are non-blank, trimmed and no more than its lines |
| Registry.FirstField | nopkg/core.py:292 | the name of a registry line is its text up to the first bar, and holds no bar |
| Registry.Listing | nopkg/core.py:287-295 | the registered names hold no bar, one at most per line |
| Registry.WithoutModule | nopkg/core.py:272 | an entry is kept exactly when it does not start with the name followed by a bar |
| Registry.FirstMatch | nopkg/core.py:200-202 | a found line starts with the name followed by a bar |
| Registry.EntriesOfEntries | nopkg/core.py:255-257 | writing the entries back and reading them again gives the same entries |
| Registry.ListingOfEntries | nopkg/core.py:287-295 | rewriting the file does not change the registered names |
| Registry.FirstMatchOfEntries | nopkg/core.py:200-202 | rewriting the file does not change which line a lookup finds |
| Registry.EntryLineTrimmed | nopkg/core.py:251 | an entry line whose name does not start with whitespace is already trimmed |
| Registry.EntryLineStartsWithName | nopkg/core.py:251 | an entry line starts with the name followed by a bar |
| Registry.ParseEntryLine | nopkg/core.py:203-209 | splitting an entry line gives back its name, source and mode |
| Registry.StartsWithFieldIff | nopkg/core.py:272 | a line starts with the name followed by a bar exactly when it holds a bar and its first field is the name |
| Registry.StoredAfterRegister | nopkg/core.py:239-257 | after a registration the entries are the old ones followed by the new line |
| Registry.ListedAfterRegister | nopkg/core.py:239-257 | after a registration the registered names are the old ones followed by the new name |
| Registry.UnregisterListing | nopkg/core.py:260-277 | after unregistering, the registered names are the old ones with every occurrence of the name removed |
| Registry.UnregisterUndoesRegister | nopkg/core.py:260-277 | unregistering a freshly registered name restores the previous entries |
| Registry.WithoutModuleKeepsAll | nopkg/core.py:272 | unregistering a name that no entry starts with keeps every entry |
| Registry.FirstMatchIsFirst | nopkg/core.py:200-210 | the lookup finds the first line that starts with the name followed by a bar |
| Registry.NoMatch | nopkg/core.py:200-210 | the lookup finds nothing exactly when no line starts with the name followed by a bar |
| Registry.FindEntryName | nopkg/core.py:203-209 | a found entry's name is the name looked up |
| Registry.LookupAfterRegister | nopkg/core.py:198-210 | after registering a name not yet present, the lookup returns the recorded source and mode, and the mode reads back as development mode exactly when it was |
| Registry.LookupKeepsFirst | nopkg/core.py:198-210 | registering again does not change what the lookup finds once a match exists |
| Registry.LookupStopsAtShortEntry | nopkg/core.py:200-210 | when the first matching line has fewer than three fields, the lookup gives nothing, whatever later lines hold |
| Registry.ShortEntryHidesLaterEntry | nopkg/core.py:200-210 | `m bar src` before `m bar src bar copy`: the complete second entry is never found |
| Core.TargetIsNotPth | nopkg/core.py:68-81 | a module file `name.py` never coincides with a path file `nopkg_name.pth` |
| Core.InstalledFileInjective | nopkg/core.py:68-81 | different module names install different files |
| Core.ModuleNameOfPyFile | nopkg/core.py:65 | the module name is the given name when it is not empty, otherwise the file's stem |
| Core.DevInstallAnalysisIsEmpty | nopkg/core.py:78-97 | a development-mode install analyses `name.py`, which it never writes, so the analysis is empty |
| Core.CandidateOfPyFile | nopkg/core.py:117-119 | a listed `dir/stem.py` proposes the module `stem`, to be installed from that file |
| Core.InstallEachAdds | nopkg/core.py:117-140 | a directory install only adds the files of the modules it installs, none of which had `name.py` beforehand, and registers one entry per installed module |
| Core.NewModules | nopkg/core.py:123-124 | the candidates whose `name.py` is absent, in order |
| Core.InstalledAreCandidates | nopkg/core.py:118-137 | every installed name is the stem of a listed file |
| Core.InstallEachNewModules | nopkg/core.py:117-140 | in development mode, or when the names differ, exactly the candidates whose `name.py` was absent are installed, in order |
| Core.DirectoryInstallsNewModules | nopkg/core.py:111-145 | the same for a directory's listed files |
| Core.Environment.ReadEntries | nopkg/core.py:244-247 | the loop reads the stored entries, none when the file is missing |
| Core.Environment.Register | nopkg/core.py:239-257 | the registry exists afterwards and holds the old entries followed by the new line; site-packages is unchanged |
| Core.Environment.Unregister | nopkg/core.py:260-277 | a missing registry is left alone; otherwise it holds the old entries that do not start with the name followed by a bar |
| Core.Environment.RegisteredModules | nopkg/core.py:280-295 | the loop lists the registered names, none when the file is missing |
| Core.Environment.LookupEntry | nopkg/core.py:198-210 | the loop stops at the first line starting with the name followed by a bar and parses it |
| Core.Environment.AddModule | nopkg/core.py:78-94 | the module file or path file is added to site-packages and the module is registered |
| Core.Environment.InstallListedFile | nopkg/core.py:118-137 | a listed file is installed exactly when its `name.py` is absent; otherwise nothing changes |
| Core.Environment.InstallFiles | nopkg/core.py:117-140 | the loop installs the listed files as the directory-install function says; when nothing is installed nothing changes |
| Core.Environment.InstallDirectory | nopkg/core.py:111-145 | no listed files: refused and nothing changes; otherwise success exactly when some module is installed, with the list of installed names in the message |
| Core.Environment.Install | nopkg/core.py:37-108 | the error messages for missing site-packages and a missing source, the directory case, and the single-file case with its refusal, new state and analysis |
| Core.Environment.InstallFile | nopkg/core.py:64-99 | an existing `name.py` is refused and nothing changes; otherwise the file is installed and registered, and the installed copy is analysed (empty in development mode) |
| Core.Environment.ExistingModuleMessage | nopkg/core.py:71-76 | the refusal says whether nopkg registered the module |
| Core.Environment.Uninstall | nopkg/core.py:148-183 | refused when neither `name.py` nor `nopkg_name.pth` exists; otherwise both are removed and the name is unregistered |
| Core.Environment.Update | nopkg/core.py:191-227 | no registry file, no registry entry and a failed uninstall are refused with their messages and change nothing; a successful update replaces the module's files and entry with a fresh install from the recorded source in the recorded mode |
| Core.Environment.Reinstall | nopkg/core.py:220-227 | the reinstall uses the recorded source and mode and reports success with the update message |

## Left out

- Locating site-packages (`get_site_packages_dir`, a subprocess call) is a constant field: found or not.
- The registry's path and the creation of `~/.nopkg` are not modelled; the registry is its lines plus whether the file exists.
- File contents are not modelled: copying, the text of `.pth` files and the registry file's bytes are abstracted to names and lines.
- Exceptions from the file system (`PermissionError`, `OSError` and the generic `Exception` branches of `install_module`, `_install_directory` and `uninstall_module`) are not modelled; every write is taken to succeed.
- Registry lines are taken as given. A name or source containing a newline would split into several lines when the file is read back, which the model does not capture.
- `str.lower()` is modelled for ASCII letters only. `str.strip()` removes exactly the characters for which Python's `str.isspace()` holds.
- Paths are plain strings: no normalisation, no `..`, no absolute paths. `Path.stem` and `Path.suffix` follow pathlib's last-dot rule for names without a leading dot.
- Parsing (`ast.parse`) and `ast.get_docstring` are not modelled: a file is given as an abstract tree with its docstrings, or as unreadable.
- The ordering of `glob("*.py")` is whatever the given listing says.
- `_install_directory` ignores its `name` parameter; so does the model (`InstallDirectory` has no name argument).
- `list_installed_modules` is the same function as `_get_registered_modules` and is not repeated; the command-line interface (`nopkg/cli.py`) is not part of this model.
- Core.Environment.Update: after a successful uninstall, the new state is stated only when the module name is not empty and the recorded source is a Python file. A directory source and an empty name fall back to the weaker "success implies the update message".
- Core.Environment.Reinstall: the new state is stated for a file source only, as for `Update`.
- Core.DirectoryInstallsNewModules: in copy mode it requires the listed files to have different stems. Distinct names ending in `.py` usually have distinct stems, but not always: `.py` and `.py.py` both have the stem `.py`.

## Findings

| source | as written | input that shows it | evidently intended | confidence | as-written member | corrected member |
|---|---|---|---|---|---|---|
| nopkg/analysis.py:37-39 | `len(args) - len(defaults)` counts defaults for position-only parameters too, but `args` lists only the ordinary ones; a negative count then slices from the end | `def f(p=0, /, x=1, y=2)` gives `["x", "y=..."]` | `["x=...", "y=..."]`: every parameter that has a default is marked | not executed | Analysis.FormatArgsAsWrittenMissesDefault | Analysis.FormatArgsMarksDefaults |
| nopkg/analysis.py:26-39 | `self` is dropped before the slicing, but `len(defaults)` still counts a default given to `self` | `def f(x, self=1)` gives `["x=..."]` | `["x"]`: `self` is dropped and the other parameters keep their own marks | not executed | Analysis.FormatArgsAsWrittenMarksSelfDefault | Analysis.FormatArgsIgnoresSelf |

The analysis itself (`FunctionRecordOf`, `FormatParameters`, `AnalyzeModule`)
follows the code as written. `FormatArgs` is the intended marking, and
`FormatArgsAsWrittenAgrees` states when the two coincide.
