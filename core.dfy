/**
 * Installing, uninstalling and updating modules (nopkg/core.py:37-295).
 *
 * The machine's state is an `Environment`: the lines of the registry file
 * and the names of the files in site-packages. Source paths are looked up
 * in a `FileSystem` map that says whether a path is a Python file (and what
 * parsing it gives) or a directory (and which `*.py` files it lists).
 */
module Core {
  import opened Wrappers
  import opened Strings
  import opened Paths
  import opened Analysis
  import opened Registry

  /** What a source path is, when it exists. */
  datatype PathKind =
    | SourceFile(text: SourceText)
      /** A directory, with the paths `glob("*.py")` yields, in its order. */
    | SourceDirectory(pyFiles: seq<string>)

  type FileSystem = map<string, PathKind>

  predicate IsDirectory(fs: FileSystem, path: string) {
    path in fs && fs[path].SourceDirectory?
  }

  /** The installed file of a module (core.py:69, 120). */
  function TargetFile(moduleName: string): string {
    moduleName + ".py"
  }

  /** The path file of a dev-mode install (core.py:82, 128). */
  function PthFile(moduleName: string): string {
    "nopkg_" + moduleName + ".pth"
  }

  /** The file an install adds to site-packages. */
  function InstalledFile(moduleName: string, devMode: bool): string {
    if devMode then PthFile(moduleName) else TargetFile(moduleName)
  }

  /** The module name: the given name unless it is missing or empty, else the source's stem (core.py:66). */
  function ModuleName(name: Option<string>, source: string): string {
    if name.Some? && name.value != "" then name.value else Stem(source)
  }

  /** A module's installed file and its dev-mode path file never coincide, whatever the two names. */
  lemma TargetIsNotPth(m: string, n: string)
    ensures TargetFile(m) != PthFile(n)
  {
    var t := TargetFile(m);
    var p := PthFile(n);
    assert t[|t| - 1] == 'y' && p[|p| - 1] == 'h';
  }

  /** Different module names have different installed files and different path files. */
  lemma InstalledFileInjective(m: string, n: string, devMode: bool)
    ensures InstalledFile(m, devMode) == InstalledFile(n, devMode) ==> m == n
  {
    var f := InstalledFile(m, devMode);
    if f == InstalledFile(n, devMode) {
      if devMode {
        assert m == f[6..|f| - 4] == n;
      } else {
        assert m == f[..|f| - 3] == n;
      }
    }
  }

  /**
   * Installing `dir/stem.py` without a name installs the module `stem` as
   * `stem.py`; with a non-empty name the name is used instead.
   */
  lemma ModuleNameOfPyFile(dir: string, stem: string, name: Option<string>)
    requires stem != [] && '/' !in stem
    requires dir == [] || dir[|dir| - 1] == '/'
    ensures ModuleName(name, dir + stem + ".py") == if name.Some? && name.value != "" then name.value else stem
  {
    PyFileParts(dir, stem);
  }

  /**
   * A dev-mode install analyses `name.py`, which it never writes: when that
   * file was absent (the install goes ahead only then), the analysis is
   * always empty (core.py:80-97).
   */
  lemma DevInstallAnalysisIsEmpty(site: set<string>, m: string, text: SourceText)
    requires TargetFile(m) !in site
    ensures Analyze(TargetFile(m) in site + {PthFile(m)}, Suffix(TargetFile(m)), text) == EmptyReport
  {
    TargetIsNotPth(m, m);
  }

  // ---------------------------------------------------------------------
  // Directory installs

  /** What installing a directory's files does: names installed, site-packages after, entries registered. */
  datatype DirectoryOutcome = DirectoryOutcome(installed: seq<string>, site: set<string>, added: seq<string>)

  /** The files an install of the given modules adds to site-packages. */
  function InstalledFiles(names: seq<string>, devMode: bool): set<string> {
    set m | m in names :: InstalledFile(m, devMode)
  }

  /** A listed file and the module it would install: its stem (core.py:119). */
  datatype Candidate = Candidate(moduleName: string, path: string)

  function Candidates(pyFiles: seq<string>): (cs: seq<Candidate>)
    ensures |cs| == |pyFiles|
    ensures forall i :: 0 <= i < |pyFiles| ==> cs[i] == Candidate(Stem(pyFiles[i]), pyFiles[i])
  {
    seq(|pyFiles|, i requires 0 <= i < |pyFiles| => Candidate(Stem(pyFiles[i]), pyFiles[i]))
  }

  /**
   * The candidate for `dir/stem.py` is the module `stem`, taken from that
   * file (core.py:117-119).
   */
  lemma CandidateOfPyFile(pyFiles: seq<string>, i: nat, dir: string, stem: string)
    requires i < |pyFiles| && pyFiles[i] == dir + stem + ".py"
    requires stem != [] && '/' !in stem
    requires dir == [] || dir[|dir| - 1] == '/'
    ensures Candidates(pyFiles)[i] == Candidate(stem, pyFiles[i])
  {
    PyFileParts(dir, stem);
  }

  /**
   * `_install_directory`'s loop (core.py:117-140) over the candidates in
   * order: one whose `name.py` is already in site-packages is skipped,
   * otherwise its file is added and it is registered.
   */
  function InstallEach(site: set<string>, cs: seq<Candidate>, devMode: bool): DirectoryOutcome {
    if cs == [] then DirectoryOutcome([], site, [])
    else
      var prev := InstallEach(site, cs[..|cs| - 1], devMode);
      var c := cs[|cs| - 1];
      if TargetFile(c.moduleName) in prev.site then prev
      else DirectoryOutcome(prev.installed + [c.moduleName],
                            prev.site + {InstalledFile(c.moduleName, devMode)},
                            prev.added + [Strip(EntryLine(c.moduleName, c.path, devMode))])
  }

  /** One more candidate: `InstallEach` on the first `i + 1` candidates. */
  lemma InstallEachLast(site: set<string>, cs: seq<Candidate>, devMode: bool, i: nat)
    requires i < |cs|
    ensures var prev := InstallEach(site, cs[..i], devMode);
            var m := cs[i].moduleName;
            InstallEach(site, cs[..i + 1], devMode)
            == if TargetFile(m) in prev.site then prev
               else DirectoryOutcome(prev.installed + [m], prev.site + {InstalledFile(m, devMode)},
                                     prev.added + [Strip(EntryLine(m, cs[i].path, devMode))])
  {
    assert cs[..i + 1][..i] == cs[..i];
  }

  function DirectoryInstall(site: set<string>, pyFiles: seq<string>, devMode: bool): DirectoryOutcome {
    InstallEach(site, Candidates(pyFiles), devMode)
  }

  /**
   * A directory install only adds files: those of the modules it installs,
   * each of which had no `name.py` in site-packages beforehand, and it
   * registers one entry per installed module.
   */
  lemma {:induction false} InstallEachAdds(site: set<string>, cs: seq<Candidate>, devMode: bool)
    ensures var outcome := InstallEach(site, cs, devMode);
            && outcome.site == site + InstalledFiles(outcome.installed, devMode)
            && |outcome.added| == |outcome.installed| <= |cs|
            && forall m :: m in outcome.installed ==> TargetFile(m) !in site
  {
    if cs != [] {
      var prev := InstallEach(site, cs[..|cs| - 1], devMode);
      var m := cs[|cs| - 1].moduleName;
      InstallEachAdds(site, cs[..|cs| - 1], devMode);
      if TargetFile(m) !in prev.site {
        InstalledFilesAppend(prev.installed, m, devMode);
      }
    }
  }

  lemma InstalledFilesAppend(names: seq<string>, m: string, devMode: bool)
    ensures InstalledFiles(names + [m], devMode) == InstalledFiles(names, devMode) + {InstalledFile(m, devMode)}
  {
    var all := names + [m];
    assert forall n :: n in all <==> n in names || n == m;
  }

  /** The candidates whose `name.py` is not yet in site-packages, in order. */
  function NewModules(site: set<string>, cs: seq<Candidate>): (names: seq<string>)
    ensures forall m :: m in names ==> TargetFile(m) !in site
  {
    if cs == [] then []
    else
      var m := cs[|cs| - 1].moduleName;
      NewModules(site, cs[..|cs| - 1]) + (if TargetFile(m) in site then [] else [m])
  }

  predicate DistinctModules(cs: seq<Candidate>) {
    forall i, j :: 0 <= i < j < |cs| ==> cs[i].moduleName != cs[j].moduleName
  }

  /** Every installed name is the module of one of the candidates. */
  lemma {:induction false} InstalledAreCandidates(site: set<string>, cs: seq<Candidate>, devMode: bool, m: string)
    requires m in InstallEach(site, cs, devMode).installed
    ensures exists k :: 0 <= k < |cs| && cs[k].moduleName == m
  {
    var init := cs[..|cs| - 1];
    if m in InstallEach(site, init, devMode).installed {
      InstalledAreCandidates(site, init, devMode, m);
      var k :| 0 <= k < |init| && init[k].moduleName == m;
      assert cs[k] == init[k];
    }
  }

  /**
   * In dev mode, or when the candidates have different module names,
   * exactly the candidates whose `name.py` was absent beforehand are
   * installed: a path file never shadows a `name.py`, and a copied
   * `name.py` only shadows a later candidate with the same name.
   */
  lemma {:induction false} InstallEachNewModules(site: set<string>, cs: seq<Candidate>, devMode: bool)
    requires devMode || DistinctModules(cs)
    ensures InstallEach(site, cs, devMode).installed == NewModules(site, cs)
  {
    if cs != [] {
      var init := cs[..|cs| - 1];
      var m := cs[|cs| - 1].moduleName;
      var prev := InstallEach(site, init, devMode);
      InstallEachNewModules(site, init, devMode);
      InstallEachAdds(site, init, devMode);
      forall n | n in prev.installed
        ensures InstalledFile(n, devMode) != TargetFile(m)
      {
        if devMode {
          TargetIsNotPth(m, n);
        } else {
          InstalledAreCandidates(site, init, devMode, n);
          var k :| 0 <= k < |init| && init[k].moduleName == n;
          assert cs[k] == init[k];
          InstalledFileInjective(n, m, false);
        }
      }
      assert TargetFile(m) in prev.site <==> TargetFile(m) in site;
    }
  }

  /**
   * A directory's files have different names, hence (all ending in `.py`)
   * different stems; in dev mode, or whenever the stems differ, the modules
   * installed are exactly those whose `stem.py` was absent, in listing
   * order (core.py:118-137).
   */
  lemma DirectoryInstallsNewModules(site: set<string>, pyFiles: seq<string>, devMode: bool)
    requires devMode || forall i, j :: 0 <= i < j < |pyFiles| ==> Stem(pyFiles[i]) != Stem(pyFiles[j])
    ensures DirectoryInstall(site, pyFiles, devMode).installed == NewModules(site, Candidates(pyFiles))
  {
    InstallEachNewModules(site, Candidates(pyFiles), devMode);
  }

  // ---------------------------------------------------------------------
  // The environment

  class Environment {
    /** Whether site-packages could be determined (`get_site_packages_dir` is not `None`). */
    const sitePackagesFound: bool
    /** Whether the registry file exists, and its lines. */
    var registryExists: bool
    var registryLines: seq<string>
    /** The names of the files in site-packages. */
    var sitePackages: set<string>

    constructor(sitePackagesFound: bool, registryExists: bool, registryLines: seq<string>, sitePackages: set<string>)
      ensures this.sitePackagesFound == sitePackagesFound
      ensures this.registryExists == registryExists
      ensures this.registryLines == registryLines
      ensures this.sitePackages == sitePackages
    {
      this.sitePackagesFound := sitePackagesFound;
      this.registryExists := registryExists;
      this.registryLines := registryLines;
      this.sitePackages := sitePackages;
    }

    /** The entries the registry holds; none when the file does not exist. */
    function StoredEntries(): seq<string>
      reads this`registryExists, this`registryLines
    {
      if registryExists then Entries(registryLines) else []
    }

    /** The module names the registry lists. */
    function RegisteredNames(): seq<string>
      reads this`registryExists, this`registryLines
    {
      if registryExists then Listing(registryLines) else []
    }

    /** Reads the registry's entries (core.py:244-247, 267-269). */
    method ReadEntries() returns (entries: seq<string>)
      ensures entries == StoredEntries()
    {
      entries := [];
      if registryExists {
        for i := 0 to |registryLines|
          invariant entries == Entries(registryLines[..i])
        {
          assert registryLines[..i + 1][..i] == registryLines[..i];
          var line := Strip(registryLines[i]);
          if line != "" {
            entries := entries + [line];
          }
        }
        assert registryLines[..|registryLines|] == registryLines;
      }
    }

    /** `_register_module`: append one entry and write the registry back (core.py:239-257). */
    method Register(name: string, source: string, devMode: bool)
      modifies this
      ensures registryExists
      ensures registryLines == old(StoredEntries()) + [EntryLine(name, source, devMode)]
      ensures StoredEntries() == old(StoredEntries()) + [Strip(EntryLine(name, source, devMode))]
      ensures sitePackages == old(sitePackages)
    {
      var entries := ReadEntries();
      var mode := if devMode then "dev" else "copy";
      var entry := name + "|" + source + "|" + mode;
      assert entry == EntryLine(name, source, devMode);
      entries := entries + [entry];
      ghost var oldLines := if registryExists then registryLines else [];
      assert old(StoredEntries()) == Entries(oldLines);
      StoredAfterRegister(oldLines, name, source, devMode);
      registryLines := entries;
      registryExists := true;
    }

    /** `_unregister_module`: drop every entry starting with `name|` (core.py:260-277). */
    method Unregister(name: string)
      modifies this
      ensures old(registryExists) ==> registryExists && registryLines == WithoutModule(old(StoredEntries()), name)
      ensures !old(registryExists) ==> unchanged(this)
      ensures sitePackages == old(sitePackages)
    {
      if !registryExists {
        return;
      }
      var entries := ReadEntries();
      var filteredEntries := [];
      for i := 0 to |entries|
        invariant filteredEntries == WithoutModule(entries[..i], name)
      {
        assert entries[..i + 1][..i] == entries[..i];
        if !StartsWith(entries[i], name + "|") {
          filteredEntries := filteredEntries + [entries[i]];
        }
      }
      assert entries[..|entries|] == entries;
      registryLines := filteredEntries;
    }

    /** `_get_registered_modules` (core.py:280-295). */
    method RegisteredModules() returns (modules: seq<string>)
      ensures modules == RegisteredNames()
    {
      if !registryExists {
        return [];
      }
      modules := [];
      for i := 0 to |registryLines|
        invariant modules == Listing(registryLines[..i])
      {
        assert registryLines[..i + 1][..i] == registryLines[..i];
        var line := Strip(registryLines[i]);
        if line != "" && '|' in line {
          var name := Split(line, '|')[0];
          modules := modules + [name];
        }
      }
      assert registryLines[..|registryLines|] == registryLines;
    }

    /** The registry lookup of `update_module`: stop at the first line starting with `name|` (core.py:198-210). */
    method LookupEntry(name: string) returns (info: Option<RegistryEntry>)
      ensures info == FindEntry(registryLines, name)
    {
      info := None;
      for i := 0 to |registryLines|
        invariant FirstMatch(registryLines[..i], name).None?
      {
        var line := Strip(registryLines[i]);
        ghost var upTo := registryLines[..i + 1];
        assert upTo[..i] == registryLines[..i];
        if line != "" && StartsWith(line, name + "|") {
          var parts := Split(line, '|');
          if |parts| >= 3 {
            info := Some(RegistryEntry(parts[0], parts[1], parts[2]));
          }
          assert info == ParseEntry(line);
          assert FirstMatch(registryLines, name) == Some(line) by {
            assert FirstMatch(upTo, name) == Some(line);
            FirstMatchAppend(upTo, registryLines[i + 1..], name);
            assert upTo + registryLines[i + 1..] == registryLines;
          }
          return;
        }
        assert FirstMatch(upTo, name).None?;
      }
      assert registryLines[..|registryLines|] == registryLines;
    }

    /**
     * Copy the source to `name.py`, or in dev mode write the path file
     * `nopkg_name.pth`, then register the module (core.py:69-92 for a
     * file, core.py:120-137 for each file of a directory).
     */
    method AddModule(moduleName: string, source: string, devMode: bool)
      modifies this
      ensures sitePackages == old(sitePackages) + {InstalledFile(moduleName, devMode)}
      ensures registryExists
      ensures registryLines == old(StoredEntries()) + [EntryLine(moduleName, source, devMode)]
      ensures StoredEntries() == old(StoredEntries()) + [Strip(EntryLine(moduleName, source, devMode))]
    {
      if devMode {
        sitePackages := sitePackages + {"nopkg_" + moduleName + ".pth"};
      } else {
        sitePackages := sitePackages + {moduleName + ".py"};
      }
      Register(moduleName, source, devMode);
    }

    /**
     * One file of a directory install (core.py:118-137): the module is the
     * file's stem; it is skipped when `stem.py` is already in site-packages.
     */
    method InstallListedFile(pyFile: string, devMode: bool) returns (moduleName: string, added: bool)
      modifies this
      ensures moduleName == Stem(pyFile)
      ensures added <==> TargetFile(moduleName) !in old(sitePackages)
      ensures added ==> sitePackages == old(sitePackages) + {InstalledFile(moduleName, devMode)}
                        && StoredEntries() == old(StoredEntries()) + [Strip(EntryLine(moduleName, pyFile, devMode))]
      ensures !added ==> unchanged(this)
    {
      moduleName := Stem(pyFile);
      var targetPath := moduleName + ".py";
      if targetPath in sitePackages {
        return moduleName, false;
      }
      AddModule(moduleName, pyFile, devMode);
      added := true;
    }

    /**
     * The loop of `_install_directory` (core.py:117-140): each listed file
     * whose `stem.py` is not yet in site-packages is installed and
     * registered under its stem; the others are skipped.
     */
    method InstallFiles(pyFiles: seq<string>, devMode: bool) returns (installed: seq<string>)
      modifies this
      ensures var outcome := DirectoryInstall(old(sitePackages), pyFiles, devMode);
              && installed == outcome.installed
              && sitePackages == outcome.site
              && StoredEntries() == old(StoredEntries()) + outcome.added
      ensures installed == [] ==> unchanged(this)
    {
      ghost var candidates := Candidates(pyFiles);
      ghost var site0, entries0 := sitePackages, StoredEntries();
      ghost var outcome := DirectoryOutcome([], site0, []);
      installed := [];
      for i := 0 to |pyFiles|
        invariant outcome == InstallEach(site0, candidates[..i], devMode)
        invariant installed == outcome.installed
        invariant sitePackages == outcome.site
        invariant StoredEntries() == entries0 + outcome.added
        invariant installed == [] ==> unchanged(this)
      {
        ghost var before, prev := StoredEntries(), outcome;
        var moduleName, added := InstallListedFile(pyFiles[i], devMode);
        if added {
          ghost var line := Strip(EntryLine(moduleName, pyFiles[i], devMode));
          assert entries0 + (prev.added + [line]) == before + [line];
          installed := installed + [moduleName];
          outcome := DirectoryOutcome(prev.installed + [moduleName],
                                      prev.site + {InstalledFile(moduleName, devMode)},
                                      prev.added + [line]);
        }
        assert outcome == InstallEach(site0, candidates[..i + 1], devMode) by {
          InstallEachLast(site0, candidates, devMode, i);
          assert candidates[i] == Candidate(moduleName, pyFiles[i]);
        }
      }
      assert candidates[..|pyFiles|] == candidates;
    }

    /**
     * `_install_directory` (core.py:111-145). The `name` argument the
     * source passes is not used there, so it is not a parameter here.
     */
    method InstallDirectory(sourceDir: string, pyFiles: seq<string>, devMode: bool) returns (ok: bool, message: string)
      modifies this
      ensures pyFiles == [] ==> !ok && message == "No Python files found in " + sourceDir && unchanged(this)
      ensures pyFiles != [] ==>
                var outcome := DirectoryInstall(old(sitePackages), pyFiles, devMode);
                && sitePackages == outcome.site
                && StoredEntries() == old(StoredEntries()) + outcome.added
                && (ok <==> outcome.installed != [])
                && message == (if ok then "Successfully installed modules: " + Join(", ", outcome.installed)
                               else "No modules were installed")
                && (!ok ==> unchanged(this))
    {
      if pyFiles == [] {
        return false, "No Python files found in " + sourceDir;
      }
      var installed := InstallFiles(pyFiles, devMode);
      if installed == [] {
        return false, "No modules were installed";
      }
      return true, "Successfully installed modules: " + Join(", ", installed);
    }

    /**
     * `install_module` (core.py:37-108). `name` is the optional custom
     * name; `fs` says what the source path is. A single file is installed
     * under its module name unless `name.py` already exists; the analysis
     * is of the installed `name.py`.
     */
    method Install(source: string, name: Option<string>, devMode: bool, fs: FileSystem)
      returns (ok: bool, message: string, analysis: Option<Report>)
      modifies this
      ensures !sitePackagesFound ==>
                !ok && message == "Could not determine site-packages directory" && analysis == None && unchanged(this)
      ensures sitePackagesFound && IsDirectory(fs, source) ==>
                var outcome := DirectoryInstall(old(sitePackages), fs[source].pyFiles, devMode);
                && analysis == None
                && (ok <==> outcome.installed != [])
                && sitePackages == outcome.site
                && StoredEntries() == old(StoredEntries()) + outcome.added
                && (!ok ==> unchanged(this))
      ensures sitePackagesFound && source !in fs ==>
                !ok && message == "Source file not found: " + source && analysis == None && unchanged(this)
      ensures sitePackagesFound && source in fs && fs[source].SourceFile? ==>
                var m := ModuleName(name, source);
                if TargetFile(m) in old(sitePackages) then
                  && !ok && analysis == None && unchanged(this)
                  && message == (if m in old(RegisteredNames())
                                 then "Module '" + m + "' is already installed by nopkg. Use 'nopkg uninstall " + m + "' first."
                                 else "Module '" + m + "' already exists (not managed by nopkg)")
                else
                  && ok && message == "Successfully installed module '" + m + "'"
                  && sitePackages == old(sitePackages) + {InstalledFile(m, devMode)}
                  && registryExists
                  && registryLines == old(StoredEntries()) + [EntryLine(m, source, devMode)]
                  && analysis == Some(if devMode then EmptyReport
                                      else Analyze(true, Suffix(TargetFile(m)), fs[source].text))
    {
      if !sitePackagesFound {
        return false, "Could not determine site-packages directory", None;
      }
      if source in fs && fs[source].SourceDirectory? {
        if fs[source].pyFiles == [] {
          assert Candidates([]) == [];
        }
        ok, message := InstallDirectory(source, fs[source].pyFiles, devMode);
        return ok, message, None;
      }
      if source !in fs {
        return false, "Source file not found: " + source, None;
      }
      var moduleName := if name.Some? && name.value != "" then name.value else Stem(source);
      ok, message, analysis := InstallFile(source, moduleName, devMode, fs[source].text);
    }

    /**
     * The single-file branch of `install_module`: refuse a module whose
     * `<name>.py` is already in site-packages (naming whether nopkg installed
     * it), otherwise copy or link it, record it, and analyse the installed copy.
     */
    method InstallFile(source: string, moduleName: string, devMode: bool, text: SourceText)
      returns (ok: bool, message: string, analysis: Option<Report>)
      modifies this
      ensures TargetFile(moduleName) in old(sitePackages) ==>
                && !ok && analysis == None && unchanged(this)
                && message == (if moduleName in old(RegisteredNames())
                               then "Module '" + moduleName + "' is already installed by nopkg. Use 'nopkg uninstall " + moduleName + "' first."
                               else "Module '" + moduleName + "' already exists (not managed by nopkg)")
      ensures TargetFile(moduleName) !in old(sitePackages) ==>
                && ok && message == "Successfully installed module '" + moduleName + "'"
                && sitePackages == old(sitePackages) + {InstalledFile(moduleName, devMode)}
                && registryExists
                && registryLines == old(StoredEntries()) + [EntryLine(moduleName, source, devMode)]
                && analysis == Some(if devMode then EmptyReport
                                    else Analyze(true, Suffix(TargetFile(moduleName)), text))
    {
      var targetPath := moduleName + ".py";
      if targetPath in sitePackages {
        message := ExistingModuleMessage(moduleName);
        return false, message, None;
      }
      AddModule(moduleName, source, devMode);
      assert targetPath in sitePackages <==> !devMode by {
        TargetIsNotPth(moduleName, moduleName);
      }
      var analysisData := AnalyzeModule(targetPath in sitePackages, Suffix(targetPath), text);
      return true, "Successfully installed module '" + moduleName + "'", Some(analysisData);
    }

    /** Why a module whose `name.py` already exists is refused: whether nopkg installed it (core.py:71-76). */
    method ExistingModuleMessage(moduleName: string) returns (message: string)
      ensures message == if moduleName in RegisteredNames()
                         then "Module '" + moduleName + "' is already installed by nopkg. Use 'nopkg uninstall " + moduleName + "' first."
                         else "Module '" + moduleName + "' already exists (not managed by nopkg)"
    {
      var existingModules := RegisteredModules();
      if moduleName in existingModules {
        message := "Module '" + moduleName + "' is already installed by nopkg. Use 'nopkg uninstall " + moduleName + "' first.";
      } else {
        message := "Module '" + moduleName + "' already exists (not managed by nopkg)";
      }
    }

    /**
     * `uninstall_module` (core.py:148-183): remove whichever of `name.py`
     * and `nopkg_name.pth` exist and unregister the name.
     */
    method Uninstall(moduleName: string) returns (ok: bool, message: string)
      modifies this
      ensures !sitePackagesFound ==> !ok && message == "Could not determine site-packages directory" && unchanged(this)
      ensures sitePackagesFound && TargetFile(moduleName) !in old(sitePackages) && PthFile(moduleName) !in old(sitePackages) ==>
                !ok && message == "Module " + moduleName + " is not installed" && unchanged(this)
      ensures sitePackagesFound && (TargetFile(moduleName) in old(sitePackages) || PthFile(moduleName) in old(sitePackages)) ==>
                && ok && message == "Successfully uninstalled module '" + moduleName + "'"
                && sitePackages == old(sitePackages) - {TargetFile(moduleName), PthFile(moduleName)}
                && (old(registryExists) ==> registryExists && registryLines == WithoutModule(old(StoredEntries()), moduleName))
                && (!old(registryExists) ==> !registryExists && registryLines == old(registryLines))
    {
      if !sitePackagesFound {
        return false, "Could not determine site-packages directory";
      }
      var targetPath := moduleName + ".py";
      var pthPath := "nopkg_" + moduleName + ".pth";
      if targetPath !in sitePackages && pthPath !in sitePackages {
        return false, "Module " + moduleName + " is not installed";
      }
      var removedSomething := false;
      if targetPath in sitePackages {
        sitePackages := sitePackages - {targetPath};
        removedSomething := true;
      }
      if pthPath in sitePackages {
        sitePackages := sitePackages - {pthPath};
        removedSomething := true;
      }
      assert sitePackages == old(sitePackages) - {targetPath, pthPath};
      if removedSomething {
        Unregister(moduleName);
        ok, message := true, "Successfully uninstalled module '" + moduleName + "'";
      } else {
        ok, message := false, "No files found for module '" + moduleName + "'";
      }
    }

    /**
     * `update_module` (core.py:191-227): look the name up in the registry,
     * uninstall it and install it again from the recorded source, in dev
     * mode exactly when the recorded mode is `dev`.
     */
    method Update(moduleName: string, fs: FileSystem) returns (ok: bool, message: string)
      modifies this
      ensures !old(registryExists) ==> !ok && message == "Module '" + moduleName + "' not found" && unchanged(this)
      ensures old(registryExists) && old(FindEntry(registryLines, moduleName)).None? ==>
                !ok && message == "Module '" + moduleName + "' not found in registry" && unchanged(this)
      ensures ok ==> old(registryExists) && old(FindEntry(registryLines, moduleName)).Some?
                     && message == "Successfully updated module '" + moduleName + "'"
      ensures old(registryExists) && old(FindEntry(registryLines, moduleName)).Some? && !sitePackagesFound ==>
                !ok && message == "Failed to uninstall existing module: " + "Could not determine site-packages directory"
                && unchanged(this)
      ensures old(registryExists) && old(FindEntry(registryLines, moduleName)).Some? && sitePackagesFound
              && TargetFile(moduleName) !in old(sitePackages) && PthFile(moduleName) !in old(sitePackages) ==>
                !ok && message == "Failed to uninstall existing module: " + ("Module " + moduleName + " is not installed")
                && unchanged(this)
      ensures var found := old(FindEntry(registryLines, moduleName));
              old(registryExists) && found.Some? && sitePackagesFound && moduleName != ""
              && (TargetFile(moduleName) in old(sitePackages) || PthFile(moduleName) in old(sitePackages))
              && found.value.source in fs && fs[found.value.source].SourceFile? ==>
                var devMode := found.value.mode == "dev";
                && ok && message == "Successfully updated module '" + moduleName + "'"
                && sitePackages == old(sitePackages) - {TargetFile(moduleName), PthFile(moduleName)}
                                   + {InstalledFile(moduleName, devMode)}
                && registryExists
                && registryLines == Entries(WithoutModule(old(StoredEntries()), moduleName))
                                    + [EntryLine(moduleName, found.value.source, devMode)]
    {
      if !registryExists {
        return false, "Module '" + moduleName + "' not found";
      }
      var moduleInfo := LookupEntry(moduleName);
      if moduleInfo.None? {
        return false, "Module '" + moduleName + "' not found in registry";
      }
      ghost var site0 := sitePackages;
      var uninstalled, uninstallMessage := Uninstall(moduleName);
      if !uninstalled {
        return false, "Failed to uninstall existing module: " + uninstallMessage;
      }
      assert sitePackagesFound;
      assert TargetFile(moduleName) in site0 || PthFile(moduleName) in site0;
      ok, message := Reinstall(moduleName, moduleInfo.value, fs);
    }

    /** The last step of `update_module`: install again from the recorded source, in the recorded mode (core.py:218-225). */
    method Reinstall(moduleName: string, entry: RegistryEntry, fs: FileSystem) returns (ok: bool, message: string)
      modifies this
      ensures ok ==> message == "Successfully updated module '" + moduleName + "'"
      ensures !sitePackagesFound ==> !ok && unchanged(this)
      ensures sitePackagesFound && moduleName != "" && entry.source in fs && fs[entry.source].SourceFile?
              && TargetFile(moduleName) !in old(sitePackages) ==>
                var devMode := entry.mode == "dev";
                && ok
                && sitePackages == old(sitePackages) + {InstalledFile(moduleName, devMode)}
                && registryExists
                && registryLines == old(StoredEntries()) + [EntryLine(moduleName, entry.source, devMode)]
    {
      var devMode := entry.mode == "dev";
      if moduleName != "" && entry.source in fs && fs[entry.source].SourceFile? {
        assert ModuleName(Some(moduleName), entry.source) == moduleName;
      }
      var installed, installMessage, _ := Install(entry.source, Some(moduleName), devMode, fs);
      if installed {
        return true, "Successfully updated module '" + moduleName + "'";
      } else {
        return false, "Failed to reinstall module: " + installMessage;
      }
    }
  }
}
