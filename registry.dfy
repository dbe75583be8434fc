/**
 * The registry file `~/.nopkg/registry.txt` (nopkg/core.py:239-295): one
 * `name|source|mode` entry per line. Every reader strips each line and
 * ignores blank ones; `_register_module` and `_unregister_module` write the
 * stripped entries back one per line.
 *
 * The functions here are read over a file's lines in order, the way the
 * source's loops read them, so each is defined on a prefix of the lines.
 */
module Registry {
  import opened Wrappers
  import opened Strings

  /** The mode field of an entry (core.py:250). */
  function ModeText(devMode: bool): (mode: string)
    ensures mode == "dev" <==> devMode
    ensures '|' !in mode
  {
    if devMode then "dev" else "copy"
  }

  /** The line `_register_module` appends (core.py:251). */
  function EntryLine(name: string, source: string, devMode: bool): string {
    name + "|" + source + "|" + ModeText(devMode)
  }

  /** The entries of a registry file: its stripped, non-blank lines, in order (core.py:247, 269). */
  function Entries(lines: seq<string>): (entries: seq<string>)
    ensures |entries| <= |lines|
    ensures forall k :: 0 <= k < |entries| ==> entries[k] != "" && IsTrimmed(entries[k])
  {
    if lines == [] then []
    else
      var line := Strip(lines[|lines| - 1]);
      Entries(lines[..|lines| - 1]) + (if line != "" then [line] else [])
  }

  /** The text before the first `|`: `line.split('|')[0]` (core.py:292). */
  function FirstField(line: string): (field: string)
    ensures '|' !in field
    ensures |field| <= |line| && field == line[..|field|]
    ensures |field| < |line| <==> '|' in line
    ensures |field| < |line| ==> line[|field|] == '|'
  {
    SplitHead(line, '|');
    Split(line, '|')[0]
  }

  /** `_get_registered_modules`: the first field of every non-blank line holding a `|` (core.py:287-295). */
  function Listing(lines: seq<string>): (names: seq<string>)
    ensures |names| <= |lines|
    ensures forall k :: 0 <= k < |names| ==> '|' !in names[k]
  {
    if lines == [] then []
    else
      var line := Strip(lines[|lines| - 1]);
      Listing(lines[..|lines| - 1]) + (if line != "" && '|' in line then [FirstField(line)] else [])
  }

  /** The entries `_unregister_module` keeps: those not starting with `name|` (core.py:272). */
  function WithoutModule(entries: seq<string>, name: string): (kept: seq<string>)
    ensures |kept| <= |entries|
    ensures forall e :: e in kept <==> e in entries && !StartsWith(e, name + "|")
  {
    if entries == [] then []
    else
      var e := entries[|entries| - 1];
      WithoutModule(entries[..|entries| - 1], name) + (if StartsWith(e, name + "|") then [] else [e])
  }

  /** A list of names with every occurrence of `name` removed. */
  function RemoveName(names: seq<string>, name: string): (r: seq<string>)
    ensures forall x :: x in r <==> x in names && x != name
  {
    if names == [] then []
    else RemoveName(names[..|names| - 1], name) + (if names[|names| - 1] == name then [] else [names[|names| - 1]])
  }

  /** What `update_module` reads from a registry line. */
  datatype RegistryEntry = RegistryEntry(name: string, source: string, mode: string)

  /** The line `update_module` stops at (core.py:202). */
  predicate Matches(line: string, name: string) {
    line != "" && StartsWith(line, name + "|")
  }

  /** The first stripped line starting with `name|`, if any. */
  function FirstMatch(lines: seq<string>, name: string): (m: Option<string>)
    ensures m.Some? ==> Matches(m.value, name)
  {
    if lines == [] then None
    else
      var prev := FirstMatch(lines[..|lines| - 1], name);
      var line := Strip(lines[|lines| - 1]);
      if prev.Some? then prev
      else if Matches(line, name) then Some(line)
      else None
  }

  /** The fields of a line, when it has at least three (core.py:203-209). */
  function ParseEntry(line: string): Option<RegistryEntry> {
    var parts := Split(line, '|');
    if |parts| >= 3 then Some(RegistryEntry(parts[0], parts[1], parts[2])) else None
  }

  /** The registry lookup of `update_module`: only the first matching line is parsed (core.py:198-210). */
  function FindEntry(lines: seq<string>, name: string): Option<RegistryEntry> {
    match FirstMatch(lines, name)
    case None => None
    case Some(line) => ParseEntry(line)
  }

  // ---------------------------------------------------------------------
  // Reading lines piecewise

  lemma {:induction false} EntriesAppend(a: seq<string>, b: seq<string>)
    ensures Entries(a + b) == Entries(a) + Entries(b)
    decreases |b|
  {
    if b == [] {
      assert a + b == a;
    } else {
      var init := b[..|b| - 1];
      assert (a + b)[..|a + b| - 1] == a + init;
      assert (a + b)[|a + b| - 1] == b[|b| - 1];
      EntriesAppend(a, init);
    }
  }

  lemma {:induction false} ListingAppend(a: seq<string>, b: seq<string>)
    ensures Listing(a + b) == Listing(a) + Listing(b)
    decreases |b|
  {
    if b == [] {
      assert a + b == a;
    } else {
      var init := b[..|b| - 1];
      assert (a + b)[..|a + b| - 1] == a + init;
      assert (a + b)[|a + b| - 1] == b[|b| - 1];
      ListingAppend(a, init);
    }
  }

  lemma {:induction false} WithoutModuleAppend(a: seq<string>, b: seq<string>, name: string)
    ensures WithoutModule(a + b, name) == WithoutModule(a, name) + WithoutModule(b, name)
    decreases |b|
  {
    if b == [] {
      assert a + b == a;
    } else {
      var init := b[..|b| - 1];
      assert (a + b)[..|a + b| - 1] == a + init;
      assert (a + b)[|a + b| - 1] == b[|b| - 1];
      WithoutModuleAppend(a, init, name);
    }
  }

  lemma {:induction false} RemoveNameAppend(a: seq<string>, b: seq<string>, name: string)
    ensures RemoveName(a + b, name) == RemoveName(a, name) + RemoveName(b, name)
    decreases |b|
  {
    if b == [] {
      assert a + b == a;
    } else {
      var init := b[..|b| - 1];
      assert (a + b)[..|a + b| - 1] == a + init;
      assert (a + b)[|a + b| - 1] == b[|b| - 1];
      RemoveNameAppend(a, init, name);
    }
  }

  lemma {:induction false} FirstMatchAppend(a: seq<string>, b: seq<string>, name: string)
    ensures FirstMatch(a + b, name) == if FirstMatch(a, name).Some? then FirstMatch(a, name) else FirstMatch(b, name)
    decreases |b|
  {
    if b == [] {
      assert a + b == a;
    } else {
      var init := b[..|b| - 1];
      assert (a + b)[..|a + b| - 1] == a + init;
      assert (a + b)[|a + b| - 1] == b[|b| - 1];
      FirstMatchAppend(a, init, name);
    }
  }

  lemma EntriesOfLine(line: string)
    ensures Entries([line]) == if Strip(line) != "" then [Strip(line)] else []
  {
    var one := [line];
    assert one[..|one| - 1] == [];
  }

  lemma ListingOfLine(line: string)
    ensures Listing([line]) == if Strip(line) != "" && '|' in Strip(line) then [FirstField(Strip(line))] else []
  {
    var one := [line];
    assert one[..|one| - 1] == [];
  }

  lemma WithoutModuleOfLine(e: string, name: string)
    ensures WithoutModule([e], name) == if StartsWith(e, name + "|") then [] else [e]
  {
    var one := [e];
    assert one[..|one| - 1] == [];
  }

  lemma RemoveNameOfOne(x: string, name: string)
    ensures RemoveName([x], name) == if x == name then [] else [x]
  {
    var one := [x];
    assert one[..|one| - 1] == [];
  }

  lemma FirstMatchOfLine(line: string, name: string)
    ensures FirstMatch([line], name) == if Matches(Strip(line), name) then Some(Strip(line)) else None
  {
    var one := [line];
    assert one[..|one| - 1] == [];
  }

  /** Reading back a registry that was written from its entries gives the same entries. */
  lemma {:induction false} EntriesOfEntries(lines: seq<string>)
    ensures Entries(Entries(lines)) == Entries(lines)
  {
    if lines != [] {
      var init := lines[..|lines| - 1];
      var line := Strip(lines[|lines| - 1]);
      var tail := if line != "" then [line] else [];
      EntriesOfEntries(init);
      EntriesAppend(Entries(init), tail);
      if line != "" {
        StripTrimmed(line);
        EntriesOfLine(line);
      }
    }
  }

  /** The listing of a rewritten registry is the listing of the original lines. */
  lemma {:induction false} ListingOfEntries(lines: seq<string>)
    ensures Listing(Entries(lines)) == Listing(lines)
  {
    if lines != [] {
      var init := lines[..|lines| - 1];
      var line := Strip(lines[|lines| - 1]);
      var tail := if line != "" then [line] else [];
      ListingOfEntries(init);
      ListingAppend(Entries(init), tail);
      if line != "" {
        StripTrimmed(line);
        ListingOfLine(line);
      }
    }
  }

  /** The lookup in a rewritten registry finds what it found in the original lines. */
  lemma {:induction false} FirstMatchOfEntries(lines: seq<string>, name: string)
    ensures FirstMatch(Entries(lines), name) == FirstMatch(lines, name)
  {
    if lines != [] {
      var init := lines[..|lines| - 1];
      var line := Strip(lines[|lines| - 1]);
      var tail := if line != "" then [line] else [];
      FirstMatchOfEntries(init, name);
      FirstMatchAppend(Entries(init), tail, name);
      if line != "" {
        StripTrimmed(line);
        FirstMatchOfLine(line, name);
      }
    }
  }

  // ---------------------------------------------------------------------
  // The entry a registration writes

  /** An entry whose name does not start with whitespace is stored exactly as written. */
  lemma EntryLineTrimmed(name: string, source: string, devMode: bool)
    requires name == [] || !IsSpace(name[0])
    ensures Strip(EntryLine(name, source, devMode)) == EntryLine(name, source, devMode)
  {
    var e := EntryLine(name, source, devMode);
    var mode := ModeText(devMode);
    assert e[|e| - 1] == mode[|mode| - 1];
    if name != [] {
      assert e[0] == name[0];
    } else {
      assert e[0] == '|';
    }
    StripTrimmed(e);
  }

  /** An entry starts with its name and a separator. */
  lemma EntryLineStartsWithName(name: string, source: string, devMode: bool)
    ensures StartsWith(EntryLine(name, source, devMode), name + "|")
    ensures EntryLine(name, source, devMode)[|name|] == '|'
  {
    var e := EntryLine(name, source, devMode);
    assert e == (name + "|") + (source + "|" + ModeText(devMode));
  }

  /** The entry splits back into the name, the source and the mode. */
  lemma ParseEntryLine(name: string, source: string, devMode: bool)
    requires '|' !in name && '|' !in source
    ensures ParseEntry(EntryLine(name, source, devMode)) == Some(RegistryEntry(name, source, ModeText(devMode)))
  {
    SplitThree(name, source, ModeText(devMode), '|');
    assert EntryLine(name, source, devMode) == name + ['|'] + source + ['|'] + ModeText(devMode);
  }

  /**
   * For a `|`-free name, a line starts with `name|` exactly when it holds a
   * `|` and its first field is `name`.
   */
  lemma StartsWithFieldIff(line: string, name: string)
    requires '|' !in name
    ensures StartsWith(line, name + "|") <==> '|' in line && FirstField(line) == name
  {
    var field := FirstField(line);
    if StartsWith(line, name + "|") {
      assert line[|name|] == (name + "|")[|name|] == '|';
      assert line[..|name|] == (name + "|")[..|name|] == name;
      assert forall k :: 0 <= k < |name| ==> line[k] == name[k] && line[k] != '|';
      assert forall k :: 0 <= k < |field| ==> line[k] == field[k] && line[k] != '|';
      assert |field| == |name|;
    }
    if '|' in line && field == name {
      assert line[..|name| + 1] == field + [line[|field|]];
    }
  }

  /**
   * Registering keeps the existing entries in order and adds exactly one,
   * the new line stripped (core.py:244-257).
   */
  lemma StoredAfterRegister(lines: seq<string>, name: string, source: string, devMode: bool)
    ensures Entries(Entries(lines) + [EntryLine(name, source, devMode)])
            == Entries(lines) + [Strip(EntryLine(name, source, devMode))]
  {
    var e := EntryLine(name, source, devMode);
    EntriesAppend(Entries(lines), [e]);
    EntriesOfEntries(lines);
    EntryLineStartsWithName(name, source, devMode);
    StripKeepsNonSpace(e, |name|);
    EntriesOfLine(e);
  }

  /** After registering a `|`-free name, it is the last name listed, after the names listed before (core.py:250-252, 291-293). */
  lemma ListedAfterRegister(lines: seq<string>, name: string, source: string, devMode: bool)
    requires '|' !in name && (name == [] || !IsSpace(name[0]))
    ensures Listing(Entries(lines) + [EntryLine(name, source, devMode)]) == Listing(lines) + [name]
  {
    ListingAppend(Entries(lines), [EntryLine(name, source, devMode)]);
    ListingOfEntries(lines);
    ListingOfEntryLine(name, source, devMode);
  }

  lemma ListingOfEntryLine(name: string, source: string, devMode: bool)
    requires '|' !in name && (name == [] || !IsSpace(name[0]))
    ensures Listing([EntryLine(name, source, devMode)]) == [name]
  {
    var e := EntryLine(name, source, devMode);
    assert Strip(e) == e by {
      EntryLineTrimmed(name, source, devMode);
    }
    assert '|' in e && FirstField(e) == name by {
      EntryLineStartsWithName(name, source, devMode);
      StartsWithFieldIff(e, name);
    }
    ListingOfLine(e);
  }

  /**
   * Unregistering a `|`-free name removes exactly that name from the
   * listing and keeps every other listed name in order (core.py:272).
   */
  lemma {:induction false} UnregisterListing(lines: seq<string>, name: string)
    requires '|' !in name
    ensures Listing(WithoutModule(Entries(lines), name)) == RemoveName(Listing(lines), name)
    ensures name !in Listing(WithoutModule(Entries(lines), name))
  {
    if lines != [] {
      var init := lines[..|lines| - 1];
      var line := Strip(lines[|lines| - 1]);
      var tail := if line != "" then [line] else [];
      var listed := if line != "" && '|' in line then [FirstField(line)] else [];
      var kept := WithoutModule(Entries(init), name);
      assert WithoutModule(Entries(lines), name) == kept + WithoutModule(tail, name) by {
        WithoutModuleAppend(Entries(init), tail, name);
      }
      assert Listing(kept + WithoutModule(tail, name)) == Listing(kept) + Listing(WithoutModule(tail, name)) by {
        ListingAppend(kept, WithoutModule(tail, name));
      }
      assert RemoveName(Listing(lines), name) == RemoveName(Listing(init), name) + RemoveName(listed, name) by {
        RemoveNameAppend(Listing(init), listed, name);
      }
      UnregisterListing(init, name);
      UnregisterLine(lines[|lines| - 1], name);
    }
  }

  /** Unregistering `name` from the entry of one line removes exactly `name` from that line's listing. */
  lemma UnregisterLine(raw: string, name: string)
    requires '|' !in name
    ensures var line := Strip(raw);
      Listing(WithoutModule(if line != "" then [line] else [], name))
      == RemoveName(if line != "" && '|' in line then [FirstField(line)] else [], name)
  {
    var line := Strip(raw);
    if line != "" {
      StripTrimmed(line);
      StartsWithFieldIff(line, name);
      WithoutModuleOfLine(line, name);
      ListingOfLine(line);
      if '|' in line {
        RemoveNameOfOne(FirstField(line), name);
      }
    }
  }

  /**
   * Unregistering undoes a registration: when no entry starts with `name|`
   * and the name does not start with whitespace, register then unregister
   * leaves the entries as they were.
   */
  lemma UnregisterUndoesRegister(lines: seq<string>, name: string, source: string, devMode: bool)
    requires name == [] || !IsSpace(name[0])
    requires forall e :: e in Entries(lines) ==> !StartsWith(e, name + "|")
    ensures WithoutModule(Entries(Entries(lines) + [EntryLine(name, source, devMode)]), name) == Entries(lines)
  {
    var e := EntryLine(name, source, devMode);
    StoredAfterRegister(lines, name, source, devMode);
    EntryLineTrimmed(name, source, devMode);
    WithoutModuleAppend(Entries(lines), [e], name);
    EntryLineStartsWithName(name, source, devMode);
    WithoutModuleOfLine(e, name);
    WithoutModuleKeepsAll(Entries(lines), name);
  }

  lemma {:induction false} WithoutModuleKeepsAll(entries: seq<string>, name: string)
    requires forall e :: e in entries ==> !StartsWith(e, name + "|")
    ensures WithoutModule(entries, name) == entries
  {
    if entries != [] {
      WithoutModuleKeepsAll(entries[..|entries| - 1], name);
      assert entries[..|entries| - 1] + [entries[|entries| - 1]] == entries;
    }
  }

  /** A line that matches after no earlier line did is the one the lookup uses (core.py:200-210). */
  lemma FirstMatchIsFirst(lines: seq<string>, name: string, k: nat)
    requires k < |lines| && Matches(Strip(lines[k]), name)
    requires forall j :: 0 <= j < k ==> !Matches(Strip(lines[j]), name)
    ensures FirstMatch(lines, name) == Some(Strip(lines[k]))
  {
    var before, line, after := lines[..k], lines[k], lines[k + 1..];
    var upTo := before + [line];
    assert FirstMatch(before, name).None? by {
      NoMatch(before, name);
    }
    assert FirstMatch(upTo, name) == Some(Strip(line)) by {
      FirstMatchOfLine(line, name);
      FirstMatchAppend(before, [line], name);
    }
    assert lines == upTo + after;
    FirstMatchAppend(upTo, after, name);
  }

  /** The lookup finds nothing exactly when no line matches. */
  lemma {:induction false} NoMatch(lines: seq<string>, name: string)
    ensures FirstMatch(lines, name).None? <==> forall j :: 0 <= j < |lines| ==> !Matches(Strip(lines[j]), name)
  {
    if lines != [] {
      NoMatch(lines[..|lines| - 1], name);
    }
  }

  /** A lookup that succeeds for a `|`-free name returns an entry with that name. */
  lemma FindEntryName(lines: seq<string>, name: string)
    requires '|' !in name && FindEntry(lines, name).Some?
    ensures FindEntry(lines, name).value.name == name
  {
    var line := FirstMatch(lines, name).value;
    StartsWithFieldIff(line, name);
    SplitHead(line, '|');
  }

  /**
   * After a first registration of a `|`-free name and source, the lookup
   * returns that name, source and mode; `update_module` then reinstalls in
   * the same mode, since the mode is `dev` exactly for a dev install.
   */
  lemma LookupAfterRegister(lines: seq<string>, name: string, source: string, devMode: bool)
    requires '|' !in name && '|' !in source && (name == [] || !IsSpace(name[0]))
    requires FirstMatch(lines, name).None?
    ensures FindEntry(Entries(lines) + [EntryLine(name, source, devMode)], name)
            == Some(RegistryEntry(name, source, ModeText(devMode)))
    ensures (ModeText(devMode) == "dev") == devMode
  {
    var e := EntryLine(name, source, devMode);
    FirstMatchOfEntries(lines, name);
    FirstMatchAppend(Entries(lines), [e], name);
    EntryLineTrimmed(name, source, devMode);
    EntryLineStartsWithName(name, source, devMode);
    FirstMatchOfLine(e, name);
    ParseEntryLine(name, source, devMode);
  }

  /** Registering a name again does not change what the lookup finds: the oldest entry wins. */
  lemma LookupKeepsFirst(lines: seq<string>, name: string, e: string)
    requires FirstMatch(lines, name).Some?
    ensures FindEntry(Entries(lines) + [e], name) == FindEntry(lines, name)
  {
    FirstMatchOfEntries(lines, name);
    FirstMatchAppend(Entries(lines), [e], name);
  }

  /**
   * The first matching line decides the lookup: when it has fewer than three
   * fields the lookup finds nothing, whatever the later lines hold.
   */
  lemma LookupStopsAtShortEntry(lines: seq<string>, name: string, k: nat)
    requires k < |lines| && Matches(Strip(lines[k]), name)
    requires forall j :: 0 <= j < k ==> !Matches(Strip(lines[j]), name)
    requires |Split(Strip(lines[k]), '|')| < 3
    ensures FindEntry(lines, name) == None
  {
    FirstMatchIsFirst(lines, name, k);
  }

  /** `m|src` before `m|src|copy`: the well-formed second line is never reached. */
  lemma ShortEntryHidesLaterEntry()
    ensures FindEntry(["m|src", "m|src|copy"], "m") == None
  {
    var first := "m|src";
    assert first == "m" + ['|'] + "src";
    assert Matches(first, "m") by {
      assert first[..2] == "m|";
    }
    StripTrimmed(first);
    SplitCons("m", '|', "src");
    assert Split("src", '|') == ["src"];
    assert |Split(first, '|')| == 2;
    LookupStopsAtShortEntry(["m|src", "m|src|copy"], "m", 0);
  }

}
