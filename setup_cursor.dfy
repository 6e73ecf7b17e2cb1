/** The setup script for Cursor (setup_cursor.py): it checks for `uv` and
    `ansible`, creates `~/.nmstate-mcp` with its subdirectories and a
    template inventory, registers the server in `~/.cursor/mcp.json`, and
    on failure removes what it recorded as created. Each step is specified
    by a function on the file tree; the methods below, which change a
    `Workstation` in place, are proved to follow those functions. */
module SetupCursor {
  import opened Json
  import opened FileTree

  // ---------------------------------------------------------------------
  // Dependencies
  // ---------------------------------------------------------------------

  /** `check_dependencies`. `which(c)` says whether `shutil.which(c)` finds
      the command; `missing` is the list the script prints. */
  method CheckDependencies(which: string -> bool) returns (available: bool, missing: seq<string>)
    ensures "uv" in missing <==> !which("uv")
    ensures "ansible" in missing <==> !which("ansible")
    ensures forall i | 0 <= i < |missing| :: missing[i] == "uv" || missing[i] == "ansible"
    ensures forall i, j | 0 <= i < j < |missing| :: missing[i] == "uv" && missing[j] == "ansible"
    ensures available <==> missing == []
    ensures available <==> which("uv") && which("ansible")
  {
    missing := [];
    if !which("uv") {
      missing := missing + ["uv"];
    }
    if !which("ansible") {
      missing := missing + ["ansible"];
    }
    available := missing == [];
  }

  // ---------------------------------------------------------------------
  // Paths
  // ---------------------------------------------------------------------

  function CursorDir(home: Path): Path { home + [".cursor"] }
  function McpJsonPath(home: Path): Path { CursorDir(home) + ["mcp.json"] }
  function NmstateDir(home: Path): Path { home + [".nmstate-mcp"] }
  function PlaybooksDir(home: Path): Path { NmstateDir(home) + ["playbooks"] }
  function VarsDir(home: Path): Path { NmstateDir(home) + ["vars"] }
  function InventoryPath(home: Path): Path { NmstateDir(home) + ["inventory.yaml"] }

  /** The text written to a new `inventory.yaml`. */
  const InventoryTemplate: string :=
    "# inventory.yaml\n"
    + "# This file is used to define the inventory for nmstate-mcp.\n"
    + "# Add your hosts and groups below in YAML format.\n\n"
    + "# Example structure:\n"
    + "# all:\n"
    + "#   hosts:\n"
    + "#     localhost:\n"
    + "#       ansible_connection: local\n"

  // ---------------------------------------------------------------------
  // The mcp.json merge
  // ---------------------------------------------------------------------

  const ServersKey: string := "mcpServers"
  const EntryKey: string := "nmstate-mcp"

  /** The configuration used when `mcp.json` does not exist. */
  const DefaultConfig: Value := Object(map[ServersKey := Object(map[])])

  /** The server entry: `uv run --directory <installDir> main.py`. */
  function McpEntry(installDir: string): Value
  {
    Object(map[
      "command" := Str("uv"),
      "args" := Array([Str("run"), Str("--directory"), Str(installDir), Str("main.py")])])
  }

  /** Python's `needle in haystack` on two strings: substring containment. */
  predicate Occurs(needle: string, haystack: string)
    decreases |haystack|
  {
    needle <= haystack || (haystack != [] && Occurs(needle, haystack[1..]))
  }

  /** Python's `key in v`: a dictionary's keys, a list's elements, a
      substring of a string; None when it raises TypeError. */
  function PyContains(v: Value, key: string): Option<bool>
  {
    match v
    case Object(m) => Some(key in m)
    case Array(items) => Some(Str(key) in items)
    case Str(s) => Some(Occurs(key, s))
    case _ => None
  }

  /** The configuration already holds an `nmstate-mcp` server, as the
      script's membership test sees it. */
  predicate Registered(config: Value)
  {
    config.Object? && ServersKey in config.fields && PyContains(config.fields[ServersKey], EntryKey) == Some(true)
  }

  /** `after` is `before` with exactly the `nmstate-mcp` server added:
      `mcpServers` created empty first when it was missing, every other
      server and every other top-level key unchanged. */
  predicate EntryAdded(before: Value, after: Value, installDir: string)
  {
    && before.Object? && after.Object?
    && after.fields.Keys == before.fields.Keys + {ServersKey}
    && (forall k | k in before.fields && k != ServersKey :: after.fields[k] == before.fields[k])
    && var prior := if ServersKey in before.fields then before.fields[ServersKey] else Object(map[]);
       && prior.Object?
       && EntryKey !in prior.fields
       && after.fields[ServersKey].Object?
       && after.fields[ServersKey].fields.Keys == prior.fields.Keys + {EntryKey}
       && after.fields[ServersKey].fields[EntryKey] == McpEntry(installDir)
       && forall k | k in prior.fields :: after.fields[ServersKey].fields[k] == prior.fields[k]
  }

  datatype Merge = AlreadyRegistered | Merged(config: Value) | MergeRaised

  /** The in-memory part of `create_mcp_json`: leave a registered
      configuration alone, add the entry otherwise, or raise TypeError on a
      configuration or server table that is not a dictionary. */
  function MergeNmstateEntry(config: Value, installDir: string): (m: Merge)
    ensures m.AlreadyRegistered? <==> Registered(config)
    ensures m.Merged? ==> EntryAdded(config, m.config, installDir) && Registered(m.config)
    ensures m.MergeRaised? <==>
      !config.Object? || (ServersKey in config.fields && !Registered(config) && !config.fields[ServersKey].Object?)
  {
    if !config.Object? then MergeRaised
    else
      var top := config.fields;
      var servers := if ServersKey in top then top[ServersKey] else Object(map[]);
      match PyContains(servers, EntryKey)
      case None => MergeRaised
      case Some(present) =>
        if present then AlreadyRegistered
        else if servers.Object? then Merged(Object(top[ServersKey := Object(servers.fields[EntryKey := McpEntry(installDir)])]))
        else MergeRaised
  }

  /** Merging twice is merging once: the merged configuration is left
      alone by a second merge, whatever directory it names. */
  lemma MergeIdempotent(config: Value, installDir: string, otherDir: string)
    requires MergeNmstateEntry(config, installDir).Merged?
    ensures MergeNmstateEntry(MergeNmstateEntry(config, installDir).config, otherDir) == AlreadyRegistered
  {
  }

  // ---------------------------------------------------------------------
  // create_mcp_json
  // ---------------------------------------------------------------------

  /** What `create_mcp_json` returns: it raised, or `(success, path)`. */
  datatype McpJsonReturn = McpJsonRaised | McpJsonReturned(success: bool, path: Path)

  /** `create_mcp_json`: make `~/.cursor`, load `mcp.json` or start from
      the default, merge, and write the file only when the entry was added. */
  function CreateMcpJsonSpec(fs: Fs, home: Path, installDir: string): (r: (McpJsonReturn, Fs))
    ensures r.0.McpJsonReturned? ==> r.0.success && r.0.path == McpJsonPath(home)
  {
    var path := McpJsonPath(home);
    var mk := MakeDir(fs, CursorDir(home));
    if mk.raised then (McpJsonRaised, fs)
    else
      var fs1 := mk.fs;
      var loaded := if Exists(fs1, path) then ReadJson(fs1, path) else Some(DefaultConfig);
      if loaded.None? then (McpJsonRaised, fs1)
      else
        match MergeNmstateEntry(loaded.value, installDir)
        case MergeRaised => (McpJsonRaised, fs1)
        case AlreadyRegistered => (McpJsonReturned(true, path), fs1)
        case Merged(config) =>
          var w := WriteFile(fs1, path, JsonDoc(config));
          if w.raised then (McpJsonRaised, fs1) else (McpJsonReturned(true, path), w.fs)
  }

  /** After a successful call `mcp.json` holds a registered configuration:
      the one that was there when it was registered already, otherwise the
      loaded (or default) configuration with the entry added. */
  lemma McpJsonRegisters(fs: Fs, home: Path, installDir: string)
    requires CreateMcpJsonSpec(fs, home, installDir).0.McpJsonReturned?
    ensures var after := CreateMcpJsonSpec(fs, home, installDir).1;
            var path := McpJsonPath(home);
            && path in after.files && after.files[path].JsonDoc?
            && Registered(after.files[path].doc)
            && (path in fs.files ==>
                  && fs.files[path].JsonDoc?
                  && (if Registered(fs.files[path].doc) then after.files[path] == fs.files[path]
                      else EntryAdded(fs.files[path].doc, after.files[path].doc, installDir)))
            && (!Exists(fs, path) ==> EntryAdded(DefaultConfig, after.files[path].doc, installDir))
  {
    var path := McpJsonPath(home);
    assert CursorDir(home) != path;
  }

  /** Running the step again after it succeeded changes nothing and
      succeeds again. */
  lemma McpJsonIdempotent(fs: Fs, home: Path, installDir: string)
    requires CreateMcpJsonSpec(fs, home, installDir).0.McpJsonReturned?
    ensures var once := CreateMcpJsonSpec(fs, home, installDir).1;
            CreateMcpJsonSpec(once, home, installDir) == (McpJsonReturned(true, McpJsonPath(home)), once)
  {
    McpJsonRegisters(fs, home, installDir);
    var once := CreateMcpJsonSpec(fs, home, installDir).1;
    assert CursorDir(home) in once.dirs;
  }

  /** With the entry already present the tree is neither changed nor
      written. */
  lemma McpJsonSkipsRegistered(fs: Fs, home: Path, installDir: string)
    requires WellFormed(fs)
    requires McpJsonPath(home) in fs.files && fs.files[McpJsonPath(home)].JsonDoc?
    requires Registered(fs.files[McpJsonPath(home)].doc)
    ensures CreateMcpJsonSpec(fs, home, installDir) == (McpJsonReturned(true, McpJsonPath(home)), fs)
  {
    assert Parent(McpJsonPath(home)) == CursorDir(home);
  }

  /** The step succeeds in a tree where home is a directory, nothing blocks
      `~/.cursor` or `mcp.json`, and an existing `mcp.json` is a
      configuration the merge accepts. */
  lemma McpJsonSucceeds(fs: Fs, home: Path, installDir: string)
    requires WellFormed(fs)
    requires home in fs.dirs
    requires CursorDir(home) !in fs.files && McpJsonPath(home) !in fs.dirs
    requires McpJsonPath(home) in fs.files ==>
               && fs.files[McpJsonPath(home)].JsonDoc?
               && !MergeNmstateEntry(fs.files[McpJsonPath(home)].doc, installDir).MergeRaised?
    ensures CreateMcpJsonSpec(fs, home, installDir).0 == McpJsonReturned(true, McpJsonPath(home))
  {
    assert Parent(CursorDir(home)) == home;
    assert Parent(McpJsonPath(home)) == CursorDir(home);
  }

  /** Only `~/.cursor` and `mcp.json` can change: nothing is removed, every
      other file keeps its contents and no other path is created. */
  lemma McpJsonFrame(fs: Fs, home: Path, installDir: string)
    ensures var after := CreateMcpJsonSpec(fs, home, installDir).1;
            && fs.dirs <= after.dirs <= fs.dirs + {CursorDir(home)}
            && fs.files.Keys <= after.files.Keys <= fs.files.Keys + {McpJsonPath(home)}
            && forall p | p in fs.files && p != McpJsonPath(home) :: after.files[p] == fs.files[p]
  {
  }

  // ---------------------------------------------------------------------
  // create_nmstate_mcp_directory
  // ---------------------------------------------------------------------

  /** `create_nmstate_mcp_directory`: make the directory and its
      `playbooks` and `vars` subdirectories, and write the template
      inventory only when no `inventory.yaml` exists. Every exception is
      caught and reported as None. */
  function CreateNmstateDirSpec(fs: Fs, home: Path): (r: (Option<Path>, Fs))
    ensures r.0.Some? ==> r.0.value == NmstateDir(home)
  {
    var a1 := MakeDir(fs, NmstateDir(home));
    if a1.raised then (None, fs)
    else
      var a2 := MakeDir(a1.fs, PlaybooksDir(home));
      if a2.raised then (None, a1.fs)
      else
        var a3 := MakeDir(a2.fs, VarsDir(home));
        if a3.raised then (None, a2.fs)
        else if Exists(a3.fs, InventoryPath(home)) then (Some(NmstateDir(home)), a3.fs)
        else
          var w := WriteFile(a3.fs, InventoryPath(home), Text(InventoryTemplate));
          if w.raised then (None, a3.fs) else (Some(NmstateDir(home)), w.fs)
  }

  /** An existing inventory is never overwritten; a missing one is created
      from the template when the step succeeds. */
  lemma InventoryNeverOverwritten(fs: Fs, home: Path)
    ensures var r := CreateNmstateDirSpec(fs, home);
            && (InventoryPath(home) in fs.files ==> r.1.files[InventoryPath(home)] == fs.files[InventoryPath(home)])
            && (r.0.Some? && !Exists(fs, InventoryPath(home)) ==> r.1.files[InventoryPath(home)] == Text(InventoryTemplate))
  {
    var n := |home| + 1;
    assert InventoryPath(home) != NmstateDir(home);
    assert InventoryPath(home)[n] != PlaybooksDir(home)[n];
    assert InventoryPath(home)[n] != VarsDir(home)[n];
  }

  /** The step only adds: the three directories and the inventory, nothing
      else, and no existing file changes. On success the layout is
      complete. */
  lemma DirectoryStepOnlyAdds(fs: Fs, home: Path)
    ensures var r := CreateNmstateDirSpec(fs, home);
            && fs.dirs <= r.1.dirs <= fs.dirs + {NmstateDir(home), PlaybooksDir(home), VarsDir(home)}
            && fs.files.Keys <= r.1.files.Keys <= fs.files.Keys + {InventoryPath(home)}
            && (forall p | p in fs.files :: r.1.files[p] == fs.files[p])
            && (r.0.Some? ==>
                  && {NmstateDir(home), PlaybooksDir(home), VarsDir(home)} <= r.1.dirs
                  && Exists(r.1, InventoryPath(home)))
  {
    InventoryNeverOverwritten(fs, home);
  }

  /** In a tree where home is a directory and none of the three
      directories is taken by a file, the step succeeds. */
  lemma DirectoryStepSucceeds(fs: Fs, home: Path)
    requires WellFormed(fs)
    requires home in fs.dirs
    requires NmstateDir(home) !in fs.files && PlaybooksDir(home) !in fs.files && VarsDir(home) !in fs.files
    ensures CreateNmstateDirSpec(fs, home).0 == Some(NmstateDir(home))
  {
    assert Parent(NmstateDir(home)) == home;
    assert Parent(PlaybooksDir(home)) == NmstateDir(home);
    assert Parent(VarsDir(home)) == NmstateDir(home);
    assert Parent(InventoryPath(home)) == NmstateDir(home);
  }

  /** In a tree, a step that creates `~/.nmstate-mcp` also completes: below
      a new directory nothing can block the rest of the layout. So, as long
      as calls fail only because of the tree's shape, a failed step never
      leaves behind a directory it created. */
  lemma DirectoryStepNoPartialCreate(fs: Fs, home: Path)
    requires WellFormed(fs)
    ensures var r := CreateNmstateDirSpec(fs, home);
            !Exists(fs, NmstateDir(home)) && NmstateDir(home) in r.1.dirs ==> r.0.Some?
  {
    var d := NmstateDir(home);
    if !Exists(fs, d) && d in CreateNmstateDirSpec(fs, home).1.dirs {
      assert !MakeDir(fs, d).raised;
      assert Parent(d) == home;
      NothingUnderMissing(fs, d, PlaybooksDir(home));
      NothingUnderMissing(fs, d, VarsDir(home));
      DirectoryStepSucceeds(fs, home);
    }
  }

  // ---------------------------------------------------------------------
  // cleanup_on_failure
  // ---------------------------------------------------------------------

  /** The first loop of `cleanup_on_failure`: unlink each listed path that
      exists, in order, stopping at the first exception. */
  function UnlinkAll(fs: Fs, paths: seq<Path>): Attempt
    decreases |paths|
  {
    if paths == [] then Attempt(false, fs)
    else
      var a := UnlinkAll(fs, paths[..|paths| - 1]);
      var p := paths[|paths| - 1];
      if a.raised || !Exists(a.fs, p) then a else Unlink(a.fs, p)
  }

  /** The second loop: `rmtree` each listed path that exists. */
  function RemoveTrees(fs: Fs, paths: seq<Path>): Attempt
    decreases |paths|
  {
    if paths == [] then Attempt(false, fs)
    else
      var a := RemoveTrees(fs, paths[..|paths| - 1]);
      var p := paths[|paths| - 1];
      if a.raised || !Exists(a.fs, p) then a else RemoveTree(a.fs, p)
  }

  /** `cleanup_on_failure`: the files first, then the directories. */
  function CleanupSpec(fs: Fs, createdFiles: seq<Path>, createdDirs: seq<Path>): Attempt
  {
    var a := UnlinkAll(fs, createdFiles);
    if a.raised then a else RemoveTrees(a.fs, createdDirs)
  }

  /** `after` has lost only what `removed` says may go and gained nothing;
      what stays keeps its contents. */
  ghost predicate OnlyRemoves(before: Fs, after: Fs, removed: Path -> bool)
  {
    && after.dirs <= before.dirs
    && after.files.Keys <= before.files.Keys
    && (forall p | p in after.files :: after.files[p] == before.files[p])
    && (forall p | p in before.dirs && p !in after.dirs :: removed(p))
    && (forall p | p in before.files && p !in after.files :: removed(p))
  }

  lemma {:induction false} UnlinkAllProperties(fs: Fs, paths: seq<Path>)
    ensures var a := UnlinkAll(fs, paths);
            && OnlyRemoves(fs, a.fs, p => p in paths)
            && a.fs.dirs == fs.dirs
            && (!a.raised ==> forall i | 0 <= i < |paths| :: !Exists(a.fs, paths[i]))
            && (a.raised <==> exists i | 0 <= i < |paths| :: paths[i] in fs.dirs)
    decreases |paths|
  {
    if paths != [] {
      var front := paths[..|paths| - 1];
      UnlinkAllProperties(fs, front);
      var a := UnlinkAll(fs, front);
      var p := paths[|paths| - 1];
      assert forall i | 0 <= i < |front| :: front[i] == paths[i];
    }
  }

  lemma {:induction false} RemoveTreesProperties(fs: Fs, paths: seq<Path>)
    ensures var a := RemoveTrees(fs, paths);
            && OnlyRemoves(fs, a.fs, p => exists i | 0 <= i < |paths| :: IsUnder(p, paths[i]))
            && (!a.raised ==> forall i | 0 <= i < |paths| :: !Exists(a.fs, paths[i]))
            && (a.raised ==> exists i | 0 <= i < |paths| :: paths[i] in fs.files)
    decreases |paths|
  {
    if paths != [] {
      var front := paths[..|paths| - 1];
      RemoveTreesProperties(fs, front);
      var a := RemoveTrees(fs, front);
      var p := paths[|paths| - 1];
      assert forall i | 0 <= i < |front| :: front[i] == paths[i];
      assert IsUnder(p, p);
    }
  }

  /** After a cleanup that returns, none of the listed files or
      directories exists; only listed paths and what lies below a listed
      directory were removed, and nothing else changed. */
  lemma CleanupRemovesListed(fs: Fs, createdFiles: seq<Path>, createdDirs: seq<Path>)
    ensures var c := CleanupSpec(fs, createdFiles, createdDirs);
            && OnlyRemoves(fs, c.fs, p => p in createdFiles || exists i | 0 <= i < |createdDirs| :: IsUnder(p, createdDirs[i]))
            && (!c.raised ==>
                  && (forall i | 0 <= i < |createdFiles| :: !Exists(c.fs, createdFiles[i]))
                  && (forall i | 0 <= i < |createdDirs| :: !Exists(c.fs, createdDirs[i])))
  {
    UnlinkAllProperties(fs, createdFiles);
    var a := UnlinkAll(fs, createdFiles);
    if !a.raised {
      RemoveTreesProperties(a.fs, createdDirs);
    }
  }

  /** Cleanup raises only on a listed file that is a directory, or a
      listed directory that is a file and not also listed as a file (files
      go first, so such a path is already gone when the directories are
      removed). */
  lemma CleanupSucceeds(fs: Fs, createdFiles: seq<Path>, createdDirs: seq<Path>)
    requires forall i | 0 <= i < |createdFiles| :: createdFiles[i] !in fs.dirs
    requires forall i | 0 <= i < |createdDirs| :: createdDirs[i] in fs.files ==> createdDirs[i] in createdFiles
    ensures !CleanupSpec(fs, createdFiles, createdDirs).raised
  {
    UnlinkAllProperties(fs, createdFiles);
    var a := UnlinkAll(fs, createdFiles);
    forall i | 0 <= i < |createdDirs| ensures createdDirs[i] !in a.fs.files {
      if createdDirs[i] in fs.files {
        var j :| 0 <= j < |createdFiles| && createdFiles[j] == createdDirs[i];
      }
    }
    RemoveTreesProperties(a.fs, createdDirs);
  }

  // ---------------------------------------------------------------------
  // main
  // ---------------------------------------------------------------------

  /** How `main` ends: setup completed (noting whether dependencies are
      missing), `sys.exit(1)` after cleanup, or an exception escaping from
      the cleanup itself. */
  datatype SetupOutcome = Completed(allDependencies: bool) | ExitedWithError | CleanupCrashed

  /** The failure path of `main`: `cleanup_on_failure(created_files,
      created_dirs)` with `created_files` always empty, then `sys.exit(1)`. */
  function FailWith(fs: Fs, createdDirs: seq<Path>): (SetupOutcome, Fs)
  {
    var c := CleanupSpec(fs, [], createdDirs);
    (if c.raised then CleanupCrashed else ExitedWithError, c.fs)
  }

  /** `main` as written: the `~/.nmstate-mcp` directory is recorded as
      created whenever step 2 returns, whether or not this run created it. */
  function SetupAsWritten(fs: Fs, home: Path, installDir: string, depsAvailable: bool): (r: (SetupOutcome, Fs))
    ensures CreateNmstateDirSpec(fs, home).0.None? ==> r == (ExitedWithError, CreateNmstateDirSpec(fs, home).1)
    ensures r.0.Completed? ==> r.0.allDependencies == depsAvailable && CreateNmstateDirSpec(fs, home).0.Some?
  {
    var (dir, fs2) := CreateNmstateDirSpec(fs, home);
    if dir.None? then FailWith(fs2, [])
    else
      var createdDirs := [dir.value];
      var (step3, fs3) := CreateMcpJsonSpec(fs2, home, installDir);
      if step3.McpJsonRaised? || !step3.success then FailWith(fs3, createdDirs)
      else (Completed(depsAvailable), fs3)
  }

  /** The directory `main` should record: `~/.nmstate-mcp` when this run
      created it. */
  function CreatedByRun(before: Fs, after: Fs, home: Path): seq<Path>
  {
    if !Exists(before, NmstateDir(home)) && NmstateDir(home) in after.dirs then [NmstateDir(home)] else []
  }

  /** `main` with the bookkeeping corrected: after step 2 succeeds,
      `~/.nmstate-mcp` is recorded only when this run created it. A failed
      step 2 is cleaned up with nothing recorded, as the script does. */
  function Setup(fs: Fs, home: Path, installDir: string, depsAvailable: bool): (r: (SetupOutcome, Fs))
    ensures CreateNmstateDirSpec(fs, home).0.None? ==> r == (ExitedWithError, CreateNmstateDirSpec(fs, home).1)
    ensures r.0.Completed? ==> r.0.allDependencies == depsAvailable && CreateNmstateDirSpec(fs, home).0.Some?
  {
    var (dir, fs2) := CreateNmstateDirSpec(fs, home);
    if dir.None? then FailWith(fs2, [])
    else
      var createdDirs := CreatedByRun(fs, fs2, home);
      var (step3, fs3) := CreateMcpJsonSpec(fs2, home, installDir);
      if step3.McpJsonRaised? || !step3.success then FailWith(fs3, createdDirs)
      else (Completed(depsAvailable), fs3)
  }

  /** The correction matters only to a user who already has
      `~/.nmstate-mcp`: on a fresh install both versions of `main` behave
      alike. */
  lemma SetupDiffersOnlyForExistingDirectory(fs: Fs, home: Path, installDir: string, depsAvailable: bool)
    ensures !Exists(fs, NmstateDir(home)) ==>
              Setup(fs, home, installDir, depsAvailable) == SetupAsWritten(fs, home, installDir, depsAvailable)
  {
    DirectoryStepOnlyAdds(fs, home);
  }

  /** On a machine where neither `~/.nmstate-mcp` nor `~/.cursor` exists
      yet, the run completes. */
  lemma FreshSetupCompletes(fs: Fs, home: Path, installDir: string, depsAvailable: bool)
    requires WellFormed(fs)
    requires home in fs.dirs
    requires !Exists(fs, NmstateDir(home)) && !Exists(fs, CursorDir(home))
    ensures Setup(fs, home, installDir, depsAvailable).0 == Completed(depsAvailable)
  {
    var n := |home|;
    NothingUnderMissing(fs, NmstateDir(home), PlaybooksDir(home));
    NothingUnderMissing(fs, NmstateDir(home), VarsDir(home));
    NothingUnderMissing(fs, CursorDir(home), McpJsonPath(home));
    DirectoryStepSucceeds(fs, home);
    DirectoryStepOnlyAdds(fs, home);
    var fs2 := CreateNmstateDirSpec(fs, home).1;
    assert CursorDir(home)[n] != NmstateDir(home)[n];
    assert McpJsonPath(home)[n] != InventoryPath(home)[n];
    assert McpJsonPath(home)[n] != PlaybooksDir(home)[n] && McpJsonPath(home)[n] != VarsDir(home)[n];
    assert !Exists(fs2, CursorDir(home)) && !Exists(fs2, McpJsonPath(home));
    assert Parent(CursorDir(home)) == home;
    assert Parent(McpJsonPath(home)) == CursorDir(home);
  }

  /** A user who already has `~/.nmstate-mcp` with a configured inventory
      and an `mcp.json` that is not valid JSON. */
  function ExistingInstallWithBrokenConfig(): Fs
  {
    var home: Path := ["home", "user"];
    Fs({[], ["home"], home, CursorDir(home), NmstateDir(home), PlaybooksDir(home), VarsDir(home)},
       map[InventoryPath(home) := Text("all:\n  hosts:\n    lab1: {}\n"),
           McpJsonPath(home) := Text("{ \"mcpServers\": ")])
  }

  lemma ScenarioWellFormed()
    ensures WellFormed(ExistingInstallWithBrokenConfig())
  {
    var fs := ExistingInstallWithBrokenConfig();
    var inv: Path := ["home", "user", ".nmstate-mcp", "inventory.yaml"];
    var mj: Path := ["home", "user", ".cursor", "mcp.json"];
    assert InventoryPath(["home", "user"]) == inv && McpJsonPath(["home", "user"]) == mj;
    assert fs.files.Keys == {inv, mj};
    forall p | p in fs.dirs ensures p !in fs.files && (p != [] ==> Parent(p) in fs.dirs) {
      if |p| == 4 {
        assert p[3] == "playbooks" || p[3] == "vars";
        assert p[3] != inv[3] && p[3] != mj[3];
      }
      assert p != inv && p != mj;
      var home: Path := ["home", "user"];
      var d: Path := ["home", "user", ".nmstate-mcp"];
      if p == ["home"] {
        assert Parent(p) == [];
      } else if p == home {
        assert Parent(p) == ["home"];
      } else if |p| == 3 {
        assert Parent(p) == home;
      } else if |p| == 4 {
        assert Parent(p) == d;
      }
    }
  }

  /** As written, that user's inventory is deleted: step 3 raises, and the
      cleanup removes the pre-existing `~/.nmstate-mcp` tree it recorded. */
  lemma SetupAsWrittenDeletesExistingInventory()
    ensures var home: Path := ["home", "user"];
            var fs := ExistingInstallWithBrokenConfig();
            var r := SetupAsWritten(fs, home, "/opt/nmstate-mcp", true);
            && WellFormed(fs)
            && InventoryPath(home) in fs.files
            && r.0 == ExitedWithError
            && InventoryPath(home) !in r.1.files
  {
    var home: Path := ["home", "user"];
    var fs := ExistingInstallWithBrokenConfig();
    ScenarioWellFormed();
    var d := NmstateDir(home);
    var inv := InventoryPath(home);
    assert inv in fs.files;
    assert d in fs.dirs && PlaybooksDir(home) in fs.dirs && VarsDir(home) in fs.dirs;
    var step2 := CreateNmstateDirSpec(fs, home);
    assert step2 == (Some(d), fs);
    assert CursorDir(home) in fs.dirs;
    assert McpJsonPath(home) in fs.files && fs.files[McpJsonPath(home)].Text?;
    var step3 := CreateMcpJsonSpec(fs, home, "/opt/nmstate-mcp");
    assert step3 == (McpJsonRaised, fs);
    var removed := RemoveTrees(fs, [d]);
    assert [d][..|[d]| - 1] == [];
    assert RemoveTrees(fs, []) == Attempt(false, fs);
    assert Exists(fs, d);
    assert removed == RemoveTree(fs, d);
    assert IsUnder(inv, d);
    assert inv !in removed.fs.files;
    assert CleanupSpec(fs, [], [d]) == removed;
  }

  /** With the corrected bookkeeping, setup never loses what existed
      before it ran: every directory stays, every file stays, and every
      file other than `mcp.json` keeps its contents. */
  lemma SetupKeepsExistingFiles(fs: Fs, home: Path, installDir: string, depsAvailable: bool)
    requires WellFormed(fs)
    ensures var after := Setup(fs, home, installDir, depsAvailable).1;
            && fs.dirs <= after.dirs
            && fs.files.Keys <= after.files.Keys
            && forall p | p in fs.files && p != McpJsonPath(home) :: after.files[p] == fs.files[p]
  {
    var (dir, fs2) := CreateNmstateDirSpec(fs, home);
    DirectoryStepOnlyAdds(fs, home);
    var createdDirs := CreatedByRun(fs, fs2, home);
    var (step3, fs3) := CreateMcpJsonSpec(fs2, home, installDir);
    McpJsonFrame(fs2, home, installDir);
    // Whatever the cleanup removes lies below a directory that did not
    // exist before the run, so it did not exist before the run either.
    forall p | Exists(fs, p) && createdDirs != [] ensures !IsUnder(p, NmstateDir(home)) {
      if IsUnder(p, NmstateDir(home)) {
        NothingUnderMissing(fs, NmstateDir(home), p);
      }
    }
    if dir.None? {
      CleanupRemovesListed(fs2, [], []);
    } else {
      CleanupRemovesListed(fs3, [], createdDirs);
    }
  }

  /** With the corrected bookkeeping the cleanup itself never raises, and
      (calls failing only because of the tree's shape) a failed run leaves
      nothing of a `~/.nmstate-mcp` it created. */
  lemma SetupFailsCleanly(fs: Fs, home: Path, installDir: string, depsAvailable: bool)
    requires WellFormed(fs)
    ensures var r := Setup(fs, home, installDir, depsAvailable);
            && r.0 != CleanupCrashed
            && (r.0 == ExitedWithError && !Exists(fs, NmstateDir(home)) ==> !Exists(r.1, NmstateDir(home)))
  {
    var (dir, fs2) := CreateNmstateDirSpec(fs, home);
    DirectoryStepOnlyAdds(fs, home);
    var createdDirs := CreatedByRun(fs, fs2, home);
    var (step3, fs3) := CreateMcpJsonSpec(fs2, home, installDir);
    McpJsonFrame(fs2, home, installDir);
    assert NmstateDir(home) != McpJsonPath(home);
    if dir.None? {
      DirectoryStepNoPartialCreate(fs, home);
      CleanupSucceeds(fs2, [], []);
      assert NmstateDir(home) != InventoryPath(home);
    } else {
      assert forall i | 0 <= i < |createdDirs| :: createdDirs[i] in fs3.dirs && createdDirs[i] !in fs3.files;
      CleanupSucceeds(fs3, [], createdDirs);
      CleanupRemovesListed(fs3, [], createdDirs);
      if !Exists(fs, NmstateDir(home)) {
        assert createdDirs == [NmstateDir(home)];
      }
    }
  }

  /** A completed run leaves the full layout and a registered `mcp.json`. */
  lemma SetupCompletedLayout(fs: Fs, home: Path, installDir: string, depsAvailable: bool)
    ensures var r := Setup(fs, home, installDir, depsAvailable);
            r.0.Completed? ==>
              && r.0.allDependencies == depsAvailable
              && {NmstateDir(home), PlaybooksDir(home), VarsDir(home)} <= r.1.dirs
              && Exists(r.1, InventoryPath(home))
              && McpJsonPath(home) in r.1.files && r.1.files[McpJsonPath(home)].JsonDoc?
              && Registered(r.1.files[McpJsonPath(home)].doc)
  {
    var (dir, fs2) := CreateNmstateDirSpec(fs, home);
    DirectoryStepOnlyAdds(fs, home);
    var (step3, fs3) := CreateMcpJsonSpec(fs2, home, installDir);
    McpJsonFrame(fs2, home, installDir);
    if step3.McpJsonReturned? {
      McpJsonRegisters(fs2, home, installDir);
    }
  }

  // ---------------------------------------------------------------------
  // The script, run on a workstation
  // ---------------------------------------------------------------------

  /** `create_mcp_json`, updating the configuration step by step. */
  method CreateMcpJson(ws: Workstation, home: Path, installDir: string) returns (r: McpJsonReturn)
    modifies ws
    ensures (r, ws.State()) == CreateMcpJsonSpec(old(ws.State()), home, installDir)
  {
    var path := McpJsonPath(home);
    var raised := ws.MakeDirectory(CursorDir(home));
    if raised {
      return McpJsonRaised;
    }
    var config: Value;
    if Exists(ws.State(), path) {
      var loaded := ReadJson(ws.State(), path);
      if loaded.None? {
        return McpJsonRaised;
      }
      config := loaded.value;
    } else {
      config := DefaultConfig;
    }
    if !config.Object? {
      return McpJsonRaised;
    }
    var top := config.fields;
    ghost var original := top;
    if ServersKey !in top {
      top := top[ServersKey := Object(map[])];
    }
    var servers := top[ServersKey];
    var present := PyContains(servers, EntryKey);
    if present.None? {
      return McpJsonRaised;
    }
    if present.value {
      return McpJsonReturned(true, path);
    }
    if !servers.Object? {
      return McpJsonRaised;
    }
    top := top[ServersKey := Object(servers.fields[EntryKey := McpEntry(installDir)])];
    assert top == original[ServersKey := Object(servers.fields[EntryKey := McpEntry(installDir)])];
    assert MergeNmstateEntry(config, installDir) == Merged(Object(top));
    raised := ws.Write(path, JsonDoc(Object(top)));
    if raised {
      return McpJsonRaised;
    }
    return McpJsonReturned(true, path);
  }

  /** `create_nmstate_mcp_directory`; every exception is caught. */
  method CreateNmstateMcpDirectory(ws: Workstation, home: Path) returns (dir: Option<Path>)
    modifies ws
    ensures (dir, ws.State()) == CreateNmstateDirSpec(old(ws.State()), home)
  {
    var raised := ws.MakeDirectory(NmstateDir(home));
    if raised {
      return None;
    }
    raised := ws.MakeDirectory(PlaybooksDir(home));
    if raised {
      return None;
    }
    raised := ws.MakeDirectory(VarsDir(home));
    if raised {
      return None;
    }
    if !Exists(ws.State(), InventoryPath(home)) {
      raised := ws.Write(InventoryPath(home), Text(InventoryTemplate));
      if raised {
        return None;
      }
    }
    return Some(NmstateDir(home));
  }

  /** `cleanup_on_failure`: two loops, files first, each stopping at the
      first exception, which the caller sees as `raised`. */
  method CleanupOnFailure(ws: Workstation, createdFiles: seq<Path>, createdDirs: seq<Path>) returns (raised: bool)
    modifies ws
    ensures Attempt(raised, ws.State()) == CleanupSpec(old(ws.State()), createdFiles, createdDirs)
  {
    ghost var start := ws.State();
    raised := false;
    for i := 0 to |createdFiles|
      invariant Attempt(false, ws.State()) == UnlinkAll(start, createdFiles[..i])
    {
      assert createdFiles[..i + 1][..i] == createdFiles[..i];
      if Exists(ws.State(), createdFiles[i]) {
        raised := ws.RemoveFile(createdFiles[i]);
        if raised {
          assert createdFiles[..i + 1] == createdFiles[..i] + [createdFiles[i]];
          UnlinkAllStops(start, createdFiles, i + 1);
          return;
        }
      }
    }
    assert createdFiles[..|createdFiles|] == createdFiles;
    ghost var unlinked := ws.State();
    for i := 0 to |createdDirs|
      invariant Attempt(false, ws.State()) == RemoveTrees(unlinked, createdDirs[..i])
    {
      assert createdDirs[..i + 1][..i] == createdDirs[..i];
      if Exists(ws.State(), createdDirs[i]) {
        raised := ws.RemoveDirectoryTree(createdDirs[i]);
        if raised {
          RemoveTreesStops(unlinked, createdDirs, i + 1);
          return;
        }
      }
    }
    assert createdDirs[..|createdDirs|] == createdDirs;
  }

  /** Once the file loop has raised, the remaining paths do nothing. */
  lemma {:induction false} UnlinkAllStops(fs: Fs, paths: seq<Path>, k: nat)
    requires k <= |paths|
    requires UnlinkAll(fs, paths[..k]).raised
    ensures UnlinkAll(fs, paths) == UnlinkAll(fs, paths[..k])
    decreases |paths| - k
  {
    if k < |paths| {
      assert paths[..k + 1][..k] == paths[..k];
      UnlinkAllStops(fs, paths, k + 1);
    } else {
      assert paths[..k] == paths;
    }
  }

  /** Once the directory loop has raised, the remaining paths do nothing. */
  lemma {:induction false} RemoveTreesStops(fs: Fs, paths: seq<Path>, k: nat)
    requires k <= |paths|
    requires RemoveTrees(fs, paths[..k]).raised
    ensures RemoveTrees(fs, paths) == RemoveTrees(fs, paths[..k])
    decreases |paths| - k
  {
    if k < |paths| {
      assert paths[..k + 1][..k] == paths[..k];
      RemoveTreesStops(fs, paths, k + 1);
    } else {
      assert paths[..k] == paths;
    }
  }

  /** `main`, with the corrected bookkeeping of `created_dirs`. */
  method RunSetup(ws: Workstation, which: string -> bool, home: Path, installDir: string) returns (outcome: SetupOutcome)
    modifies ws
    ensures (outcome, ws.State()) == Setup(old(ws.State()), home, installDir, which("uv") && which("ansible"))
  {
    ghost var before := ws.State();
    var createdFiles: seq<Path> := [];
    var createdDirs: seq<Path> := [];
    var depsAvailable, missing := CheckDependencies(which);
    var existed := Exists(ws.State(), NmstateDir(home));
    var dir := CreateNmstateMcpDirectory(ws, home);
    ghost var afterStep2 := ws.State();
    assert (dir, afterStep2) == CreateNmstateDirSpec(before, home);
    if dir.None? {
      var raised := CleanupOnFailure(ws, createdFiles, createdDirs);
      outcome := if raised then CleanupCrashed else ExitedWithError;
      return;
    }
    if !existed && NmstateDir(home) in ws.dirs {
      createdDirs := createdDirs + [NmstateDir(home)];
    }
    assert createdDirs == CreatedByRun(before, ws.State(), home);
    var step3 := CreateMcpJson(ws, home, installDir);
    assert (step3, ws.State()) == CreateMcpJsonSpec(afterStep2, home, installDir);
    if step3.McpJsonRaised? || !step3.success {
      var raised := CleanupOnFailure(ws, createdFiles, createdDirs);
      outcome := if raised then CleanupCrashed else ExitedWithError;
      return;
    }
    outcome := Completed(depsAvailable);
  }
}
