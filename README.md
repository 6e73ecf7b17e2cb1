# nmstate-mcp in Dafny

This project models the decision logic of nmstate-mcp, an MCP server that gives an agent the `nmstatectl`-style operations of libnmstate. It covers two source files:

- **main.py** (module `NmstateTools`). The `nmstatectl_show` tool turns its three flags into the option map for `libnmstate.show`. When it is given an interface name, it narrows the `interfaces` list of the returned state to the entries with that name, and it reports an error when none match. The `nmstatectl_apply` tool parses a YAML document, hands it to `libnmstate.apply`, swallows any failure by printing it, and returns nothing.
- **setup_cursor.py** (modules `FileTree` and `SetupCursor`). The Cursor setup script does four things:
  - it checks for `uv` and `ansible`;
  - it creates `~/.nmstate-mcp` with `playbooks`, `vars` and a template `inventory.yaml`, and never overwrites an existing inventory;
  - it merges an `nmstate-mcp` server entry into `~/.cursor/mcp.json` without duplicating it;
  - when a step fails, it removes the files and directories it recorded as created.

The state engine and the YAML parser are function parameters: `show`, `apply` and `parse`. `shutil.which` is a predicate parameter `which`. `Path.home()` and the script's own directory are the parameters `home` and `installDir`.

The filesystem is a value `Fs`: a set of directory paths and a map from file paths to contents. The `Workstation` class holds one such tree and changes it in place. Each step of the setup script has two forms:
- a function on `Fs`, which is its specification;
- a method on a `Workstation`, proved to follow that function.

The properties are proved about the functions.

The docstring of `nmstatectl_apply` (main.py:80-81) says it returns success on success. The function is declared `-> None` and returns None on every path; it only prints its errors. The model follows the code.

## Model

| member | source | states |
|---|---|---|
| NmstateTools.BuildShowArgs | main.py:35-41 | the option map holds `kernel_only`, `running_config_only` and `show_secrets` exactly when the matching flag is set, each mapped to True, and no other key |
| NmstateTools.ShowArgsUnique | main.py:35-43 | the flags determine the option map passed to `libnmstate.show`: two maps that fit the same flags are equal |
| NmstateTools.InterfaceEntries | main.py:47-50 | a state without `interfaces` counts as an empty list; a list whose items are all dictionaries yields exactly those items; an empty string or an empty dictionary yields the empty list; Python raises (None) exactly when the value is null, a boolean, a number, a non-empty string, a non-empty dictionary, or a list holding an item that is not a dictionary |
| NmstateTools.FilterByName | main.py:48-50 | the narrowed list is never longer than the input |
| NmstateTools.FilterMembership | main.py:48-50 | an entry is in the narrowed list if and only if it is in the input and its `name` equals the requested name |
| NmstateTools.FilterMultiplicity | main.py:48-50 | each matching entry is kept as many times as it occurs in the input, and each other entry is dropped |
| NmstateTools.FilterConcat | main.py:48-50 | filtering a concatenation is the concatenation of the filtered parts, so the original order is kept |
| NmstateTools.FilterIsSubsequence | main.py:48-50 | the narrowed list is a subsequence of the input: same elements, original order |
| NmstateTools.FilterEmptyIff | main.py:48-52 | the narrowed list is empty exactly when no entry carries the name, which is when the tool reports "Interface not found" |
| NmstateTools.FilterIdempotent | main.py:48-53 | narrowing an already narrowed list changes nothing |
| NmstateTools.Message | main.py:51-68 | every error result of the show tool begins with "Error" |
| NmstateTools.AnswerIsUnique | main.py:60-65 | at most one result answers a given engine state and name, so the result cannot depend on `json_format` |
| NmstateTools.NmstatectlShow | main.py:12-68 | engine exceptions become "Error showing network state"; with no name (None or "") the state is returned unchanged; otherwise the result is "Interface not found" when nothing matches, or the state with `interfaces` replaced by the matching entries and every other key unchanged; the "Could not retrieve state" error is never returned |
| NmstateTools.NmstatectlApply | main.py:71-88 | the parsed document goes to the engine only when parsing succeeded; a parse or apply failure is printed as "Error applying network state: ..." and never propagated; nothing is printed exactly when both succeed; the tool returns nothing |
| SetupCursor.CheckDependencies | setup_cursor.py:44-68 | `uv` is listed missing iff `which` does not find it, and `ansible` likewise; only these two can appear, at most once each, with `uv` before `ansible`; the result is true iff the list is empty, which is iff both commands are found |
| SetupCursor.MergeNmstateEntry | setup_cursor.py:77-99 | an already registered config is left alone. Otherwise exactly the `nmstate-mcp` entry is added (command `uv`, args `run --directory <dir> main.py`); `mcpServers` is created empty first when missing; every other server and top-level key is unchanged. It raises only for a config, or a server table, that is not a dictionary |
| SetupCursor.MergeIdempotent | setup_cursor.py:86-99 | a merged config is recognised as registered by a second merge, so merging twice equals merging once |
| SetupCursor.CreateMcpJsonSpec | setup_cursor.py:70-104 | on every path that does not raise, the step reports success with the `mcp.json` path |
| SetupCursor.McpJsonRegisters | setup_cursor.py:77-104 | after success `mcp.json` holds a registered config. An already registered file is unchanged; otherwise the file holds the loaded config, or `{"mcpServers": {}}` when none existed, with exactly the entry added |
| SetupCursor.McpJsonIdempotent | setup_cursor.py:86-104 | running the step again after a success leaves the tree unchanged and succeeds again |
| SetupCursor.McpJsonSkipsRegistered | setup_cursor.py:86-88 | when `mcp.json` already has the entry, the tree is neither changed nor written |
| SetupCursor.McpJsonFrame | setup_cursor.py:70-104 | only `~/.cursor` and `mcp.json` can be created or changed; nothing is removed and every other file keeps its contents |
| SetupCursor.McpJsonSucceeds | setup_cursor.py:70-104 | the step creates or updates `mcp.json` and returns success whenever home is a directory, nothing blocks `~/.cursor` or `mcp.json`, and an existing `mcp.json` is a configuration the merge accepts |
| SetupCursor.CreateMcpJson | setup_cursor.py:70-104 | the method leaves the workstation and returns exactly what `CreateMcpJsonSpec` prescribes |
| SetupCursor.CreateNmstateDirSpec | setup_cursor.py:106-137 | a successful step returns `~/.nmstate-mcp`; every exception is caught and reported as None |
| SetupCursor.InventoryNeverOverwritten | setup_cursor.py:116-128 | an existing `inventory.yaml` keeps its contents; a missing one holds the template after success |
| SetupCursor.DirectoryStepOnlyAdds | setup_cursor.py:110-130 | the step only adds the three directories and the inventory, and no existing file changes; on success the full layout exists |
| SetupCursor.DirectoryStepNoPartialCreate | setup_cursor.py:110-130 | in the file model, where a call fails only because of the tree's shape: in a well-formed tree, a step that creates `~/.nmstate-mcp` also succeeds, so a failed step never leaves behind a directory it created |
| SetupCursor.DirectoryStepSucceeds | setup_cursor.py:110-130 | in a well-formed tree where home is a directory and no file blocks the three directories, the step succeeds |
| SetupCursor.CreateNmstateMcpDirectory | setup_cursor.py:106-137 | the method leaves the workstation and returns exactly what `CreateNmstateDirSpec` prescribes |
| SetupCursor.UnlinkAllProperties | setup_cursor.py:34-37 | the file loop removes only listed files and changes no directory; when it returns, no listed path exists; it raises if and only if some listed path is a directory |
| SetupCursor.RemoveTreesProperties | setup_cursor.py:39-42 | the directory loop removes only listed directories and what lies below them; when it returns, no listed path exists; it raises only when some listed path is a file (not conversely: a listed file below an earlier listed directory is already gone when the loop reaches it) |
| SetupCursor.CleanupRemovesListed | setup_cursor.py:30-42 | when cleanup returns, none of the listed files or directories exists; only listed paths and what lies below a listed directory are removed, and nothing else changes |
| SetupCursor.CleanupSucceeds | setup_cursor.py:34-42 | cleanup does not raise when no listed file is a directory and every listed directory that is a file is also listed as a file; files go first, so such a file is already gone when the directory loop reaches it |
| SetupCursor.CleanupOnFailure | setup_cursor.py:30-42 | the two loops leave the workstation and raise exactly as `CleanupSpec` prescribes |
| SetupCursor.SetupAsWritten | setup_cursor.py:139-172 | `main` as written, which records `~/.nmstate-mcp` whenever step 2 succeeds: a failed step 2 exits with status 1 and the cleanup of the empty lists changes nothing; a run completes only after step 2 succeeded, and reports the dependency flag |
| SetupCursor.Setup | setup_cursor.py:139-172 | `main` with one change, recording `~/.nmstate-mcp` only when this run created it: a failed step 2 exits with status 1 and changes nothing further, as written; a run completes only after step 2 succeeded, and reports the dependency flag |
| SetupCursor.SetupDiffersOnlyForExistingDirectory | setup_cursor.py:155-172 | when `~/.nmstate-mcp` does not exist beforehand, the corrected and the as-written `main` give the same outcome and the same tree |
| SetupCursor.SetupAsWrittenDeletesExistingInventory | setup_cursor.py:155-172 | as written, a user with an existing, configured `~/.nmstate-mcp` and an unreadable `mcp.json` ends with exit status 1 and no `inventory.yaml` |
| SetupCursor.SetupKeepsExistingFiles | setup_cursor.py:143-172 | with corrected bookkeeping, setup keeps every directory and file that existed before it ran, and every file other than `mcp.json` keeps its contents |
| SetupCursor.SetupFailsCleanly | setup_cursor.py:155-172 | with corrected bookkeeping and a well-formed tree, the cleanup never raises; in the file model, where a call fails only because of the tree's shape, a failed run leaves no `~/.nmstate-mcp` that it created itself |
| SetupCursor.SetupCompletedLayout | setup_cursor.py:146-177 | a completed run reports whether dependencies were found and leaves `~/.nmstate-mcp`, `playbooks`, `vars`, an inventory, and a registered `mcp.json` |
| SetupCursor.FreshSetupCompletes | setup_cursor.py:139-177 | on a well-formed machine where home is a directory and neither `~/.nmstate-mcp` nor `~/.cursor` exists yet, the run completes and reports the dependency flag |
| SetupCursor.RunSetup | setup_cursor.py:139-193 | `main` run on a workstation leaves it, and ends, exactly as `Setup` prescribes; dependency availability is `which("uv") && which("ansible")` |
| FileTree.Workstation.MakeDirectory | setup_cursor.py:111-114 | `mkdir(exist_ok=True)` changes the tree as `MakeDir` says: it does nothing on an existing directory, and raises on a file or a missing parent |
| FileTree.Workstation.Write | setup_cursor.py:118-128 | `open(..., 'w')` raises on a directory or a missing parent, and otherwise sets the file's contents |
| FileTree.Workstation.RemoveFile | setup_cursor.py:36 | `os.unlink` removes a file and raises on a directory |
| FileTree.Workstation.RemoveDirectoryTree | setup_cursor.py:41 | `shutil.rmtree` removes a directory and everything below it, and raises on anything that is not a directory |

## Left out

- The MCP server object, tool registration and `mcp.run()` (main.py:9, 92-96) are framework plumbing.
- `libnmstate.show` and `libnmstate.apply` are foreign code. They are modelled as function parameters that return a value or raise.
- `yaml.safe_load`, `json.load` and `json.dumps` are not modelled as text. Parsed documents are `Json.Value`, and numbers are integers only. A rendered show result is the state it serialises. An `mcp.json` that is not JSON is a `Text` file.
- NmstateTools.Message: for an `interfaces` value that cannot be iterated as dictionaries, the text of Python's TypeError or AttributeError is not modelled.
- Printing is not modelled: the step banners, the install hints for missing dependencies, and the success and summary lines of `main`. The one exception is the error line of `nmstatectl_apply`.
- `sys.exit(1)` is modelled as the outcome `ExitedWithError`. An exception that escapes from the cleanup is modelled as `CleanupCrashed`.
- The `KeyboardInterrupt` handler of `main` (setup_cursor.py:195-198) is left out because interruption is not modelled.
- The separate messages for PermissionError and other errors in `create_nmstate_mcp_directory` are left out; both return `(False, None)`.
- Symbolic links, permissions and concurrent changes to the filesystem are not modelled. A call either succeeds entirely or raises without effect.
- SetupCursor.DirectoryStepNoPartialCreate: holds only in the file model, where a call fails only because of the tree's shape. If `~/.nmstate-mcp` is created and then the `playbooks` or `vars` mkdir or the inventory write is refused (permissions, a full disk), step 2 returns `(False, None)` (setup_cursor.py:132-137) and the new directory stays.
- SetupCursor.SetupFailsCleanly: its second clause holds only in the file model, for the same reason. After such a refused call `main` cleans up two empty lists (setup_cursor.py:156-158), so the new `~/.nmstate-mcp` stays, both as written and with the corrected bookkeeping.
- `created_files` in `main` is never appended to, so the file loop of `cleanup_on_failure` always runs on an empty list. The model passes `[]`, as the source does.
- `RunSetup` uses the corrected `created_dirs` bookkeeping described under Findings: after step 2 succeeds, it records `~/.nmstate-mcp` only when this run created it. Nothing else differs from the script. The as-written bookkeeping is the function `SetupAsWritten`.
- The validated apply with probes, commit and rollback, and the remote playbook executor do not appear in these source files, so they are not modelled.

## Findings

| source | as written | input that shows it | evidently intended | confidence | as-written member | corrected member |
|---|---|---|---|---|---|---|
| setup_cursor.py:160-161 | `main` appends `~/.nmstate-mcp` to `created_dirs` whenever `create_nmstate_mcp_directory` succeeds, even when the directory existed before the run; a later failure then runs `shutil.rmtree` on it | an existing `~/.nmstate-mcp` with a configured `inventory.yaml`, and a `~/.cursor/mcp.json` that is not valid JSON: `json.load` raises, and the cleanup deletes the whole directory with the user's inventory | record a directory only when this run created it, so a failed setup never removes what was there before (the step itself takes care never to overwrite an existing inventory) | high, not executed | SetupCursor.SetupAsWrittenDeletesExistingInventory | SetupCursor.SetupKeepsExistingFiles |
