# Containerd runtime installer, modelled in Dafny

The installer copies a containerd shim binary into a host directory,
registers it as a runtime in containerd's CRI configuration file, and asks
systemd to restart containerd. This project models the three parts of
`main.go` that carry the logic:

- **The configuration patcher** (`updateConfig`), in `config.dfy`, module
  `Config`. The decoded TOML document is a tree of tables, arrays and
  scalars. A patch walks the fixed table path
  `plugins."io.containerd.grpc.v1.cri".containerd.runtimes` and creates any
  table that is missing. It stores `runtimes[name] = {runtime_type = T}`
  and puts every level back into its parent. `Config.UpdateConfig` is the
  imperative walk, written as the source writes it. It is proved equal to
  the recursive path update `Config.Patch`, and the properties are proved
  about `Patch`.
- **The runtime type name** (the expression at main.go:92), in
  `runtime_type.dfy`, module `RuntimeType`. The first `containerd-shim-`
  of the binary's base name becomes `io.containerd.`, then every `-`
  becomes `.`.
- **The install sequence and its reload outcome** (`install`), in
  `installer.dfy` and `install_properties.dfy`.
  - `Installer.Exec` is a step machine over the sixteen calls `install`
    makes, in source order (`Installer.Plan`). Each step can fail, and a
    failure returns at once with the step and the reason.
  - The host is a map from path to (content, mode), a set of directories,
    and a journal of the mutations made, in order.
  - `Installer.Host` is a class holding that state. Its methods make the
    calls one at a time with early returns, as `install` does.
    `Installer.Host.Install` is proved to end in exactly the state, and
    with exactly the error, that the step machine gives.
  - Module `InstallProperties` proves the following of the step machine:
    - which destinations each early return leaves untouched;
    - when an install succeeds, and what it leaves behind;
    - the order of the mutations;
    - how the final `select` decides the outcome.

`outcomes.dfy` holds the `Option` and `Result` types.

Inputs the model does not compute are parameters, gathered in the `Env`
datatype:
- which operating-system or D-Bus calls fail (`faults`);
- the temporary names the system picks;
- the TOML decoder and encoder;
- the event that reaches the final `select` first: cancellation, or a job
  status.

Two behaviours of the code, which the model follows:

- After the rename, the configuration file has the temporary file's mode
  0600. The code does not preserve the old file's permissions.
- A reload has three outcomes: "done", another status, and cancellation.
  The code has no timeout.

## Model

| member | source | states |
|---|---|---|
| Config.UpdateConfig | main.go:138-185 | A decode failure returns the parse error. Otherwise the result is the path update `Patch` of the decoded document, including the type error for a non-table on the path. |
| Config.PutAt | main.go:145-182 | Definition: descend key by key, taking an absent key as an empty table and failing with TypeMismatch on a non-table; store the value under the last key, and put each level back into its parent. |
| Config.Patch | main.go:145-182 | Definition: the path update along plugins, io.containerd.grpc.v1.cri, containerd, runtimes, storing the table {runtime_type = T} under the runtime's name. |
| Config.PutAtOkIffWalkable | main.go:145-171 | The path update succeeds exactly when every key of the path that is present holds a table. |
| Config.WalkableIffNoConflict | main.go:145-171 | The path is walkable exactly when no level has a non-table under its key. |
| Config.PutAtReportsFirstConflict | main.go:145-171 | A failed update reports the first key on the path whose value is not a table. |
| Config.PutAtIntoEmpty | main.go:145-182 | Updating an empty table creates the whole chain of tables, holding only the new value. |
| Config.PutAtStores | main.go:173-182 | After an update, the value is found at the end of the path. |
| Config.PutAtKeepsSibling | main.go:173-182 | After an update, every key at every level of the path, other than the next key on the path, keeps its value. |
| Config.PutAtOverwrites | main.go:173 | A second update of the same key replaces the first. The result is as if only the second had been made. |
| Config.PutAtCommutes | main.go:173-182 | Updates of two different keys under one path commute. |
| Config.PatchSucceedsIff | main.go:145-171 | A patch succeeds exactly when none of the four keys plugins, io.containerd.grpc.v1.cri, containerd, runtimes holds a non-table. |
| Config.PatchRejectsConflict | main.go:147-168 | A failed patch produces no document. It reports TypeMismatch for the first of the four keys holding a non-table. |
| Config.PatchInstallsEntry | main.go:173-177 | After a patch, runtimes[name] is a table whose only field is runtime_type = the given type. |
| Config.PatchKeepsUnrelated | main.go:146-182 | Top-level keys other than plugins, siblings at each level of the path, and every other runtime entry are unchanged. |
| Config.PatchKeepsTopLevel | main.go:179-182 | Every top-level key other than plugins is present exactly when it was before, with the same value. |
| Config.PatchEmptyDocument | main.go:145-182 | Patching an empty document gives exactly the single nested path holding the one runtime entry. |
| Config.PatchIdempotent | main.go:173 | Patching twice with the same name and type gives the same document as patching once. |
| Config.PatchLastWriteWins | main.go:173 | Re-registering a name with another type gives the same document as a single patch with the later type. That patch succeeds, and the entry holds the later type. |
| Config.PatchCommutes | main.go:173-182 | Registering two different runtimes gives the same document in either order. |
| RuntimeType.ReplaceFirst | main.go:92 | Definition of strings.Replace with count 1: the first occurrence of the pattern, scanning from the left, is replaced; an empty pattern matches at the start. |
| RuntimeType.RuntimeTypeOf | main.go:92 | Definition: the first containerd-shim- becomes io.containerd., then every '-' becomes '.'. |
| RuntimeType.Base | main.go:69 | Definition of filepath.Base as used here: the text after the last '/'. |
| RuntimeType.ReplaceEvery | main.go:92 | Every '-' becomes '.', position by position; nothing else changes and the length is kept. |
| RuntimeType.ReplaceFirstNoMatch | main.go:92 | With no occurrence of the pattern, the first-occurrence replacement changes nothing. |
| RuntimeType.ReplaceFirstAt | main.go:92 | With the first occurrence at i, the replacement splices the new text in at i and leaves the rest as it was. |
| RuntimeType.RuntimeTypeHasNoDash | main.go:92 | The derived runtime type never contains '-'. |
| RuntimeType.RuntimeTypeWithoutMarker | main.go:92 | A base name without containerd-shim- gives the name with every '-' replaced by '.'. |
| RuntimeType.RuntimeTypeAtMarker | main.go:92 | With the first containerd-shim- at i, the type is the dotted text before i, then io.containerd., then the dotted rest. |
| RuntimeType.RuntimeTypeOfShim | main.go:92 | containerd-shim- followed by a rest gives io.containerd. followed by the rest with '-' made '.'. |
| RuntimeType.RuntimeTypeOfRuncV2 | main.go:92 | containerd-shim-runc-v2 registers as io.containerd.runc.v2. |
| RuntimeType.BaseIsLastComponent | main.go:69 | The base name has no '/', is a suffix of the path, and is either the whole path or preceded by a '/'. |
| RuntimeType.BaseOfJoin | main.go:69 | The base of prefix + "/" + file is the file, for a file name without '/'. |
| Installer.ReloadOutcome | main.go:118-126 | "done" is success. Any other status is an error carrying that status. Cancellation is the cancellation error. |
| Installer.Moved | main.go:69-71 | Definition of os.Rename on the file map: the destination gets the source's file and the source is gone; renaming onto itself changes nothing. |
| Installer.PatchedConfig | main.go:92-96 | Definition: decode the configuration text, patch it with the runtime's name and the type derived from the binary's base name, encode it; a decode or patch failure is the error. |
| Installer.Exec | main.go:36-129 | Definition: run steps in order from a machine state, stopping at the first step that fails with its error; `Installer.Plan` lists install's sixteen calls in source order. |
| Installer.InstallSpec | main.go:36-129 | Definition: the run of `Installer.Plan` from the given files and directories with an empty journal. |
| Installer.StepOf | main.go:36-129 | A failing step reports itself as the step that failed. |
| Installer.ExecAppend | main.go:36-129 | Running a + b is running a, then b unless a stopped with an error. |
| Installer.RenderConfig | main.go:92-96 | The patched bytes are the decoded text, patched with the name and the derived type, then re-encoded. A decode or patch failure is the error. |
| Installer.Host.Stat | main.go:37-39 | Fails on a missing path or an injected fault. Changes nothing. |
| Installer.Host.Mkdir | main.go:40-47 | Adds the directory and journals it, or fails changing nothing. |
| Installer.Host.CreateTemp | main.go:50-53 | Creates an empty 0600 file and journals it, or fails changing nothing. |
| Installer.Host.Open | main.go:59-62 | Fails on a missing path or a fault. Otherwise gives the file's content. |
| Installer.Host.Write | main.go:64-66 | Sets the file's content and keeps its mode, and journals it, or fails changing nothing. |
| Installer.Host.Rename | main.go:69-71 | Moves the source file to the destination and journals it, or fails changing nothing. |
| Installer.Host.Chmod | main.go:73-75 | Sets the file's mode and journals it, or fails on a missing path or a fault. |
| Installer.Host.RestartUnit | main.go:112-116 | Journals the restart request for the unit and job mode, or fails. Files and directories stay as they were. |
| Installer.Host.Prepare | main.go:37-48 | The host ends as the step machine's run of the stat and the two mkdirs says, with the same error. |
| Installer.Host.StageBinary | main.go:50-67 | The same, for create-temp, open and copy of the binary. |
| Installer.Host.PublishBinary | main.go:69-75 | The same, for rename to prefix + "/" + base and chmod 0755. |
| Installer.Host.OpenConfigFiles | main.go:77-90 | The same, for create-temp of the config and open of the real config; it also returns the bytes read. |
| Installer.Host.PatchStaged | main.go:92-96 | The same, for the patch; the host is not changed. It fails exactly when decoding or patching fails, with that error, and otherwise returns the patched, re-encoded bytes. |
| Installer.Host.WriteStaged | main.go:98-100 | The same, for the write of the patched configuration to the temporary file. |
| Installer.Host.StageConfig | main.go:77-100 | The same, for the four configuration-staging steps. |
| Installer.Host.PublishConfig | main.go:102-104 | The same, for the rename of the staged configuration. |
| Installer.Host.Reload | main.go:106-126 | The same, for connect, restart request and the select. |
| Installer.Host.Install | main.go:36-129 | install ends with the files, directories, journal and error of the step machine's run of the whole plan. |
| InstallProperties.PlanInPhases | main.go:36-129 | The whole run is the six phases chained, each running only if the one before went through. |
| InstallProperties.ExecFrame | main.go:36-129 | A run leaves every file outside its steps' footprints alone, wherever it stops. |
| InstallProperties.ExecErrStep | main.go:36-129 | An error always comes from one of the steps run. |
| InstallProperties.PrepareEffect | main.go:37-48 | No file changes. Success exactly when the binary exists and no call fails; then both directories exist. |
| InstallProperties.StageBinaryEffect | main.go:50-67 | Only the temporary binary is touched. Success exactly when no call fails; then it is a 0600 copy of the source. |
| InstallProperties.PublishBinaryEffect | main.go:69-75 | A failed rename changes nothing. Otherwise the destination holds the staged bytes: mode 0755, or the staged file's own mode (0600 in install) if chmod fails. Nothing else is touched. |
| InstallProperties.OpenConfigEffect | main.go:77-90 | An empty 0600 temporary file is created and the configuration's bytes are read. Fails exactly on a fault or a missing configuration. |
| InstallProperties.WriteStagedEffect | main.go:92-100 | The bytes read are patched and written to the temporary file. Fails exactly on a patch error or a write fault. |
| InstallProperties.StageConfigEffect | main.go:77-100 | Only the temporary config is touched. Success exactly when the config exists and patches and no call fails; then the file holds the patched bytes, mode 0600. |
| InstallProperties.PublishConfigEffect | main.go:102-104 | The staged file replaces the configuration, or a failed rename changes nothing. |
| InstallProperties.ReloadEffect | main.go:106-126 | No file changes. Success exactly when connect and restart succeed and the status is "done". |
| InstallProperties.FailureBefore | main.go:36-129 | A run that stops at or before a step leaves every file untouched by the steps before it. |
| InstallProperties.BinaryHalfEffect | main.go:37-75 | Success exactly when the binary exists and no call fails. Then only the destination (the source's bytes, mode 0755) and the temporary binary change. |
| InstallProperties.ConfigHalfEffect | main.go:77-104 | On success the configuration holds the patched bytes with mode 0600 and the temporary file is gone. On failure the configuration is unchanged. |
| InstallProperties.EarlyFailureKeepsDestinations | main.go:37-71 | A failure up to and including the binary rename leaves both the destination binary and the configuration unchanged. |
| InstallProperties.ChmodFailureKeepsConfig | main.go:73-75 | A failed chmod leaves the binary installed with mode 0600 and the configuration unchanged. |
| InstallProperties.ConfigFailureKeepsConfig | main.go:77-104 | A failure while creating, opening, patching, writing or renaming the configuration leaves the binary installed with 0755 and the configuration unchanged. |
| InstallProperties.ConfigPublished | main.go:102-126 | Once install gets past the config rename, the configuration holds the patched bytes and the binary is installed with 0755. |
| InstallProperties.ConfigChangesOnlyAfterBinary | main.go:69-104 | The configuration changes only if the binary is installed with mode 0755 and the configuration rename went through. |
| InstallProperties.InstallSucceedsIff | main.go:36-129 | install returns nil exactly when: the binary and the configuration exist, no call fails, the configuration decodes and patches, and the restart reports "done". |
| InstallProperties.InstallSuccessState | main.go:36-129 | After success: the destination holds the source's bytes with 0755, the configuration holds the patched bytes with 0600, both temporary files are gone, and every other file is unchanged. The install directory exists; the model still lists the temporary directory, which the code's deferred cleanup removes. |
| InstallProperties.InstallTouchesOnly | main.go:36-116 | No file other than the two temporary files, the destination and the configuration ever changes. |
| InstallProperties.StepJournal | main.go:36-116 | A step that goes through appends its own mutation to the journal and nothing else. |
| InstallProperties.ExecJournal | main.go:36-116 | A run only appends to the journal. What it appends is a prefix of its steps' events, and all of them on success. |
| InstallProperties.EventsOfAppend | main.go:36-116 | The events of a + b are those of a followed by those of b. |
| InstallProperties.PlanEvents | main.go:36-116 | The plan's events are the full mutation sequence, in source order. |
| InstallProperties.InstallJournal | main.go:36-116 | The host sees a prefix of: mkdir prefix, mkdir temp, create, copy, rename, chmod 0755 of the binary; create, write, rename of the config; restart. It sees all of it on success. |
| InstallProperties.ReloadDecides | main.go:118-126 | Once the restart is requested, it is the last mutation and nothing further changes. "done" succeeds, another status errs with it, and cancellation gives the cancellation error. Waiting fails only after the request. |

## Left out

- TOML decoding and encoding (go-toml) are inputs to `Env`, a decoder `Bytes -> Option<Document>` and an encoder. A decode failure is the `ParseError` result. A failure of `toml.Marshal` is not modelled, and no parse/serialise round trip is claimed.
- The decoder always yields a table. If go-toml leaves the decoded map nil for an empty file, the store into it at main.go:182 panics in the code; the model cannot express that case, and `Config.PatchEmptyDocument` speaks of an empty table.
- The Go type assertions at main.go:147, 154, 161 and 168 panic on a value that is not a table. The model returns `TypeMismatch(key)` instead and produces no document.
- The anonymous struct stored at main.go:173-177 is modelled as the table it encodes to, `{runtime_type = T}`.
- The systemd D-Bus connection and `RestartUnitContext` (main.go:106-116) are two steps. Each either fails (an injected fault) or succeeds, and the request is recorded in the journal.
- The `select` race and the signal wiring are not modelled as concurrency. The event that arrives first is an input.
- Real operating-system semantics are abstract steps that succeed or fail: `MkdirTemp`, `CreateTemp`, `io.Copy`, the atomicity of `Rename`, file descriptors and `Close`. The temporary names are inputs. The theorems about the whole install assume (predicate `InstallProperties.Apart`) that those names are distinct from the binary, the destination, the configuration and each other, and that the destination is not the configuration file. `MkdirAll` does not check that parent directories exist.
- The deferred cleanup (`os.RemoveAll` of the temporary directory, removing the temporary files) is not modelled. After a failure the model still holds the temporary files, and after a success it still lists the temporary directory, which the code removes on every return.
- `filepath.Base` is "the text after the last '/'". Its trailing-slash, empty-path and "." cases are not modelled.
- `filepath.Dir(criConfig)` only places the temporary configuration. The name itself is an input.
- The error messages and `%w` wrapping are not modelled. An error is the step that failed plus a reason.
- `main`, flag parsing and `envOrDefault` (main.go:18-34, 131-136) are not modelled.
- Modes are plain numbers: 0600 for a fresh temporary file and 0755 for the installed binary. No other permission bits are modelled, and the configuration's old permissions are not preserved, as in the code.
