# nb_config_manager in Dafny

A model of nb_config_manager, a Jupyter notebook add-on. Its config manager,
`EnvironmentConfigManager`, stores notebook front-end config with awareness of
the active environment. There are two config directories: the user's
`nbconfig` directory and the environment's (installation-wide) one. At
construction the manager does the following:

- It decides whether to merge at all.
- For the sections `notebook`, `tree` and `editor`, in that order, it merges
  the user's `load_extensions` map into the environment's. User entries win on
  a shared key.
- It writes each merged section back to the environment directory.
- When that write is refused with EACCES, it writes into the user directory
  instead.
- It points `config_dir` at the directory that later reads and writes use.

The installer `install()` switches the notebook server to this manager, or
back. It edits `NotebookApp.config_manager_class` in the
`jupyter_notebook_config` document.

Files:

- `wrappers.dfy`: the `Option` datatype.
- `json.dfy`: JSON values and section documents.
- `store.dfy`: the front-end config store the code works through. It keeps one
  document per (directory, section). `get` reads an absent section as `{}`.
  `update` is a top-level merge and `set` a replace. Each write succeeds or
  fails as the store's fixed `faults` map says. A ghost log records every read
  and every attempted write of the modelled operations (the reads made only for
  printing are left out, see below).
- `env_config.dfy`: the class `EnvironmentConfigManager`. Its fields
  `configDir` and `defaultConfigDir` are reassigned as in the source. Pure
  functions state what each step does (`UpdatedSection`, `RunSections`,
  `ResolvedEnvConfig`, `Constructed`). The class methods are proved equal to
  them, and lemmas state the properties.
- `install.dfy`: `install()` as an imperative method (`Run`) over a local
  `cfg` map. It is proved equal to the pure `Installed`, which is built from
  the document edits `Enabled` and `Disabled`.

Two details of the code are easy to miss; the model follows them:

- A section whose user document has no `load_extensions` is still written back
  to the environment directory with `update`. The write is outside the `if`
  (nb_config_manager/nb_config_manager.py:53-55). An absent environment section
  is therefore created as `{}`.
- The fallback write into the user directory uses `update`, not `set`
  (nb_config_manager/nb_config_manager.py:62).

## Model

| member | source | states |
|---|---|---|
| `EnvironmentConfig.MergeExtensions` | nb_config_manager/nb_config_manager.py:48-49 | the merged extension map has the union of both key sets; every user key carries the user's value; every environment-only key keeps the environment's value |
| `EnvironmentConfig.MergeEnvironment` | nb_config_manager/nb_config_manager.py:36-51 | without user extensions (key missing or null) the environment document is returned unchanged; the merge raises exactly when both sides have the key and one of them is not an object; the environment's other keys never change; a missing environment map becomes exactly the user's; otherwise the map is the merged one |
| `EnvironmentConfig.MergeExtensionsIdempotent` | nb_config_manager/nb_config_manager.py:49 | merging the same user map a second time changes nothing |
| `EnvironmentConfig.UpdatedSection` | nb_config_manager/nb_config_manager.py:30-67 | one section call touches only that section's user and environment documents; it reads the user document first, then the environment one; every logged access is about that section; a raised error names the section and leaves the store unchanged; when nothing is raised, the default directory becomes the user directory exactly when it already was or the environment write was refused with EACCES |
| `EnvironmentConfig.SectionOutcome` | nb_config_manager/nb_config_manager.py:53-67 | once the merge succeeds, the environment write is always attempted with `update`; on success the store holds the merged document and the default is unchanged; any other I/O error is raised; on EACCES the user document, with `load_extensions` set to the environment's merged value (null when there is none), is merge-written to the user directory, which becomes the default, and a failure of that write is raised |
| `EnvironmentConfig.SectionMergeFails` | nb_config_manager/nb_config_manager.py:47-51 | when the in-place `update` of the extension map raises, the call raises a type error naming the section after reading the user and the environment document, writes nothing, and leaves the store and the default directory unchanged |
| `EnvironmentConfig.WriteBackWithoutUserExtensions` | nb_config_manager/nb_config_manager.py:47-55 | with no user extensions and a writable environment, the environment document is written back with its content unchanged and exists afterwards; the accesses are read user, read environment, merge-write environment |
| `EnvironmentConfig.RunSections` | nb_config_manager/nb_config_manager.py:73-76 | a pass over some section names never changes a document of another section; it only appends to the access log, and only about those sections; a raised error names one of them; the default directory ends as it was or as the user directory |
| `EnvironmentConfig.SectionsInOrder` | nb_config_manager/nb_config_manager.py:74-76 | the pass over the three sections is the `notebook`, `tree` and `editor` calls, in that order, each on the previous call's state, stopping at the first that raises |
| `EnvironmentConfig.RunSectionsAppend` | nb_config_manager/nb_config_manager.py:66-76 | a pass over `a + b` is the pass over `a` and then, unless it raised, the pass over `b`; after a raise no later section is read or written |
| `EnvironmentConfig.RunSectionsDefaultDir` | nb_config_manager/nb_config_manager.py:56-76 | after a pass that raised nothing, the default is the user directory if and only if it already was or some processed section's environment write was refused with EACCES; later successful sections never reset it |
| `EnvironmentConfig.ResolvedEnvConfig` | nb_config_manager/nb_config_manager.py:69-80 | without an environment directory nothing is read or written and `configDir` is the user directory; with it but without a user directory, or with user config disabled, nothing is read or written and `configDir` is the current default; after success `configDir` equals the default; only the three sections are ever read or written |
| `EnvironmentConfig.Constructed` | nb_config_manager/nb_config_manager.py:24-28 | without an environment directory the manager uses the user directory; when no merging is done it uses the class default, the environment directory; after any construction that raised nothing, `configDir` equals the default and is one of the two directories |
| `EnvironmentConfig.ConstructedInOrder` | nb_config_manager/nb_config_manager.py:71-80 | construction with both directories present and user config enabled is the `notebook`, `tree` and `editor` calls in order, stopping at the first that raises, followed by `configDir` set to the default |
| `EnvironmentConfig.FinalConfigDir` | nb_config_manager/nb_config_manager.py:69-80 | after a construction that raised nothing, `configDir` is the user or the environment directory; when merging ran, it is the user directory if and only if some section's environment write was refused with EACCES, or the two directories are the same |
| `EnvironmentConfig.WorkedExampleNotebook` | nb_config_manager/nb_config_manager.py:44-55 | user `{foo: true}` merged into environment `{bar: true}` gives `{bar: true, foo: true}` in the environment notebook section |
| `EnvironmentConfig.WorkedExample` | nb_config_manager/nb_config_manager.py:69-80 | with user notebook `{foo}`, environment notebook `{bar}`, an empty environment tree section, no editor section and no write faults: nothing is raised, `configDir` is the environment directory, the environment notebook section holds both extensions, and tree and editor are written back as `{}` |
| `EnvironmentConfig.EnvironmentConfigManager.constructor` | nb_config_manager/nb_config_manager.py:22-24 | the class defaults: `defaultConfigDir` starts at the environment directory |
| `EnvironmentConfig.EnvironmentConfigManager.Get` | nb_config_manager/nb_config_manager.py:36 | reads the section from the directory `configDir` points at and logs the read |
| `EnvironmentConfig.EnvironmentConfigManager.Update` | nb_config_manager/nb_config_manager.py:55 | merge-writes the section into the directory `configDir` points at, or reports the write fault and changes nothing |
| `EnvironmentConfig.EnvironmentConfigManager.UpdateSections` | nb_config_manager/nb_config_manager.py:30-67 | the new store, access log, `configDir`, `defaultConfigDir` and raised error are exactly those of `UpdatedSection` on the old state |
| `EnvironmentConfig.EnvironmentConfigManager.UpdateEnvConfig` | nb_config_manager/nb_config_manager.py:69-80 | the new store, access log, both directory fields and raised error are exactly those of `ResolvedEnvConfig` on the old state |
| `EnvironmentConfig.NewEnvironmentConfigManager` | nb_config_manager/nb_config_manager.py:26-28 | a fresh manager with the given directories and flag, whose state and raised error are exactly `Constructed` from the store's old contents |
| `Store.Merged` | nb_config_manager/nb_config_manager.py:55 | `update` stores a document with the union of the stored and the given keys; given keys take the given values and the other stored keys keep theirs; no other document changes |
| `Store.Replaced` | nb_config_manager/install.py:65 | `set` stores exactly the given document; no other document changes |
| `Store.MergedCovering` | nb_config_manager/install.py:44 | merge-writing a document that has every key of the stored one leaves exactly that document stored |
| `Store.DocumentStore.Get` | nb_config_manager/nb_config_manager.py:44 | reads a section (absent means `{}`) and logs the read |
| `Store.DocumentStore.Update` | nb_config_manager/nb_config_manager.py:62 | merge-writes unless the store's faults refuse the write, which is reported and changes nothing; logs the attempt |
| `Store.DocumentStore.Set` | nb_config_manager/install.py:65 | replace-writes unless refused, which is reported and changes nothing; logs the attempt |
| `Install.InstallPath` | nb_config_manager/install.py:26-32 | with a prefix the path is `join(prefix, "etc", "jupyter")`: the prefix, a `/` unless the prefix is empty or already ends in one, then `etc/jupyter`; so it starts with the prefix and ends in `etc/jupyter`; without a prefix it is the user's Jupyter config directory; enable (:26-32) and disable (:49-52) use the same choice |
| `Install.HasSubstringOccurs` | nb_config_manager/install.py:41 | the left-to-right scan finds `t` in `s` exactly when `t` occurs at some index of `s` |
| `Install.Contains` | nb_config_manager/install.py:41 | Python's `in`: a key test on an object, an occurrence of the key at some index of a string, an element test on a list, and a type error (None) on null, booleans and numbers |
| `Install.Enabled` | nb_config_manager/install.py:40-42 | enable succeeds exactly when `NotebookApp` is missing, is an object, or already "contains" the key in Python's sense; `NotebookApp` exists afterwards; no other top-level key changes; an existing `config_manager_class` is never overwritten; otherwise it is set to this package's class beside the existing `NotebookApp` settings |
| `Install.Disabled` | nb_config_manager/install.py:60-63 | disable succeeds exactly when `NotebookApp` is an object holding `config_manager_class`; a missing `NotebookApp` or `config_manager_class` raises a key error, a non-object `NotebookApp` a type error; `config_manager_class` is removed only when it names this package's class, and otherwise the document is unchanged; no other key changes |
| `Install.EnableIdempotent` | nb_config_manager/install.py:40-42 | enabling twice gives the same document as enabling once |
| `Install.EnableThenDisable` | nb_config_manager/install.py:40-63 | when the setting was absent, disable after enable restores the document, except that an empty `NotebookApp` remains where there was none |
| `Install.EnableStep` | nb_config_manager/install.py:36-44 | enable reads the document and only that document can change; a failed edit raises a type error after the read; otherwise `update` is attempted and a write fault is raised; nothing is raised exactly when the edit and the write succeed, and a raise leaves the store unchanged |
| `Install.EnableStepStores` | nb_config_manager/install.py:36-44 | a successful enable stores exactly the edited document through `update`, after one read |
| `Install.DisableStep` | nb_config_manager/install.py:56-65 | disable reads the document and only that document can change; a failed edit raises its key or type error after the read; otherwise `set` is attempted and a write fault is raised; nothing is raised exactly when the edit and the write succeed, and a raise leaves the store unchanged |
| `Install.DisableStepStores` | nb_config_manager/install.py:56-65 | a successful disable stores exactly the edited document through `set`, after one read, so a removed key is gone from the store |
| `Install.Installed` | nb_config_manager/install.py:25-65 | with neither flag nothing happens; only the `jupyter_notebook_config` document on the install path can change |
| `Install.InstalledBoth` | nb_config_manager/install.py:25-65 | with both flags, an install that raised nothing enabled and then disabled the document on the install path: both edits succeeded, the store holds the disabled form of the enabled document, and the log is read, `update`, read, `set`, all on that path |
| `Install.InstalledLog` | nb_config_manager/install.py:25-65 | the log keeps its earlier entries and grows by at most four, every new entry being a read or write of the document on the install path |
| `Install.InstallEnableDisable` | nb_config_manager/install.py:25-65 | with both flags, enable runs before disable in the same directory: read, `update`, read, `set` (the reads made for printing are not logged); a document without the setting comes back as it was, plus an empty `NotebookApp` |
| `Install.Run` | nb_config_manager/install.py:13-65 | the new store, access log and raised error are exactly those of `Installed`: enable, then disable unless enable raised, both on `InstallPath` |

## Left out

- The notebook `ConfigManager` base class and its JSON file I/O are not part of this model. `get`, `update` and `set` are abstract. `update` is a top-level merge: the base class's recursive merge, and its rule that a `None` value deletes a key, are not modelled.
- Reads never fail: a malformed JSON file, which would make `get` raise, is not modelled.
- `jupyter_core.paths` (`jupyter_config_dir`, `ENV_CONFIG_PATH`) and `os.path.exists` are inputs. The two directories are constructor parameters and their existence is two booleans given to `UpdateEnvConfig`.
- The traitlets option `disable_user_config` is a plain constructor argument.
- `errno` values are reduced to EACCES (`PermissionDenied`) and everything else (`OtherIOError`). Whether a write fails is a fixed map per (directory, section), not a live file system.
- The base class's initial `config_dir` is taken to be the user directory. Every path overwrites it before any use.
- `MergeEnvironment`: a user `load_extensions` that is not an object is treated as raising when the environment has a map. Python's `dict.update` would accept an iterable of key/value pairs, such as an empty string or list, or a list of two-element lists; that is not modelled.
- At :51 the environment document and the user document share one dict object. Nothing mutates it afterwards, so the model copies values instead.
- `print`, `pprint`, `os.makedirs` (install.py:29-30) and the argparse `__main__` block (install.py:69-86) are console and file-system I/O and are left out. So is the creation of `ConfigManager` objects in `install`. The `cm.get` inside each `pprint` (install.py:46 and :67) is a store read that the log does not record: with both flags the source's sequence is read, update, read, read, set, read, while the model logs read, update, read, set.
- `Install.Join` models `os.path.join` only for the relative parts `etc` and `jupyter` that the installer passes.
- Concurrency between processes sharing the environment directory is left out.
