/** The installer of nb_config_manager: it switches the notebook server's
    `NotebookApp.config_manager_class` setting to EnvironmentConfigManager
    (enable) or back (disable), in the `jupyter_notebook_config` document of
    either `<prefix>/etc/jupyter` or the user's Jupyter config directory. */
module Install {
  import opened Wrappers
  import opened Json
  import opened Store

  const MANAGER_CLASS: string := "nb_config_manager.EnvironmentConfigManager"
  const NOTEBOOK_APP: string := "NotebookApp"
  const CONFIG_MANAGER_CLASS: string := "config_manager_class"
  const NOTEBOOK_CONFIG: string := "jupyter_notebook_config"

  /** What `install` can raise. */
  datatype InstallError =
    | KeyError(key: string)
    | TypeError
    | WriteFailed(dir: Path, fault: WriteFault)

  datatype Result<T> = Success(value: T) | Failure(error: InstallError)

  /** `os.path.join(base, part)` for a relative `part`: a separator is added
      unless `base` is empty or already ends in one. */
  function Join(base: Path, part: string): Path
  {
    if base == "" || base[|base| - 1] == '/' then base + part else base + "/" + part
  }

  /** The directory whose `jupyter_notebook_config` is edited, for enable and
      disable alike: `<prefix>/etc/jupyter` when a prefix is given, otherwise
      the user's Jupyter config directory. */
  function InstallPath(prefix: Option<Path>, jupyterConfigDir: Path): (p: Path)
    ensures prefix.None? ==> p == jupyterConfigDir
    // `join(prefix, "etc", "jupyter")`: a separator after the prefix unless it
    // is empty or already ends in one
    ensures prefix.Some? ==>
              p == (if prefix.value == "" || prefix.value[|prefix.value| - 1] == '/' then prefix.value
                    else prefix.value + "/") + "etc/jupyter"
    ensures prefix.Some? ==>
              && |prefix.value| + |"etc/jupyter"| <= |p|
              && p[..|prefix.value|] == prefix.value
              && p[|p| - |"etc/jupyter"|..] == "etc/jupyter"
  {
    match prefix
    case None => jupyterConfigDir
    case Some(dir) =>
      var base := if dir == "" || dir[|dir| - 1] == '/' then dir else dir + "/";
      assert base[..|dir|] == dir;
      assert Join(dir, "etc") == base + "etc";
      assert (base + "etc") + "/jupyter" == base + "etc/jupyter";
      var p := Join(Join(dir, "etc"), "jupyter");
      assert p == base + "etc/jupyter";
      p
  }

  /** `t` occurs in `s` at some position. */
  predicate HasSubstring(s: string, t: string)
    decreases |s|
  {
    |t| <= |s| && (s[..|t|] == t || HasSubstring(s[1..], t))
  }

  /** `t` occurs in `s` starting at index `i`. */
  predicate OccursAt(s: string, t: string, i: int)
  {
    0 <= i && i + |t| <= |s| && s[i..i + |t|] == t
  }

  /** The scan of HasSubstring finds `t` exactly when it occurs at some index. */
  lemma {:induction false} HasSubstringOccurs(s: string, t: string)
    ensures HasSubstring(s, t) <==> exists i :: OccursAt(s, t, i)
    decreases |s|
  {
    if |t| <= |s| {
      if s[..|t|] == t {
        assert OccursAt(s, t, 0);
      } else if |s| > 0 {
        HasSubstringOccurs(s[1..], t);
        if HasSubstring(s[1..], t) {
          var j :| OccursAt(s[1..], t, j);
          assert s[1..][j..j + |t|] == s[j + 1..j + 1 + |t|];
          assert OccursAt(s, t, j + 1);
        }
        if exists i :: OccursAt(s, t, i) {
          var i :| OccursAt(s, t, i);
          assert i != 0;
          assert s[1..][i - 1..i - 1 + |t|] == s[i..i + |t|];
          assert OccursAt(s[1..], t, i - 1);
        }
      }
    }
  }

  /** Python's `key in v`: a key test on an object, a substring test on a
      string, an element test on a list; on anything else it raises TypeError
      (None here). */
  function Contains(v: Value, key: string): (r: Option<bool>)
    ensures r.None? <==> !(v.Object? || v.Str? || v.List?)
    ensures v.Object? ==> r == Some(key in v.fields)
    ensures v.Str? ==> r == Some(exists i :: OccursAt(v.s, key, i))
    ensures v.List? ==> r == Some(Str(key) in v.items)
  {
    match v
    case Object(fields) => Some(key in fields)
    case Str(s) => HasSubstringOccurs(s, key); Some(HasSubstring(s, key))
    case List(items) => Some(Str(key) in items)
    case _ => None
  }

  /** The document edit of `install(enable=True)`: `NotebookApp` is created
      when missing, and `config_manager_class` is set to this package's class
      only when it is absent. None is the TypeError raised when `NotebookApp`
      holds something that cannot take the key. */
  function Enabled(cfg: Document): (r: Option<Document>)
    ensures r.Some? <==>
              || NOTEBOOK_APP !in cfg
              || cfg[NOTEBOOK_APP].Object?
              || Contains(cfg[NOTEBOOK_APP], CONFIG_MANAGER_CLASS) == Some(true)
    ensures r.Some? ==> r.value.Keys == cfg.Keys + {NOTEBOOK_APP}
    ensures r.Some? ==> forall key :: key in cfg && key != NOTEBOOK_APP ==> r.value[key] == cfg[key]
    // an existing setting is never overwritten
    ensures NOTEBOOK_APP in cfg && Contains(cfg[NOTEBOOK_APP], CONFIG_MANAGER_CLASS) == Some(true) ==> r == Some(cfg)
    // otherwise the setting is added, next to the existing NotebookApp settings
    ensures r.Some? && !(NOTEBOOK_APP in cfg && Contains(cfg[NOTEBOOK_APP], CONFIG_MANAGER_CLASS) == Some(true)) ==>
              var app := if NOTEBOOK_APP in cfg then cfg[NOTEBOOK_APP].fields else map[];
              && r.value[NOTEBOOK_APP].Object?
              && r.value[NOTEBOOK_APP].fields.Keys == app.Keys + {CONFIG_MANAGER_CLASS}
              && r.value[NOTEBOOK_APP].fields[CONFIG_MANAGER_CLASS] == Str(MANAGER_CLASS)
              && forall key :: key in app ==> r.value[NOTEBOOK_APP].fields[key] == app[key]
  {
    var cfg := if NOTEBOOK_APP in cfg then cfg else cfg[NOTEBOOK_APP := Object(map[])];
    var app := cfg[NOTEBOOK_APP];
    match Contains(app, CONFIG_MANAGER_CLASS)
    case None => None
    case Some(true) => Some(cfg)
    case Some(false) =>
      if app.Object? then Some(cfg[NOTEBOOK_APP := Object(app.fields[CONFIG_MANAGER_CLASS := Str(MANAGER_CLASS)])])
      else None
  }

  /** The document edit of `install(disable=True)`: `config_manager_class` is
      removed only when it names this package's class; reading it raises when
      it or `NotebookApp` is missing. */
  function Disabled(cfg: Document): (r: Result<Document>)
    ensures NOTEBOOK_APP !in cfg ==> r == Failure(KeyError(NOTEBOOK_APP))
    ensures NOTEBOOK_APP in cfg && !cfg[NOTEBOOK_APP].Object? ==> r == Failure(TypeError)
    ensures NOTEBOOK_APP in cfg && cfg[NOTEBOOK_APP].Object? && CONFIG_MANAGER_CLASS !in cfg[NOTEBOOK_APP].fields ==>
              r == Failure(KeyError(CONFIG_MANAGER_CLASS))
    ensures r.Success? <==>
              NOTEBOOK_APP in cfg && cfg[NOTEBOOK_APP].Object? && CONFIG_MANAGER_CLASS in cfg[NOTEBOOK_APP].fields
    ensures r.Success? ==>
              var app := cfg[NOTEBOOK_APP].fields;
              && r.value.Keys == cfg.Keys
              && (forall key :: key in cfg && key != NOTEBOOK_APP ==> r.value[key] == cfg[key])
              && (app[CONFIG_MANAGER_CLASS] != Str(MANAGER_CLASS) ==> r.value == cfg)
              && (app[CONFIG_MANAGER_CLASS] == Str(MANAGER_CLASS) ==>
                    && r.value[NOTEBOOK_APP].Object?
                    && r.value[NOTEBOOK_APP].fields.Keys == app.Keys - {CONFIG_MANAGER_CLASS}
                    && forall key :: key in app && key != CONFIG_MANAGER_CLASS ==> r.value[NOTEBOOK_APP].fields[key] == app[key])
  {
    if NOTEBOOK_APP !in cfg then Failure(KeyError(NOTEBOOK_APP))
    else match cfg[NOTEBOOK_APP]
      case Object(app) =>
        if CONFIG_MANAGER_CLASS !in app then Failure(KeyError(CONFIG_MANAGER_CLASS))
        else if app[CONFIG_MANAGER_CLASS] == Str(MANAGER_CLASS) then
          Success(cfg[NOTEBOOK_APP := Object(app - {CONFIG_MANAGER_CLASS})])
        else Success(cfg)
      case _ => Failure(TypeError)
  }

  /** The store after an install call, and the error it raised, if any. */
  datatype Outcome = Outcome(docs: Docs, accesses: seq<Access>, raised: Option<InstallError>)

  /** The enable half: read, edit, merge-write. */
  function EnableStep(docs: Docs, accesses: seq<Access>, faults: map<Key, WriteFault>, path: Path): (r: Outcome)
    // only the edited document can change, and only when nothing is raised
    ensures forall k: Key :: k != (path, NOTEBOOK_CONFIG) ==> SameAt(docs, r.docs, k)
    ensures r.raised.Some? ==> r.docs == docs
    ensures r.raised.None? <==> Enabled(Lookup(docs, path, NOTEBOOK_CONFIG)).Some? && FaultAt(faults, path, NOTEBOOK_CONFIG).None?
    // a failed edit raises TypeError after the read; otherwise the merge-write is attempted
    ensures Enabled(Lookup(docs, path, NOTEBOOK_CONFIG)).None? ==>
              r.raised == Some(TypeError) && r.accesses == accesses + [Read(path, NOTEBOOK_CONFIG)]
    ensures Enabled(Lookup(docs, path, NOTEBOOK_CONFIG)).Some? ==>
              && r.accesses == accesses + [Read(path, NOTEBOOK_CONFIG), Write(path, NOTEBOOK_CONFIG, MergeWrite)]
              && (FaultAt(faults, path, NOTEBOOK_CONFIG).Some? ==>
                    r.raised == Some(WriteFailed(path, FaultAt(faults, path, NOTEBOOK_CONFIG).value)))
  {
    var read := accesses + [Read(path, NOTEBOOK_CONFIG)];
    match Enabled(Lookup(docs, path, NOTEBOOK_CONFIG))
    case None => Outcome(docs, read, Some(TypeError))
    case Some(cfg) =>
      var written := read + [Write(path, NOTEBOOK_CONFIG, MergeWrite)];
      match FaultAt(faults, path, NOTEBOOK_CONFIG)
      case None => Outcome(Merged(docs, path, NOTEBOOK_CONFIG, cfg), written, None)
      case Some(fault) => Outcome(docs, written, Some(WriteFailed(path, fault)))
  }

  /** The disable half: read, edit, replace-write. */
  function DisableStep(docs: Docs, accesses: seq<Access>, faults: map<Key, WriteFault>, path: Path): (r: Outcome)
    // only the edited document can change, and only when nothing is raised
    ensures forall k: Key :: k != (path, NOTEBOOK_CONFIG) ==> SameAt(docs, r.docs, k)
    ensures r.raised.Some? ==> r.docs == docs
    ensures r.raised.None? <==> Disabled(Lookup(docs, path, NOTEBOOK_CONFIG)).Success? && FaultAt(faults, path, NOTEBOOK_CONFIG).None?
    // a failed edit raises its error after the read; otherwise the replace-write is attempted
    ensures Disabled(Lookup(docs, path, NOTEBOOK_CONFIG)).Failure? ==>
              && r.raised == Some(Disabled(Lookup(docs, path, NOTEBOOK_CONFIG)).error)
              && r.accesses == accesses + [Read(path, NOTEBOOK_CONFIG)]
    ensures Disabled(Lookup(docs, path, NOTEBOOK_CONFIG)).Success? ==>
              && r.accesses == accesses + [Read(path, NOTEBOOK_CONFIG), Write(path, NOTEBOOK_CONFIG, ReplaceWrite)]
              && (FaultAt(faults, path, NOTEBOOK_CONFIG).Some? ==>
                    r.raised == Some(WriteFailed(path, FaultAt(faults, path, NOTEBOOK_CONFIG).value)))
  {
    var read := accesses + [Read(path, NOTEBOOK_CONFIG)];
    match Disabled(Lookup(docs, path, NOTEBOOK_CONFIG))
    case Failure(e) => Outcome(docs, read, Some(e))
    case Success(cfg) =>
      var written := read + [Write(path, NOTEBOOK_CONFIG, ReplaceWrite)];
      match FaultAt(faults, path, NOTEBOOK_CONFIG)
      case None => Outcome(Replaced(docs, path, NOTEBOOK_CONFIG, cfg), written, None)
      case Some(fault) => Outcome(docs, written, Some(WriteFailed(path, fault)))
  }

  /** `install(enable, disable, prefix)`: the enable step, then, unless it
      raised, the disable step, both on the same directory. */
  function Installed(docs: Docs, accesses: seq<Access>, faults: map<Key, WriteFault>,
                     enable: bool, disable: bool, prefix: Option<Path>, jupyterConfigDir: Path): (r: Outcome)
    // with neither flag nothing happens
    ensures !enable && !disable ==> r == Outcome(docs, accesses, None)
    // only the one document on the install path can change
    ensures forall k: Key :: k != (InstallPath(prefix, jupyterConfigDir), NOTEBOOK_CONFIG) ==> SameAt(docs, r.docs, k)
  {
    var path := InstallPath(prefix, jupyterConfigDir);
    var enabled := if enable then EnableStep(docs, accesses, faults, path) else Outcome(docs, accesses, None);
    if enabled.raised.Some? || !disable then enabled
    else
      DisableStep(enabled.docs, enabled.accesses, faults, path)
  }

  /** An install call reads and writes only the one document on the install
      path, at most a read and a write per half, after the earlier log. */
  lemma InstalledLog(docs: Docs, accesses: seq<Access>, faults: map<Key, WriteFault>,
                     enable: bool, disable: bool, prefix: Option<Path>, jupyterConfigDir: Path)
    ensures var path := InstallPath(prefix, jupyterConfigDir);
            var r := Installed(docs, accesses, faults, enable, disable, prefix, jupyterConfigDir);
            && |accesses| <= |r.accesses| <= |accesses| + 4 && r.accesses[..|accesses|] == accesses
            && forall i :: |accesses| <= i < |r.accesses| ==> r.accesses[i].dir == path && r.accesses[i].section == NOTEBOOK_CONFIG
  {
    var path := InstallPath(prefix, jupyterConfigDir);
    var enabled := if enable then EnableStep(docs, accesses, faults, path) else Outcome(docs, accesses, None);
    assert |accesses| <= |enabled.accesses| <= |accesses| + 2 && enabled.accesses[..|accesses|] == accesses;
    assert forall i :: |accesses| <= i < |enabled.accesses| ==>
             enabled.accesses[i].dir == path && enabled.accesses[i].section == NOTEBOOK_CONFIG;
    if enabled.raised.None? && disable {
      var disabled := DisableStep(enabled.docs, enabled.accesses, faults, path);
      assert disabled.accesses[..|enabled.accesses|] == enabled.accesses;
      assert forall i :: |enabled.accesses| <= i < |disabled.accesses| ==>
               disabled.accesses[i].dir == path && disabled.accesses[i].section == NOTEBOOK_CONFIG;
    }
  }

  /** With both flags, an install that raised nothing enabled and then
      disabled the one document on the install path: both edits succeeded, the
      store holds the disabled form of the enabled document, and the log is a
      read and an `update`, then a read and a `set`, all on that path. */
  lemma InstalledBoth(docs: Docs, accesses: seq<Access>, faults: map<Key, WriteFault>,
                      prefix: Option<Path>, jupyterConfigDir: Path)
    requires Installed(docs, accesses, faults, true, true, prefix, jupyterConfigDir).raised.None?
    ensures var path := InstallPath(prefix, jupyterConfigDir);
            var cfg := Lookup(docs, path, NOTEBOOK_CONFIG);
            var r := Installed(docs, accesses, faults, true, true, prefix, jupyterConfigDir);
            && Enabled(cfg).Some?
            && Disabled(Enabled(cfg).value).Success?
            && Lookup(r.docs, path, NOTEBOOK_CONFIG) == Disabled(Enabled(cfg).value).value
            && r.accesses == accesses + [Read(path, NOTEBOOK_CONFIG), Write(path, NOTEBOOK_CONFIG, MergeWrite),
                                         Read(path, NOTEBOOK_CONFIG), Write(path, NOTEBOOK_CONFIG, ReplaceWrite)]
  {
    EnableStepStores(docs, accesses, faults, InstallPath(prefix, jupyterConfigDir));
  }

  /** Enabling twice gives the same document as enabling once. */
  lemma EnableIdempotent(cfg: Document)
    requires Enabled(cfg).Some?
    ensures Enabled(Enabled(cfg).value) == Enabled(cfg)
  {
  }

  /** Disabling undoes enabling: when the setting was absent, enable then
      disable restores the document, except that an empty `NotebookApp`
      remains where there was none. */
  lemma EnableThenDisable(cfg: Document)
    requires NOTEBOOK_APP !in cfg || (cfg[NOTEBOOK_APP].Object? && CONFIG_MANAGER_CLASS !in cfg[NOTEBOOK_APP].fields)
    ensures Enabled(cfg).Some?
    ensures var app := if NOTEBOOK_APP in cfg then cfg[NOTEBOOK_APP].fields else map[];
            Disabled(Enabled(cfg).value) == Success(cfg[NOTEBOOK_APP := Object(app)])
  {
    var app := if NOTEBOOK_APP in cfg then cfg[NOTEBOOK_APP].fields else map[];
    var enabled := cfg[NOTEBOOK_APP := Object(app[CONFIG_MANAGER_CLASS := Str(MANAGER_CLASS)])];
    if NOTEBOOK_APP !in cfg {
      var created := cfg[NOTEBOOK_APP := Object(map[])];
      assert Contains(created[NOTEBOOK_APP], CONFIG_MANAGER_CLASS) == Some(false);
      assert created[NOTEBOOK_APP := Object(app[CONFIG_MANAGER_CLASS := Str(MANAGER_CLASS)])] == enabled;
    }
    assert Enabled(cfg) == Some(enabled);
    assert app[CONFIG_MANAGER_CLASS := Str(MANAGER_CLASS)] - {CONFIG_MANAGER_CLASS} == app;
    assert enabled[NOTEBOOK_APP := Object(app)] == cfg[NOTEBOOK_APP := Object(app)];
  }

  /** Enable writes with `update`: since the edited document keeps every key it
      read, the stored document becomes exactly the edited one. */
  lemma EnableStepStores(docs: Docs, accesses: seq<Access>, faults: map<Key, WriteFault>, path: Path)
    requires Enabled(Lookup(docs, path, NOTEBOOK_CONFIG)).Some? && FaultAt(faults, path, NOTEBOOK_CONFIG).None?
    ensures var r := EnableStep(docs, accesses, faults, path);
            && r.raised.None?
            && Lookup(r.docs, path, NOTEBOOK_CONFIG) == Enabled(Lookup(docs, path, NOTEBOOK_CONFIG)).value
            && r.accesses == accesses + [Read(path, NOTEBOOK_CONFIG), Write(path, NOTEBOOK_CONFIG, MergeWrite)]
  {
  }

  /** Disable writes with `set`: the stored document becomes exactly the
      edited one, keys the edit removed included. */
  lemma DisableStepStores(docs: Docs, accesses: seq<Access>, faults: map<Key, WriteFault>, path: Path)
    requires Disabled(Lookup(docs, path, NOTEBOOK_CONFIG)).Success? && FaultAt(faults, path, NOTEBOOK_CONFIG).None?
    ensures var r := DisableStep(docs, accesses, faults, path);
            && r.raised.None?
            && Lookup(r.docs, path, NOTEBOOK_CONFIG) == Disabled(Lookup(docs, path, NOTEBOOK_CONFIG)).value
            && r.accesses == accesses + [Read(path, NOTEBOOK_CONFIG), Write(path, NOTEBOOK_CONFIG, ReplaceWrite)]
  {
  }

  /** With both flags and writable storage, a document without the setting
      comes back as it was (plus an empty `NotebookApp`), written once with
      `update` and then with `set`, both times in the same directory. */
  lemma InstallEnableDisable(docs: Docs, faults: map<Key, WriteFault>, prefix: Option<Path>, jupyterConfigDir: Path)
    requires var cfg := Lookup(docs, InstallPath(prefix, jupyterConfigDir), NOTEBOOK_CONFIG);
             NOTEBOOK_APP !in cfg || (cfg[NOTEBOOK_APP].Object? && CONFIG_MANAGER_CLASS !in cfg[NOTEBOOK_APP].fields)
    requires FaultAt(faults, InstallPath(prefix, jupyterConfigDir), NOTEBOOK_CONFIG).None?
    ensures var path := InstallPath(prefix, jupyterConfigDir);
            var cfg := Lookup(docs, path, NOTEBOOK_CONFIG);
            var app := if NOTEBOOK_APP in cfg then cfg[NOTEBOOK_APP].fields else map[];
            var r := Installed(docs, [], faults, true, true, prefix, jupyterConfigDir);
            && r.raised.None?
            && Lookup(r.docs, path, NOTEBOOK_CONFIG) == cfg[NOTEBOOK_APP := Object(app)]
            && r.accesses == [Read(path, NOTEBOOK_CONFIG), Write(path, NOTEBOOK_CONFIG, MergeWrite),
                              Read(path, NOTEBOOK_CONFIG), Write(path, NOTEBOOK_CONFIG, ReplaceWrite)]
  {
    var path := InstallPath(prefix, jupyterConfigDir);
    EnableStepStores(docs, [], faults, path);
    EnableThenDisable(Lookup(docs, path, NOTEBOOK_CONFIG));
  }

  /** `install(enable, disable, prefix)`, statement by statement; `cfg` is the
      dictionary the source edits in place. Directory creation is left out. */
  method Run(store: DocumentStore, enable: bool, disable: bool, prefix: Option<Path>, jupyterConfigDir: Path)
    returns (err: Option<InstallError>)
    modifies store
    ensures Outcome(store.docs, store.accesses, err)
            == Installed(old(store.docs), old(store.accesses), store.faults, enable, disable, prefix, jupyterConfigDir)
  {
    err := None;
    ghost var path0 := InstallPath(prefix, jupyterConfigDir);
    ghost var docs0, accesses0 := store.docs, store.accesses;
    if enable {
      var path := if prefix.Some? then Join(Join(prefix.value, "etc"), "jupyter") else jupyterConfigDir;
      var cfg := store.Get(path, NOTEBOOK_CONFIG);
      if NOTEBOOK_APP !in cfg {
        cfg := cfg[NOTEBOOK_APP := Object(map[])];
      }
      var notebookApp := cfg[NOTEBOOK_APP];
      var present := Contains(notebookApp, CONFIG_MANAGER_CLASS);
      if present.None? {
        return Some(TypeError);
      }
      if !present.value {
        if !notebookApp.Object? {
          return Some(TypeError);
        }
        cfg := cfg[NOTEBOOK_APP := Object(notebookApp.fields[CONFIG_MANAGER_CLASS := Str(MANAGER_CLASS)])];
      }
      var fault := store.Update(path, NOTEBOOK_CONFIG, cfg);
      if fault.Some? {
        return Some(WriteFailed(path, fault.value));
      }
      assert Outcome(store.docs, store.accesses, None) == EnableStep(docs0, accesses0, store.faults, path0);
    }
    assert Outcome(store.docs, store.accesses, None)
           == if enable then EnableStep(docs0, accesses0, store.faults, path0) else Outcome(docs0, accesses0, None);

    if disable {
      var path := if prefix.Some? then Join(Join(prefix.value, "etc"), "jupyter") else jupyterConfigDir;
      var cfg := store.Get(path, NOTEBOOK_CONFIG);
      ghost var read := cfg;
      if NOTEBOOK_APP !in cfg {
        return Some(KeyError(NOTEBOOK_APP));
      }
      if !cfg[NOTEBOOK_APP].Object? {
        return Some(TypeError);
      }
      if CONFIG_MANAGER_CLASS !in cfg[NOTEBOOK_APP].fields {
        return Some(KeyError(CONFIG_MANAGER_CLASS));
      }
      var configManager := cfg[NOTEBOOK_APP].fields[CONFIG_MANAGER_CLASS];
      if Str(MANAGER_CLASS) == configManager {
        cfg := cfg[NOTEBOOK_APP := Object(cfg[NOTEBOOK_APP].fields - {CONFIG_MANAGER_CLASS})];
      }
      assert Disabled(read) == Success(cfg);
      var fault := store.Set(path, NOTEBOOK_CONFIG, cfg);
      if fault.Some? {
        return Some(WriteFailed(path, fault.value));
      }
    }
  }
}
