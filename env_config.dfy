/** The environment-aware front-end config manager of nb_config_manager.

    At construction it merges the user's `load_extensions` maps of the
    sections "notebook", "tree" and "editor" into the environment-level
    (installation-wide) config, writes the result back to the environment
    directory, falls back to the user directory when that write is refused
    with EACCES, and finally points `configDir` at the directory that later
    reads and writes use.

    The pure functions below (UpdatedSection, RunSections, ResolvedEnvConfig,
    Constructed) say what each step does to the store and to the two directory
    fields; the class EnvironmentConfigManager carries out the same steps
    statement by statement and is proved equal to them. */
module EnvironmentConfig {
  import opened Wrappers
  import opened Json
  import opened Store

  const LOAD_EXTENSIONS: string := "load_extensions"

  /** The sections merged at construction, in the order they are processed. */
  const SECTIONS: seq<string> := ["notebook", "tree", "editor"]

  /** The two directories the manager knows about and the file system's answer
      to each write. */
  datatype Layout = Layout(userConfigDir: Path, environmentConfigDir: Path, faults: map<Key, WriteFault>)

  /** What construction can raise: an I/O error it does not recover from, or
      the TypeError/AttributeError of an in-place `dict.update` on a value that
      is not a JSON object. */
  datatype ConfigError =
    | WriteFailed(dir: Path, section: string, fault: WriteFault)
    | MergeTypeError(section: string)

  /** The store with its access log, and the manager's two directory fields. */
  datatype State = State(docs: Docs, accesses: seq<Access>, configDir: Path, defaultConfigDir: Path)

  /** The state after a step, and the error it raised, if any. */
  datatype Step = Step(state: State, raised: Option<ConfigError>)

  /** The in-place `update` of the environment's extension map with the user's:
      user entries win on a shared key, environment-only entries stay. */
  function MergeExtensions(env: map<string, Value>, user: map<string, Value>): (r: map<string, Value>)
    ensures r.Keys == env.Keys + user.Keys
    ensures forall ext :: ext in user ==> r[ext] == user[ext]
    ensures forall ext :: ext in env && ext !in user ==> r[ext] == env[ext]
  {
    env + user
  }

  /** The environment document after the user's extensions are loaded into it;
      None when the in-place update raises because a side is not an object. */
  function MergeEnvironment(cfgEnv: Document, cfgUser: Document): (r: Option<Document>)
    ensures !(LOAD_EXTENSIONS in cfgUser && cfgUser[LOAD_EXTENSIONS] != Null) ==> r == Some(cfgEnv)
    ensures r.None? <==>
              && LOAD_EXTENSIONS in cfgUser && cfgUser[LOAD_EXTENSIONS] != Null
              && LOAD_EXTENSIONS in cfgEnv
              && !(cfgEnv[LOAD_EXTENSIONS].Object? && cfgUser[LOAD_EXTENSIONS].Object?)
    ensures r.Some? ==> forall key :: key in cfgEnv && key != LOAD_EXTENSIONS ==> key in r.value && r.value[key] == cfgEnv[key]
    ensures r.Some? ==> r.value.Keys <= cfgEnv.Keys + {LOAD_EXTENSIONS}
    ensures r.Some? && LOAD_EXTENSIONS in cfgUser && cfgUser[LOAD_EXTENSIONS] != Null ==>
              && LOAD_EXTENSIONS in r.value
              && (LOAD_EXTENSIONS !in cfgEnv ==> r.value[LOAD_EXTENSIONS] == cfgUser[LOAD_EXTENSIONS])
              && (LOAD_EXTENSIONS in cfgEnv ==>
                    r.value[LOAD_EXTENSIONS]
                    == Object(MergeExtensions(cfgEnv[LOAD_EXTENSIONS].fields, cfgUser[LOAD_EXTENSIONS].fields)))
  {
    // a missing key and a JSON null are both "no user extensions"
    if LOAD_EXTENSIONS !in cfgUser || cfgUser[LOAD_EXTENSIONS] == Null then Some(cfgEnv)
    else
      var user := cfgUser[LOAD_EXTENSIONS];
      if LOAD_EXTENSIONS !in cfgEnv then
        Some(cfgEnv[LOAD_EXTENSIONS := user])
      else if cfgEnv[LOAD_EXTENSIONS].Object? && user.Object? then
        Some(cfgEnv[LOAD_EXTENSIONS := Object(MergeExtensions(cfgEnv[LOAD_EXTENSIONS].fields, user.fields))])
      else
        None
  }

  /** Every access logged after the first `from` entries concerns a section of `names`. */
  predicate AccessesWithin(accesses: seq<Access>, from: nat, names: seq<string>)
  {
    forall i :: from <= i < |accesses| ==> accesses[i].section in names
  }

  /** One call of `_update_sections(section)`. */
  function UpdatedSection(st: State, l: Layout, section: string): (r: Step)
    // only the section's user and environment documents can change
    ensures forall k: Key :: k.1 != section ==> SameAt(st.docs, r.state.docs, k)
    ensures forall d :: d != l.userConfigDir && d != l.environmentConfigDir ==> SameAt(st.docs, r.state.docs, (d, section))
    // the user document is read first, then the environment document
    ensures |r.state.accesses| >= |st.accesses| + 2
    ensures r.state.accesses[..|st.accesses|] == st.accesses
    ensures r.state.accesses[|st.accesses|] == Read(l.userConfigDir, section)
    ensures r.state.accesses[|st.accesses| + 1] == Read(l.environmentConfigDir, section)
    ensures AccessesWithin(r.state.accesses, |st.accesses|, [section])
    ensures r.raised.Some? ==> r.raised.value.section == section && r.state.docs == st.docs
    ensures r.raised.None? ==>
              (r.state.defaultConfigDir == l.userConfigDir <==>
                 st.defaultConfigDir == l.userConfigDir || FaultAt(l.faults, l.environmentConfigDir, section) == Some(PermissionDenied))
    ensures r.raised.None? ==> r.state.defaultConfigDir in {st.defaultConfigDir, l.userConfigDir}
  {
    var cfgUser := Lookup(st.docs, l.userConfigDir, section);
    var cfgEnvironment := Lookup(st.docs, l.environmentConfigDir, section);
    var read := st.(accesses := st.accesses + [Read(l.userConfigDir, section), Read(l.environmentConfigDir, section)],
                    configDir := l.environmentConfigDir);
    match MergeEnvironment(cfgEnvironment, cfgUser)
    case None => Step(read, Some(MergeTypeError(section)))
    case Some(merged) =>
      var tried := read.(accesses := read.accesses + [Write(l.environmentConfigDir, section, MergeWrite)]);
      match FaultAt(l.faults, l.environmentConfigDir, section)
      case None => Step(tried.(docs := Merged(st.docs, l.environmentConfigDir, section, merged)), None)
      case Some(OtherIOError) => Step(tried, Some(WriteFailed(l.environmentConfigDir, section, OtherIOError)))
      case Some(PermissionDenied) =>
        var fallback := cfgUser[LOAD_EXTENSIONS := if LOAD_EXTENSIONS in merged then merged[LOAD_EXTENSIONS] else Null];
        var retried := tried.(accesses := tried.accesses + [Write(l.userConfigDir, section, MergeWrite)],
                              configDir := l.userConfigDir);
        match FaultAt(l.faults, l.userConfigDir, section)
        case None =>
          Step(retried.(docs := Merged(st.docs, l.userConfigDir, section, fallback), defaultConfigDir := l.userConfigDir), None)
        case Some(fault) => Step(retried, Some(WriteFailed(l.userConfigDir, section, fault)))
  }

  /** What one section call does, case by case, once the user's extensions
      have been loaded into the environment document without error. */
  lemma SectionOutcome(st: State, l: Layout, section: string)
    requires MergeEnvironment(Lookup(st.docs, l.environmentConfigDir, section), Lookup(st.docs, l.userConfigDir, section)).Some?
    ensures var r := UpdatedSection(st, l, section);
            var merged := MergeEnvironment(Lookup(st.docs, l.environmentConfigDir, section), Lookup(st.docs, l.userConfigDir, section)).value;
            var envFault := FaultAt(l.faults, l.environmentConfigDir, section);
            var userFault := FaultAt(l.faults, l.userConfigDir, section);
            // the environment document is written back, with or without user extensions
            && |r.state.accesses| >= |st.accesses| + 3
            && r.state.accesses[|st.accesses| + 2] == Write(l.environmentConfigDir, section, MergeWrite)
            // a successful environment write stores the merged document there
            && (envFault.None? ==>
                  && r.raised.None?
                  && r.state.docs == Merged(st.docs, l.environmentConfigDir, section, merged)
                  && r.state.defaultConfigDir == st.defaultConfigDir)
            // any other I/O error on the environment write is raised
            && (envFault == Some(OtherIOError) ==>
                  r.raised == Some(WriteFailed(l.environmentConfigDir, section, OtherIOError)))
            // EACCES: the merged extension map goes into the user document, which
            // is merge-written to the user directory, which becomes the default
            && (envFault == Some(PermissionDenied) ==>
                  && |r.state.accesses| == |st.accesses| + 4
                  && r.state.accesses[|st.accesses| + 3] == Write(l.userConfigDir, section, MergeWrite)
                  && (userFault.None? ==>
                        && r.raised.None?
                        && r.state.defaultConfigDir == l.userConfigDir
                        && r.state.docs
                           == Merged(st.docs, l.userConfigDir, section,
                                     Lookup(st.docs, l.userConfigDir, section)[LOAD_EXTENSIONS :=
                                       if LOAD_EXTENSIONS in merged then merged[LOAD_EXTENSIONS] else Null]))
                  && (userFault.Some? ==> r.raised == Some(WriteFailed(l.userConfigDir, section, userFault.value))))
  {
  }

  /** When loading the user's extensions raises, the error names the section,
      both documents have been read and nothing is written. */
  lemma SectionMergeFails(st: State, l: Layout, section: string)
    requires MergeEnvironment(Lookup(st.docs, l.environmentConfigDir, section), Lookup(st.docs, l.userConfigDir, section)).None?
    ensures var r := UpdatedSection(st, l, section);
            && r.raised == Some(MergeTypeError(section))
            && r.state.docs == st.docs
            && r.state.accesses == st.accesses + [Read(l.userConfigDir, section), Read(l.environmentConfigDir, section)]
            && r.state.defaultConfigDir == st.defaultConfigDir
  {
  }

  /** The section calls in order; the first error stops the pass and is raised. */
  function RunSections(st: State, l: Layout, names: seq<string>): (r: Step)
    ensures forall k: Key :: k.1 !in names ==> SameAt(st.docs, r.state.docs, k)
    ensures |st.accesses| <= |r.state.accesses| && r.state.accesses[..|st.accesses|] == st.accesses
    ensures AccessesWithin(r.state.accesses, |st.accesses|, names)
    ensures r.raised.Some? ==> r.raised.value.section in names
    ensures r.raised.None? ==> r.state.defaultConfigDir in {st.defaultConfigDir, l.userConfigDir}
    decreases |names|
  {
    if names == [] then Step(st, None)
    else
      var first := UpdatedSection(st, l, names[0]);
      if first.raised.Some? then first
      else
        var rest := RunSections(first.state, l, names[1..]);
        assert forall i :: |st.accesses| <= i < |first.state.accesses| ==>
            rest.state.accesses[i] == first.state.accesses[i];
        rest
  }

  /** `_update_env_config`: decide whether to merge, merge, then point
      `configDir` at the default directory. */
  function ResolvedEnvConfig(st: State, l: Layout, environmentExists: bool, userExists: bool, disableUserConfig: bool): (r: Step)
    // no environment directory: nothing is read or written, the user directory is used
    ensures !environmentExists ==>
              && r.raised.None?
              && r.state.docs == st.docs && r.state.accesses == st.accesses
              && r.state.configDir == l.userConfigDir
    // no user directory, or user config disabled: nothing is read or written,
    // the default directory is used unchanged
    ensures environmentExists && (!userExists || disableUserConfig) ==>
              && r.raised.None?
              && r.state.docs == st.docs && r.state.accesses == st.accesses
              && r.state.configDir == st.defaultConfigDir
    ensures r.raised.None? ==> r.state.configDir == r.state.defaultConfigDir
    // only the three sections are ever read or written
    ensures forall k: Key :: k.1 !in SECTIONS ==> SameAt(st.docs, r.state.docs, k)
    ensures |st.accesses| <= |r.state.accesses| && r.state.accesses[..|st.accesses|] == st.accesses
    ensures AccessesWithin(r.state.accesses, |st.accesses|, SECTIONS)
  {
    if environmentExists then
      if userExists && !disableUserConfig then
        var run := RunSections(st, l, SECTIONS);
        if run.raised.Some? then run
        else Step(run.state.(configDir := run.state.defaultConfigDir), None)
      else
        Step(st.(configDir := st.defaultConfigDir), None)
    else
      Step(st.(defaultConfigDir := l.userConfigDir, configDir := l.userConfigDir), None)
  }

  /** The state a new manager starts from: the class defaults, with `configDir`
      at the base class's default, the user directory (it is overwritten before
      any use). */
  function InitialState(docs: Docs, accesses: seq<Access>, l: Layout): State
  {
    State(docs, accesses, l.userConfigDir, l.environmentConfigDir)
  }

  /** Construction: the class defaults followed by `_update_env_config`. */
  function Constructed(docs: Docs, accesses: seq<Access>, l: Layout,
                       environmentExists: bool, userExists: bool, disableUserConfig: bool): (r: Step)
    // no environment directory: the user directory is used
    ensures !environmentExists ==> r.raised.None? && r.state.docs == docs && r.state.configDir == l.userConfigDir
    // no merging: the class default, the environment directory, is used
    ensures environmentExists && (!userExists || disableUserConfig) ==>
              r.raised.None? && r.state.docs == docs && r.state.configDir == l.environmentConfigDir
    ensures r.raised.None? ==>
              && r.state.configDir == r.state.defaultConfigDir
              && r.state.configDir in {l.userConfigDir, l.environmentConfigDir}
  {
    ResolvedEnvConfig(InitialState(docs, accesses, l), l, environmentExists, userExists, disableUserConfig)
  }

  /** The pass over `a + b` is the pass over `a` followed, unless it raised, by
      the pass over `b`: sections are processed strictly in order and a raised
      error leaves every later section untouched. */
  lemma {:induction false} RunSectionsAppend(st: State, l: Layout, a: seq<string>, b: seq<string>)
    ensures RunSections(st, l, a + b)
            == (var first := RunSections(st, l, a);
                if first.raised.Some? then first else RunSections(first.state, l, b))
    decreases |a|
  {
    if a == [] {
      assert a + b == b;
    } else {
      assert (a + b)[0] == a[0];
      assert (a + b)[1..] == a[1..] + b;
      var first := UpdatedSection(st, l, a[0]);
      if first.raised.None? {
        RunSectionsAppend(first.state, l, a[1..], b);
      }
    }
  }

  /** The pass over SECTIONS is the "notebook", "tree" and "editor" calls in
      that order, each run on the state the previous one left, stopping at the
      first one that raises. */
  lemma SectionsInOrder(st: State, l: Layout)
    ensures RunSections(st, l, SECTIONS)
            == (var notebook := UpdatedSection(st, l, "notebook");
                if notebook.raised.Some? then notebook
                else
                  var tree := UpdatedSection(notebook.state, l, "tree");
                  if tree.raised.Some? then tree
                  else UpdatedSection(tree.state, l, "editor"))
  {
    assert SECTIONS[0] == "notebook" && SECTIONS[1..] == ["tree", "editor"];
    assert ["tree", "editor"][1..] == ["editor"] && ["editor"][1..] == [];
    var notebook := UpdatedSection(st, l, "notebook");
    if notebook.raised.None? {
      var tree := UpdatedSection(notebook.state, l, "tree");
      if tree.raised.None? {
        var editor := UpdatedSection(tree.state, l, "editor");
        assert RunSections(tree.state, l, ["editor"]) == editor;
      }
    }
  }

  /** Construction with merging is the three section calls in order, then
      `configDir` set to the default, unless a call raised. */
  lemma ConstructedInOrder(docs: Docs, accesses: seq<Access>, l: Layout)
    ensures Constructed(docs, accesses, l, true, true, false)
            == (var notebook := UpdatedSection(InitialState(docs, accesses, l), l, "notebook");
                if notebook.raised.Some? then notebook
                else
                  var tree := UpdatedSection(notebook.state, l, "tree");
                  if tree.raised.Some? then tree
                  else
                    var editor := UpdatedSection(tree.state, l, "editor");
                    if editor.raised.Some? then editor
                    else Step(editor.state.(configDir := editor.state.defaultConfigDir), None))
  {
    SectionsInOrder(InitialState(docs, accesses, l), l);
  }

  /** After a pass that raised nothing, the default directory is the user
      directory exactly when it already was or some processed section's
      environment write was refused with EACCES: a fallback is never undone by
      later successful sections. */
  lemma {:induction false} RunSectionsDefaultDir(st: State, l: Layout, names: seq<string>)
    requires RunSections(st, l, names).raised.None?
    ensures RunSections(st, l, names).state.defaultConfigDir == l.userConfigDir
            <==> (|| st.defaultConfigDir == l.userConfigDir
                  || exists i :: 0 <= i < |names| && FaultAt(l.faults, l.environmentConfigDir, names[i]) == Some(PermissionDenied))
    decreases |names|
  {
    if names != [] {
      var first := UpdatedSection(st, l, names[0]);
      RunSectionsDefaultDir(first.state, l, names[1..]);
      if exists i :: 0 <= i < |names| && FaultAt(l.faults, l.environmentConfigDir, names[i]) == Some(PermissionDenied) {
        var i :| 0 <= i < |names| && FaultAt(l.faults, l.environmentConfigDir, names[i]) == Some(PermissionDenied);
        if i > 0 {
          assert names[1..][i - 1] == names[i];
        }
      }
      if exists j :: 0 <= j < |names[1..]| && FaultAt(l.faults, l.environmentConfigDir, names[1..][j]) == Some(PermissionDenied) {
        var j :| 0 <= j < |names[1..]| && FaultAt(l.faults, l.environmentConfigDir, names[1..][j]) == Some(PermissionDenied);
        assert names[j + 1] == names[1..][j];
      }
    }
  }

  /** After a construction that raised nothing, `configDir` is the user or the
      environment directory; when merging ran, it is the user directory exactly
      when some section's environment write was refused with EACCES (or both
      directories are the same). */
  lemma FinalConfigDir(docs: Docs, accesses: seq<Access>, l: Layout,
                       environmentExists: bool, userExists: bool, disableUserConfig: bool)
    requires Constructed(docs, accesses, l, environmentExists, userExists, disableUserConfig).raised.None?
    ensures var dir := Constructed(docs, accesses, l, environmentExists, userExists, disableUserConfig).state.configDir;
            && dir in {l.userConfigDir, l.environmentConfigDir}
            && (environmentExists && userExists && !disableUserConfig ==>
                  (dir == l.userConfigDir
                   <==> (|| l.userConfigDir == l.environmentConfigDir
                         || exists i :: 0 <= i < |SECTIONS| && FaultAt(l.faults, l.environmentConfigDir, SECTIONS[i]) == Some(PermissionDenied))))
  {
    if environmentExists && userExists && !disableUserConfig {
      RunSectionsDefaultDir(InitialState(docs, accesses, l), l, SECTIONS);
    }
  }

  /** Re-merging the same user map changes nothing: the merge is a
      deterministic key-wise union with a fixed precedence. */
  lemma MergeExtensionsIdempotent(env: map<string, Value>, user: map<string, Value>)
    ensures MergeExtensions(MergeExtensions(env, user), user) == MergeExtensions(env, user)
  {
  }

  /** A section whose user document has no extensions is still written back to
      the environment directory: its content there is unchanged, but after a
      successful write the document exists. */
  lemma WriteBackWithoutUserExtensions(st: State, l: Layout, section: string)
    requires var cfgUser := Lookup(st.docs, l.userConfigDir, section);
             LOAD_EXTENSIONS !in cfgUser || cfgUser[LOAD_EXTENSIONS] == Null
    requires FaultAt(l.faults, l.environmentConfigDir, section).None?
    ensures var r := UpdatedSection(st, l, section);
            && r.raised.None?
            && (l.environmentConfigDir, section) in r.state.docs
            && Lookup(r.state.docs, l.environmentConfigDir, section) == Lookup(st.docs, l.environmentConfigDir, section)
            && r.state.accesses == st.accesses + [Read(l.userConfigDir, section), Read(l.environmentConfigDir, section),
                                                  Write(l.environmentConfigDir, section, MergeWrite)]
  {
  }

  /** The first section of the worked example below. */
  lemma WorkedExampleNotebook(userDir: Path, envDir: Path)
    requires userDir != envDir
    ensures var user := map[LOAD_EXTENSIONS := Object(map["foo" := Bool(true)])];
            var env := map[LOAD_EXTENSIONS := Object(map["bar" := Bool(true)])];
            var docs := map[(userDir, "notebook") := user, (envDir, "notebook") := env, (envDir, "tree") := map[]];
            var l := Layout(userDir, envDir, map[]);
            var r := UpdatedSection(InitialState(docs, [], l), l, "notebook");
            && r.raised.None?
            && r.state.defaultConfigDir == envDir
            && Lookup(r.state.docs, envDir, "notebook") == map[LOAD_EXTENSIONS := Object(map["bar" := Bool(true), "foo" := Bool(true)])]
  {
    var user := map[LOAD_EXTENSIONS := Object(map["foo" := Bool(true)])];
    var env := map[LOAD_EXTENSIONS := Object(map["bar" := Bool(true)])];
    var docs := map[(userDir, "notebook") := user, (envDir, "notebook") := env, (envDir, "tree") := map[]];
    var merged := map[LOAD_EXTENSIONS := Object(map["bar" := Bool(true), "foo" := Bool(true)])];
    assert MergeExtensions(map["bar" := Bool(true)], map["foo" := Bool(true)]) == map["bar" := Bool(true), "foo" := Bool(true)];
    assert env[LOAD_EXTENSIONS := Object(map["bar" := Bool(true), "foo" := Bool(true)])] == merged;
    assert MergeEnvironment(env, user) == Some(merged);
    MergedCovering(docs, envDir, "notebook", merged);
    SectionOutcome(InitialState(docs, [], Layout(userDir, envDir, map[])), Layout(userDir, envDir, map[]), "notebook");
  }

  /** The first section of the worked example below leaves the other
      sections' documents empty. */
  lemma WorkedExampleUntouched(userDir: Path, envDir: Path)
    requires userDir != envDir
    ensures var user := map[LOAD_EXTENSIONS := Object(map["foo" := Bool(true)])];
            var env := map[LOAD_EXTENSIONS := Object(map["bar" := Bool(true)])];
            var docs := map[(userDir, "notebook") := user, (envDir, "notebook") := env, (envDir, "tree") := map[]];
            var l := Layout(userDir, envDir, map[]);
            var r := UpdatedSection(InitialState(docs, [], l), l, "notebook");
            && Lookup(r.state.docs, userDir, "tree") == map[] && Lookup(r.state.docs, userDir, "editor") == map[]
            && Lookup(r.state.docs, envDir, "tree") == map[] && Lookup(r.state.docs, envDir, "editor") == map[]
  {
    var user := map[LOAD_EXTENSIONS := Object(map["foo" := Bool(true)])];
    var env := map[LOAD_EXTENSIONS := Object(map["bar" := Bool(true)])];
    var docs := map[(userDir, "notebook") := user, (envDir, "notebook") := env, (envDir, "tree") := map[]];
    var l := Layout(userDir, envDir, map[]);
    var r := UpdatedSection(InitialState(docs, [], l), l, "notebook");
    assert SameAt(docs, r.state.docs, (userDir, "tree")) && SameAt(docs, r.state.docs, (userDir, "editor"));
    assert SameAt(docs, r.state.docs, (envDir, "tree")) && SameAt(docs, r.state.docs, (envDir, "editor"));
  }

  /** The last two sections of the worked example below: with no user
      extensions and no write faults, "tree" and "editor" are written back
      unchanged and everything else stays as it was. */
  lemma WorkedExampleWriteBack(st: State, l: Layout)
    requires l.faults == map[] && l.userConfigDir != l.environmentConfigDir
    requires Lookup(st.docs, l.userConfigDir, "tree") == map[] && Lookup(st.docs, l.userConfigDir, "editor") == map[]
    ensures var tree := UpdatedSection(st, l, "tree");
            var editor := UpdatedSection(tree.state, l, "editor");
            && tree.raised.None? && editor.raised.None?
            && editor.state.defaultConfigDir == st.defaultConfigDir
            && Lookup(editor.state.docs, l.environmentConfigDir, "notebook") == Lookup(st.docs, l.environmentConfigDir, "notebook")
            && (l.environmentConfigDir, "tree") in editor.state.docs
            && editor.state.docs[(l.environmentConfigDir, "tree")] == Lookup(st.docs, l.environmentConfigDir, "tree")
            && (l.environmentConfigDir, "editor") in editor.state.docs
            && editor.state.docs[(l.environmentConfigDir, "editor")] == Lookup(st.docs, l.environmentConfigDir, "editor")
  {
    var tree := UpdatedSection(st, l, "tree");
    WriteBackWithoutUserExtensions(st, l, "tree");
    SectionOutcome(st, l, "tree");
    assert Lookup(tree.state.docs, l.userConfigDir, "editor") == map[];
    WriteBackWithoutUserExtensions(tree.state, l, "editor");
    SectionOutcome(tree.state, l, "editor");
  }

  /** A worked example: the user enables "foo" and the environment "bar" for
      the notebook page, the environment has an empty tree section and no
      editor section, and every write succeeds. The environment notebook
      section ends with both extensions; tree and editor are written back
      unchanged (editor as a new empty document); `configDir` is the
      environment directory. */
  lemma WorkedExample(userDir: Path, envDir: Path)
    requires userDir != envDir
    ensures var user := map[LOAD_EXTENSIONS := Object(map["foo" := Bool(true)])];
            var env := map[LOAD_EXTENSIONS := Object(map["bar" := Bool(true)])];
            var docs := map[(userDir, "notebook") := user, (envDir, "notebook") := env, (envDir, "tree") := map[]];
            var r := Constructed(docs, [], Layout(userDir, envDir, map[]), true, true, false);
            && r.raised.None?
            && r.state.configDir == envDir
            && Lookup(r.state.docs, envDir, "notebook") == map[LOAD_EXTENSIONS := Object(map["bar" := Bool(true), "foo" := Bool(true)])]
            && (envDir, "tree") in r.state.docs && r.state.docs[(envDir, "tree")] == map[]
            && (envDir, "editor") in r.state.docs && r.state.docs[(envDir, "editor")] == map[]
  {
    var user := map[LOAD_EXTENSIONS := Object(map["foo" := Bool(true)])];
    var env := map[LOAD_EXTENSIONS := Object(map["bar" := Bool(true)])];
    var docs := map[(userDir, "notebook") := user, (envDir, "notebook") := env, (envDir, "tree") := map[]];
    var l := Layout(userDir, envDir, map[]);
    var s1 := UpdatedSection(InitialState(docs, [], l), l, "notebook");
    WorkedExampleNotebook(userDir, envDir);
    WorkedExampleUntouched(userDir, envDir);
    WorkedExampleWriteBack(s1.state, l);
    ConstructedInOrder(docs, [], l);
  }

  /** The manager itself. The store stands for the file system behind the
      ConfigManager base class; `configDir` is the directory `get` and `update`
      use, as in the base class. */
  class EnvironmentConfigManager {
    const store: DocumentStore
    const userConfigDir: Path
    const environmentConfigDir: Path
    const disableUserConfig: bool
    var configDir: Path
    var defaultConfigDir: Path

    ghost function CurrentLayout(): Layout
    {
      Layout(userConfigDir, environmentConfigDir, store.faults)
    }

    ghost function CurrentState(): State
      reads this, store
    {
      State(store.docs, store.accesses, configDir, defaultConfigDir)
    }

    /** The class defaults: `defaultConfigDir` starts at the environment directory. */
    constructor (store: DocumentStore, userConfigDir: Path, environmentConfigDir: Path, disableUserConfig: bool)
      ensures this.store == store && this.userConfigDir == userConfigDir
      ensures this.environmentConfigDir == environmentConfigDir && this.disableUserConfig == disableUserConfig
      ensures CurrentState() == InitialState(store.docs, store.accesses, CurrentLayout())
    {
      this.store := store;
      this.userConfigDir := userConfigDir;
      this.environmentConfigDir := environmentConfigDir;
      this.disableUserConfig := disableUserConfig;
      configDir := userConfigDir;
      defaultConfigDir := environmentConfigDir;
    }

    method Get(section: string) returns (doc: Document)
      modifies store`accesses
      ensures doc == Lookup(store.docs, configDir, section)
      ensures store.accesses == old(store.accesses) + [Read(configDir, section)]
    {
      doc := store.Get(configDir, section);
    }

    method Update(section: string, doc: Document) returns (fault: Option<WriteFault>)
      modifies store
      ensures fault == FaultAt(store.faults, configDir, section)
      ensures store.docs == if fault.None? then Merged(old(store.docs), configDir, section, doc) else old(store.docs)
      ensures store.accesses == old(store.accesses) + [Write(configDir, section, MergeWrite)]
    {
      fault := store.Update(configDir, section, doc);
    }

    /** `_update_sections(section)`. */
    method UpdateSections(section: string) returns (err: Option<ConfigError>)
      modifies this, store
      ensures Step(CurrentState(), err) == UpdatedSection(old(CurrentState()), CurrentLayout(), section)
    {
      ghost var st0 := CurrentState();
      ghost var l := CurrentLayout();
      configDir := userConfigDir;
      var cfgUser := Get(section);
      var userExtensions: Option<Value> := None;
      if LOAD_EXTENSIONS in cfgUser {
        if cfgUser[LOAD_EXTENSIONS] != Null {
          userExtensions := Some(cfgUser[LOAD_EXTENSIONS]);
        }
      }

      configDir := environmentConfigDir;
      var cfgEnvironment := Get(section);

      if userExtensions.Some? {
        if LOAD_EXTENSIONS in cfgEnvironment {
          var envExtensions := cfgEnvironment[LOAD_EXTENSIONS];
          if !(envExtensions.Object? && userExtensions.value.Object?) {
            return Some(MergeTypeError(section));
          }
          cfgEnvironment := cfgEnvironment[LOAD_EXTENSIONS :=
            Object(MergeExtensions(envExtensions.fields, userExtensions.value.fields))];
        } else {
          cfgEnvironment := cfgEnvironment[LOAD_EXTENSIONS := userExtensions.value];
        }
      }

      assert MergeEnvironment(Lookup(st0.docs, environmentConfigDir, section), cfgUser) == Some(cfgEnvironment);
      ghost var read := st0.(accesses := st0.accesses + [Read(userConfigDir, section), Read(environmentConfigDir, section)],
                             configDir := environmentConfigDir);
      assert CurrentState() == read;
      var fault := Update(section, cfgEnvironment);
      if fault == Some(PermissionDenied) {
        cfgUser := cfgUser[LOAD_EXTENSIONS :=
          if LOAD_EXTENSIONS in cfgEnvironment then cfgEnvironment[LOAD_EXTENSIONS] else Null];
        configDir := userConfigDir;
        var fallbackFault := Update(section, cfgUser);
        if fallbackFault.Some? {
          return Some(WriteFailed(userConfigDir, section, fallbackFault.value));
        }
        defaultConfigDir := userConfigDir;
      } else if fault.Some? {
        return Some(WriteFailed(environmentConfigDir, section, fault.value));
      }
      err := None;
    }

    /** `_update_env_config()`. */
    method UpdateEnvConfig(environmentExists: bool, userExists: bool) returns (err: Option<ConfigError>)
      modifies this, store
      ensures Step(CurrentState(), err)
              == ResolvedEnvConfig(old(CurrentState()), CurrentLayout(), environmentExists, userExists, disableUserConfig)
    {
      if environmentExists {
        if userExists && !disableUserConfig {
          SectionsInOrder(CurrentState(), CurrentLayout());
          err := UpdateSections("notebook");
          if err.Some? {
            return;
          }
          err := UpdateSections("tree");
          if err.Some? {
            return;
          }
          err := UpdateSections("editor");
          if err.Some? {
            return;
          }
        }
      } else {
        defaultConfigDir := userConfigDir;
      }
      configDir := defaultConfigDir;
      err := None;
    }
  }

  /** `EnvironmentConfigManager(...)`: construction either raises (err is
      Some) or leaves a manager whose `configDir` is resolved. The existence of
      the two directories is the file system's answer, given as inputs. */
  method NewEnvironmentConfigManager(store: DocumentStore, userConfigDir: Path, environmentConfigDir: Path,
                                     disableUserConfig: bool, environmentExists: bool, userExists: bool)
    returns (m: EnvironmentConfigManager, err: Option<ConfigError>)
    modifies store
    ensures fresh(m) && m.store == store && m.disableUserConfig == disableUserConfig
    ensures m.userConfigDir == userConfigDir && m.environmentConfigDir == environmentConfigDir
    ensures Step(m.CurrentState(), err)
            == Constructed(old(store.docs), old(store.accesses), m.CurrentLayout(), environmentExists, userExists, disableUserConfig)
  {
    m := new EnvironmentConfigManager(store, userConfigDir, environmentConfigDir, disableUserConfig);
    err := m.UpdateEnvConfig(environmentExists, userExists);
  }
}
