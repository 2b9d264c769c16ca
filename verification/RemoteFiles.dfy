/** Saving and loading the remote configuration: `Toolchain.save_config` and
    `_write_config` of rx/trex/toolchain/toolchain.py against `get_target_env` of
    rx/client/configuration/local.py, over a file system with symbolic links. */
module RemoteFiles {
  import opened Prelude
  import opened Environments

  // ----------------------------------------------------------- file system

  /** The components of an absolute path. */
  type Path = seq<string>

  /** A path as a program writes it. */
  datatype Location = Absolute(parts: seq<string>) | Relative(parts: seq<string>)

  datatype Content = Parsed(yaml: Yaml) | Unparsable

  datatype Node = File(content: Content) | Link(target: Location)

  type Nodes = map<Path, Node>

  /** What a path leads to through symbolic links: a file, a path with nothing
      there, or a cycle. */
  datatype End = Reaches(path: Path) | Dangles(path: Path) | Loops

  function At(base: Path, l: Location): Path {
    if l.Absolute? then l.parts else base + l.parts
  }

  function Directory(p: Path): Path {
    if p == [] then [] else p[..|p| - 1]
  }

  /** A link's text is read relative to the directory of the link. */
  function Follow(fs: Nodes, p: Path, seen: set<Path>): (end: End)
    ensures end.Reaches? ==> end.path in fs && fs[end.path].File?
    ensures end.Dangles? ==> end.path !in fs
    decreases fs.Keys - seen
  {
    if p !in fs then Dangles(p)
    else
      match fs[p]
      case File(_) => Reaches(p)
      case Link(target) => if p in seen then Loops else Follow(fs, At(Directory(p), target), seen + {p})
  }

  function Resolve(fs: Nodes, p: Path): End {
    Follow(fs, p, {})
  }

  predicate Exists(fs: Nodes, p: Path) {
    Resolve(fs, p).Reaches?
  }

  // --------------------------------------------------------- configuration

  /** The parts of a `LocalConfig` that matter here, and the directory the
      process runs in. */
  datatype Config = Config(processDir: Path, cwd: Location, remote: Location)

  const REMOTE_DIR := [".rx", "remotes"]

  /** `self.cwd / l`: an absolute right operand replaces the left one. */
  function Join(cwd: Location, l: Location): Location {
    if l.Absolute? then l else cwd.(parts := cwd.parts + l.parts)
  }

  function DefaultLocation(cfg: Config): Location {
    Join(cfg.cwd, Relative(REMOTE_DIR + ["default"]))
  }

  function DefaultPath(cfg: Config): Path {
    At(cfg.processDir, DefaultLocation(cfg))
  }

  function Replace(text: string, c: char, d: char): string {
    seq(|text|, i requires 0 <= i < |text| => if text[i] == c then d else text[i])
  }

  /** The name of the file a configuration is saved in. */
  function FileName(repository: string, date: string): string {
    Replace(repository, '/', '-') + "-" + date + ".yaml"
  }

  function ConfigLocation(cfg: Config, env: Environment, date: string): Location {
    var repository := if env.image.Some? then env.image.value.repository else "";
    Join(cfg.cwd, Relative(REMOTE_DIR + [FileName(repository, date)]))
  }

  function ConfigPath(cfg: Config, env: Environment, date: string): Path {
    At(cfg.processDir, ConfigLocation(cfg, env, date))
  }

  datatype FileError = NotYaml | BadEnvironment(error: Error) | TooManyLinks

  // ------------------------------------------------------------ operations

  /** `get_target_env` for a remote file. */
  function Load(py: Python, fs: Nodes, remoteFile: Path): Result<Environment, FileError> {
    match Resolve(fs, remoteFile)
    case Reaches(path) => (
      match fs[path]
      case File(Unparsable) => Failure(NotYaml)
      case File(Parsed(yaml)) =>
        match FromYaml(py, yaml) {
          case Success(env) => Success(env)
          case Failure(e) => Failure(BadEnvironment(e))
        })
    case _ => Success(EMPTY)
  }

  /** Opening for writing follows links and creates what is missing. */
  function WriteFile(fs: Nodes, p: Path, content: Content): Result<Nodes, FileError> {
    match Resolve(fs, p)
    case Loops => Failure(TooManyLinks)
    case Reaches(q) => Success(fs[q := File(content)])
    case Dangles(q) => Success(fs[q := File(content)])
  }

  /** The end of `_write_config`: the default link, unless something is there. */
  function LinkDefault(fs: Nodes, default: Path, target: Location): Nodes {
    if Exists(fs, default) then fs else fs[default := Link(target)]
  }

  function ConfigWritten(fs: Nodes, cfg: Config, env: Environment, date: string): Result<Nodes, FileError> {
    var written :- WriteFile(fs, ConfigPath(cfg, env, date), Parsed(ToYaml(env)));
    Success(LinkDefault(written, DefaultPath(cfg), ConfigLocation(cfg, env, date)))
  }

  /** `save_config`: the new file system, and whether anything was written. */
  function Save(py: Python, fs: Nodes, cfg: Config, env: Environment, date: string): Result<(Nodes, bool), FileError> {
    var start :- Load(py, fs, At(cfg.processDir, Join(cfg.cwd, cfg.remote)));
    if start == env then Success((fs, false))
    else
      var fs' :- ConfigWritten(fs, cfg, env, date);
      Success((fs', true))
  }

  // ------------------------------------------------------ following links

  lemma {:induction false} SeenShrinks(fs: Nodes, p: Path, seen: set<Path>, fewer: set<Path>)
    requires fewer <= seen && Follow(fs, p, seen).Reaches?
    ensures Follow(fs, p, fewer) == Follow(fs, p, seen)
    decreases fs.Keys - seen
  {
    if p in fs && fs[p].Link? {
      SeenShrinks(fs, At(Directory(p), fs[p].target), seen + {p}, fewer + {p});
    }
  }

  /** Writing the file a path leads to leaves the path leading there. */
  lemma {:induction false} FollowAfterWrite(fs: Nodes, p: Path, seen: set<Path>, q: Path, content: Content)
    requires Follow(fs, p, seen) == Reaches(q) || Follow(fs, p, seen) == Dangles(q)
    ensures Follow(fs[q := File(content)], p, seen) == Reaches(q)
    decreases fs.Keys - seen
  {
    if p in fs && fs[p].Link? {
      var next := At(Directory(p), fs[p].target);
      FollowAfterWrite(fs, next, seen + {p}, q, content);
    }
  }

  /** A path that leads somewhere else is not affected by the write. */
  lemma {:induction false} FollowBesideWrite(fs: Nodes, p: Path, seen: set<Path>, q: Path, content: Content)
    requires q in fs ==> fs[q].File?
    requires Follow(fs, p, seen) != Reaches(q) && Follow(fs, p, seen) != Dangles(q)
    ensures Follow(fs[q := File(content)], p, seen) == Follow(fs, p, seen)
    decreases fs.Keys - seen
  {
    if p in fs && fs[p].Link? && p !in seen {
      FollowBesideWrite(fs, At(Directory(p), fs[p].target), seen + {p}, q, content);
    }
  }

  /** A new link at a path that leads nowhere disturbs no path that leads
      somewhere, not even one followed from the link itself. */
  lemma {:induction false} FollowBesideLink(fs: Nodes, p: Path, seen: set<Path>, d: Path, target: Location)
    requires !Exists(fs, d) && Follow(fs, p, seen).Reaches?
    ensures Follow(fs[d := Link(target)], p, seen) == Follow(fs, p, seen)
    ensures Follow(fs[d := Link(target)], p, seen + {d}) == Follow(fs, p, seen)
    decreases fs.Keys - seen
  {
    if p == d {
      SeenShrinks(fs, p, seen, {});
      assert false;
    } else if fs[p].Link? {
      FollowBesideLink(fs, At(Directory(p), fs[p].target), seen + {p}, d, target);
      assert seen + {p} + {d} == seen + {d} + {p};
    }
  }

  // --------------------------------------------------------------- results

  /** Loading from a path that leads to a saved environment. */
  lemma LoadSaved(py: Python, fs: Nodes, p: Path, q: Path, env: Environment)
    requires Resolve(fs, p) == Reaches(q) && q in fs && fs[q] == File(Parsed(ToYaml(env)))
    ensures Load(py, fs, p) == Success(env)
  {
    RoundTrip(py, env);
  }

  /** With an absolute root: if the saved environment differs from the current
      one and `default` is missing or a dangling link, loading the default
      remote afterwards gives exactly the saved environment. */
  lemma SaveThenLoad(py: Python, fs: Nodes, cfg: Config, env: Environment, date: string)
    requires cfg.cwd.Absolute? && !Exists(fs, DefaultPath(cfg))
    ensures
      var r := Save(py, fs, cfg, env, date);
      r.Success? && r.value.1 ==> Load(py, r.value.0, DefaultPath(cfg)) == Success(env)
  {
    var r := Save(py, fs, cfg, env, date);
    if r.Success? && r.value.1 {
      SaveThenLoadIff(py, fs, cfg, env, date);
      assert LinkedPath(cfg, env, date) == ConfigPath(cfg, env, date);
    }
  }

  /** If `default` leads to a file, only the configuration file changes: the
      entry is never redirected. Loading gives the saved environment if the
      configuration was written to that very file, and what it gave before
      otherwise. */
  lemma ExistingDefaultStays(py: Python, fs: Nodes, cfg: Config, env: Environment, date: string)
    requires Exists(fs, DefaultPath(cfg))
    ensures
      var r := Save(py, fs, cfg, env, date);
      var d, end := DefaultPath(cfg), Resolve(fs, ConfigPath(cfg, env, date));
      r.Success? && r.value.1 ==>
        && !end.Loops? && r.value.0 == fs[end.path := File(Parsed(ToYaml(env)))]
        && (fs[d].Link? ==> d in r.value.0 && r.value.0[d] == fs[d])
        && Resolve(r.value.0, d) == Resolve(fs, d)
        && Load(py, r.value.0, d) == (if end == Resolve(fs, d) then Success(env) else Load(py, fs, d))
  {
    var r := Save(py, fs, cfg, env, date);
    if r.Success? && r.value.1 {
      var p, d := ConfigPath(cfg, env, date), DefaultPath(cfg);
      var q, content := Resolve(fs, p).path, Parsed(ToYaml(env));
      if Resolve(fs, d) == Reaches(q) {
        FollowAfterWrite(fs, d, {}, q, content);
        LoadSaved(py, r.value.0, d, q, env);
      } else {
        FollowBesideWrite(fs, d, {}, q, content);
      }
    }
  }

  /** Saving what is already the current environment changes nothing; what is
      written is different from it. */
  lemma SavesOnlyChanges(py: Python, fs: Nodes, cfg: Config, env: Environment, date: string)
    ensures
      var r := Save(py, fs, cfg, env, date);
      var current := Load(py, fs, At(cfg.processDir, Join(cfg.cwd, cfg.remote)));
      && (current == Success(env) ==> r == Success((fs, false)))
      && (r.Success? && r.value.1 ==> current.Success? && current.value != env)
  {
  }

  /** The path leads to q, whether or not there is something yet. */
  predicate LeadsTo(fs: Nodes, p: Path, q: Path) {
    Resolve(fs, p) == Reaches(q) || Resolve(fs, p) == Dangles(q)
  }

  /** Where the default link points to, read from its directory. */
  function LinkedPath(cfg: Config, env: Environment, date: string): Path {
    At(Directory(DefaultPath(cfg)), ConfigLocation(cfg, env, date))
  }

  /** What loading gives through any path after one file was written. */
  lemma LoadAfterWrite(py: Python, fs: Nodes, p: Path, q: Path, env: Environment)
    requires q in fs ==> fs[q].File?
    ensures
      Load(py, fs[q := File(Parsed(ToYaml(env)))], p) == if LeadsTo(fs, p, q) then Success(env) else Load(py, fs, p)
  {
    var content := Parsed(ToYaml(env));
    if LeadsTo(fs, p, q) {
      FollowAfterWrite(fs, p, {}, q, content);
      LoadSaved(py, fs[q := File(content)], p, q, env);
    } else {
      FollowBesideWrite(fs, p, {}, q, content);
    }
  }

  /** A path that follows a path leading nowhere leads nowhere itself. */
  lemma {:induction false} NowhereThrough(fs: Nodes, p: Path, seen: set<Path>, d: Path, target: Location)
    requires !Exists(fs, d) && !Follow(fs, p, seen).Reaches?
    ensures !Follow(fs[d := Link(target)], p, seen + {d}).Reaches?
    decreases fs.Keys - seen
  {
    if p != d && p in fs && p !in seen {
      NowhereThrough(fs, At(Directory(p), fs[p].target), seen + {p}, d, target);
      assert seen + {p} + {d} == seen + {d} + {p};
    }
  }

  /** What loading gives through a new default link: what it gives through the
      path the link points to. */
  lemma LoadThroughLink(py: Python, fs: Nodes, d: Path, target: Location)
    requires !Exists(fs, d)
    ensures Load(py, fs[d := Link(target)], d) == Load(py, fs, At(Directory(d), target))
  {
    var next := At(Directory(d), target);
    assert {} + {d} == {d};
    if Exists(fs, next) {
      FollowBesideLink(fs, next, {}, d, target);
    } else {
      NowhereThrough(fs, next, {}, d, target);
    }
  }

  /** For every file system and every root: after saving, loading the default
      remote gives the saved environment exactly if the configuration was written
      where `default` led already, or where the path leads that is used from now
      on (what `default` led to, or else the new link's text read from the
      directory of the link), or that path gives this environment anyway. */
  lemma SaveThenLoadIff(py: Python, fs: Nodes, cfg: Config, env: Environment, date: string)
    requires Save(py, fs, cfg, env, date).Success? && Save(py, fs, cfg, env, date).value.1
    ensures
      var d, q := DefaultPath(cfg), Resolve(fs, ConfigPath(cfg, env, date)).path;
      var used := if Exists(fs, d) then d else LinkedPath(cfg, env, date);
      Load(py, Save(py, fs, cfg, env, date).value.0, d) == Success(env) <==>
        LeadsTo(fs, d, q) || LeadsTo(fs, used, q) || Load(py, fs, used) == Success(env)
  {
    var p, d := ConfigPath(cfg, env, date), DefaultPath(cfg);
    var q := Resolve(fs, p).path;
    var written := fs[q := File(Parsed(ToYaml(env)))];
    LoadAfterWrite(py, fs, d, q, env);
    LoadAfterWrite(py, fs, LinkedPath(cfg, env, date), q, env);
    if LeadsTo(fs, d, q) {
      FollowAfterWrite(fs, d, {}, q, Parsed(ToYaml(env)));
    } else {
      FollowBesideWrite(fs, d, {}, q, Parsed(ToYaml(env)));
    }
    if !Exists(written, d) {
      LoadThroughLink(py, written, d, ConfigLocation(cfg, env, date));
    }
  }

  /** The link text is the path of the configuration file as the program wrote
      it. With a relative root it is read from the directory of the link, where
      it names another file. If neither name is taken and `default` leads
      nowhere, the saved environment comes back exactly if the root is absolute,
      or there was nothing to save, or `default` dangled at that very file. */
  lemma FreshSaveThenLoadIff(py: Python, fs: Nodes, cfg: Config, env: Environment, date: string)
    requires Save(py, fs, cfg, env, date).Success? && Save(py, fs, cfg, env, date).value.1
    requires !Exists(fs, DefaultPath(cfg)) && ConfigPath(cfg, env, date) !in fs && LinkedPath(cfg, env, date) !in fs
    ensures
      Load(py, Save(py, fs, cfg, env, date).value.0, DefaultPath(cfg)) == Success(env) <==>
        cfg.cwd.Absolute? || env == EMPTY || Resolve(fs, DefaultPath(cfg)) == Dangles(ConfigPath(cfg, env, date))
  {
    SaveThenLoadIff(py, fs, cfg, env, date);
    if cfg.cwd.Relative? {
      assert |LinkedPath(cfg, env, date)| > |ConfigPath(cfg, env, date)|;
    }
  }

  /** A configuration is never saved under the name of the default link. */
  lemma ConfigIsNotDefault(cfg: Config, env: Environment, date: string)
    ensures ConfigPath(cfg, env, date) != DefaultPath(cfg)
  {
    var repository := if env.image.Some? then env.image.value.repository else "";
    var name := FileName(repository, date);
    assert name[|name| - 1] == 'l' && "default"[|"default"| - 1] == 't';
    var p, d := ConfigPath(cfg, env, date), DefaultPath(cfg);
    assert p[|p| - 1] == name && d[|d| - 1] == "default";
  }

  /** Slashes in the repository make no directories: a configuration is saved
      beside the default link, in the remotes directory itself. */
  lemma ConfigBesideDefault(cfg: Config, env: Environment, date: string)
    requires '/' !in date
    ensures
      var p, d := ConfigPath(cfg, env, date), DefaultPath(cfg);
      p != [] && Directory(p) == Directory(d) && '/' !in p[|p| - 1]
  {
    var repository := if env.image.Some? then env.image.value.repository else "";
    var p, d := ConfigPath(cfg, env, date), DefaultPath(cfg);
    assert p[|p| - 1] == FileName(repository, date);
    assert '/' !in Replace(repository, '/', '-') && '/' !in "-" && '/' !in ".yaml";
  }

  // --------------------------------------------------- paths and outcomes

  /** The root directory, seen from where the process runs. */
  function Root(cfg: Config): Path {
    if cfg.cwd.Absolute? then cfg.cwd.parts else cfg.processDir + cfg.cwd.parts
  }

  /** A configuration is named after the repository, with dashes for slashes, and
      the date. */
  lemma FileNameIs(repository: string, date: string)
    ensures
      var name := FileName(repository, date);
      && |name| == |repository| + |date| + 6 && name[|repository|..] == "-" + date + ".yaml"
      && (forall i :: 0 <= i < |repository| ==> name[i] == if repository[i] == '/' then '-' else repository[i])
  {
    assert FileName(repository, date) == Replace(repository, '/', '-') + ("-" + date + ".yaml");
  }

  /** A path under the root, and one that is absolute. */
  lemma JoinedPath(cfg: Config, l: Location)
    ensures l.Absolute? ==> At(cfg.processDir, Join(cfg.cwd, l)) == l.parts
    ensures l.Relative? ==> At(cfg.processDir, Join(cfg.cwd, l)) == Root(cfg) + l.parts
  {
    assert cfg.processDir + (cfg.cwd.parts + l.parts) == (cfg.processDir + cfg.cwd.parts) + l.parts;
  }

  /** Where the files are: the default link and the configurations lie in
      `.rx/remotes` under the root, and a remote given by an absolute path is that
      path. The link's text is read from there: with a relative root it leads
      below itself. */
  lemma WhereFilesAre(cfg: Config, env: Environment, date: string)
    ensures
      var name := FileName(if env.image.Some? then env.image.value.repository else "", date);
      var remotes := Root(cfg) + [".rx", "remotes"];
      && DefaultPath(cfg) == remotes + ["default"] && ConfigPath(cfg, env, date) == remotes + [name]
      && LinkedPath(cfg, env, date) ==
           (if cfg.cwd.Absolute? then remotes else remotes + cfg.cwd.parts + [".rx", "remotes"]) + [name]
      && At(cfg.processDir, Join(cfg.cwd, cfg.remote)) ==
           if cfg.remote.Absolute? then cfg.remote.parts else Root(cfg) + cfg.remote.parts
  {
    var name := FileName(if env.image.Some? then env.image.value.repository else "", date);
    var remotes := Root(cfg) + [".rx", "remotes"];
    JoinedPath(cfg, Relative(REMOTE_DIR + ["default"]));
    JoinedPath(cfg, Relative(REMOTE_DIR + [name]));
    JoinedPath(cfg, cfg.remote);
    assert Root(cfg) + (REMOTE_DIR + ["default"]) == remotes + ["default"];
    assert Root(cfg) + (REMOTE_DIR + [name]) == remotes + [name];
    assert Directory(remotes + ["default"]) == remotes;
    assert cfg.cwd.Relative? ==>
      remotes + (cfg.cwd.parts + (REMOTE_DIR + [name])) == remotes + cfg.cwd.parts + [".rx", "remotes"] + [name];
  }

  /** A link leads where its target does: the text of a relative one is read from
      the link's own directory. */
  lemma LinkLeadsToTarget(fs: Nodes, dir: Path, name: string, target: Location)
    requires dir + [name] in fs && fs[dir + [name]] == Link(target)
    ensures
      var p := dir + [name];
      var next := if target.Absolute? then target.parts else dir + target.parts;
      && (next in fs && fs[next].File? ==> Resolve(fs, p) == Reaches(next))
      && (next !in fs ==> Resolve(fs, p) == Dangles(next))
      && (next == p ==> Resolve(fs, p) == Loops)
      && (Exists(fs, p) ==> Resolve(fs, next) == Resolve(fs, p))
  {
    var p := dir + [name];
    var next := if target.Absolute? then target.parts else dir + target.parts;
    assert Directory(p) == dir && next == At(Directory(p), target);
    assert Resolve(fs, p) == Follow(fs, next, {} + {p});
    if Exists(fs, p) {
      SeenShrinks(fs, next, {} + {p}, {});
    }
  }

  /** What loading gives: the translation of the file the path leads to, an error
      if it is no YAML or no environment, and the empty environment if the path
      leads to no file. */
  lemma LoadOutcomeIff(py: Python, fs: Nodes, p: Path)
    ensures
      var r, end := Load(py, fs, p), Resolve(fs, p);
      && (!Exists(fs, p) ==> r == Success(Environment(None, None)))
      && (r == Failure(NotYaml) <==> end.Reaches? && fs[end.path] == File(Unparsable))
      && (Exists(fs, p) && fs[end.path].content.Parsed? ==>
            var made := FromYaml(py, fs[end.path].content.yaml);
            && (r.Success? <==> made.Success?) && (r.Success? ==> r.value == made.value)
            && (made.Failure? ==> r == Failure(BadEnvironment(made.error))))
  {
  }

  /** When saving fails, does nothing, and writes. */
  lemma SaveOutcomeIff(py: Python, fs: Nodes, cfg: Config, env: Environment, date: string)
    ensures
      var r := Save(py, fs, cfg, env, date);
      var current := Load(py, fs, At(cfg.processDir, Join(cfg.cwd, cfg.remote)));
      var end := Resolve(fs, ConfigPath(cfg, env, date));
      && (current.Failure? ==> r == Failure(current.error))
      && (current.Success? ==> (r == Success((fs, false)) <==> current.value == env))
      && (current.Success? && current.value != env ==>
            (r.Success? <==> !end.Loops?) && (r.Success? ==> r.value.1) && (r.Failure? ==> r.error == TooManyLinks))
  {
  }

  /** What saving writes: the configuration where its path leads, and a default
      link to it if `default` then leads to no file. Nothing else changes. */
  lemma WhatSaveWrites(py: Python, fs: Nodes, cfg: Config, env: Environment, date: string)
    requires Save(py, fs, cfg, env, date).Success? && Save(py, fs, cfg, env, date).value.1
    ensures
      var d, q := DefaultPath(cfg), Resolve(fs, ConfigPath(cfg, env, date)).path;
      var link := if cfg.cwd.Absolute? then Absolute(ConfigPath(cfg, env, date)) else ConfigLocation(cfg, env, date);
      var written := fs[q := File(Parsed(ToYaml(env)))];
      Save(py, fs, cfg, env, date).value.0 ==
        if Exists(fs, d) || LeadsTo(fs, d, q) then written else written[d := Link(link)]
  {
    var p, d := ConfigPath(cfg, env, date), DefaultPath(cfg);
    var q := Resolve(fs, p).path;
    if LeadsTo(fs, d, q) {
      FollowAfterWrite(fs, d, {}, q, Parsed(ToYaml(env)));
    } else {
      FollowBesideWrite(fs, d, {}, q, Parsed(ToYaml(env)));
    }
  }

  // ------------------------------------------------- the steps as written

  class FileSystem {
    var nodes: Nodes

    constructor (nodes: Nodes)
      ensures this.nodes == nodes
    {
      this.nodes := nodes;
    }

    method WriteText(p: Path, content: Content) returns (ok: bool)
      modifies this
      ensures match WriteFile(old(nodes), p, content)
              case Success(fs) => ok && nodes == fs
              case Failure(_) => !ok && nodes == old(nodes)
    {
      var end := Resolve(nodes, p);
      if end.Loops? {
        return false;
      }
      nodes := nodes[end.path := File(content)];
      return true;
    }

    method Unlink(p: Path)
      requires p in nodes
      modifies this
      ensures nodes == old(nodes) - {p}
    {
      nodes := nodes - {p};
    }

    method SymlinkTo(p: Path, target: Location)
      requires p !in nodes
      modifies this
      ensures nodes == old(nodes)[p := Link(target)]
    {
      nodes := nodes[p := Link(target)];
    }
  }

  class Toolchain {
    const cfg: Config
    const files: FileSystem

    constructor (cfg: Config, files: FileSystem)
      ensures this.cfg == cfg && this.files == files
    {
      this.cfg, this.files := cfg, files;
    }

    method SaveConfig(py: Python, env: Environment, date: string) returns (r: Result<bool, FileError>)
      modifies files
      ensures match Save(py, old(files.nodes), cfg, env, date)
              case Success((fs, written)) => r == Success(written) && files.nodes == fs
              case Failure(e) => r == Failure(e) && files.nodes == old(files.nodes)
    {
      var start :- Load(py, files.nodes, At(cfg.processDir, Join(cfg.cwd, cfg.remote)));
      if start == env {
        return Success(false);
      }
      var ok := WriteConfig(env, date);
      return if ok then Success(true) else Failure(TooManyLinks);
    }

    method WriteConfig(env: Environment, date: string) returns (ok: bool)
      modifies files
      ensures match ConfigWritten(old(files.nodes), cfg, env, date)
              case Success(fs) => ok && files.nodes == fs
              case Failure(e) => !ok && e == TooManyLinks && files.nodes == old(files.nodes)
    {
      ok := files.WriteText(ConfigPath(cfg, env, date), Parsed(ToYaml(env)));
      if !ok {
        return;
      }
      var default := DefaultPath(cfg);
      if !Exists(files.nodes, default) {
        ghost var written := files.nodes;
        // A symlink that points to nothing.
        if default in files.nodes && files.nodes[default].Link? {
          files.Unlink(default);
        }
        files.SymlinkTo(default, ConfigLocation(cfg, env, date));
        assert files.nodes == written[default := Link(ConfigLocation(cfg, env, date))];
      }
    }
  }
}
