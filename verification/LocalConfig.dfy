/** The local configuration of rx/client/configuration/local.py: the search for
    the directory that holds it, and its stored form. */
module LocalConfiguration {
  import opened Prelude
  import opened Environments

  // ------------------------------------------------------------ the search

  type Path = seq<string>

  /** `get_config_dir`, for the host flag's value. */
  function ConfigDir(host: string, root: Path): Path {
    root + [".rx", host, "config"]
  }

  /** The nearest of a path and its parents that has a configuration directory. */
  function Nearest(dirs: set<Path>, host: string, p: Path): Option<Path> {
    if ConfigDir(host, p) in dirs then Some(p)
    else if p == [] then None
    else Nearest(dirs, host, p[..|p| - 1])
  }

  /** The first parent `find_rxroot` tries: the parents are those of the working
      directory's own configuration directory. */
  function FirstParent(host: string, workingDir: Path): Path {
    workingDir + [".rx", host]
  }

  /** It is the parent of that directory. */
  lemma FirstParentIsParent(host: string, workingDir: Path)
    ensures FirstParent(host, workingDir) + ["config"] == ConfigDir(host, workingDir)
    ensures ConfigDir(host, workingDir) == workingDir + [".rx", host, "config"]
  {
  }

  /** What is found is a parent with a configuration directory, and no nearer
      one has any; None means that none has. */
  lemma {:induction false} NearestIsNearest(dirs: set<Path>, host: string, p: Path)
    ensures
      match Nearest(dirs, host, p)
      case Some(root) =>
        && root <= p && ConfigDir(host, root) in dirs
        && (forall k :: |root| < k <= |p| ==> ConfigDir(host, p[..k]) !in dirs)
      case None => forall k :: 0 <= k <= |p| ==> ConfigDir(host, p[..k]) !in dirs
  {
    assert p[..|p|] == p;
    if p != [] {
      var q := p[..|p| - 1];
      NearestIsNearest(dirs, host, q);
      forall k | 0 <= k <= |q| ensures q[..k] == p[..k] {
      }
    }
  }

  /** The loop of `find_rxroot` and of `find_local_config`. */
  method FindRxRoot(dirs: set<Path>, host: string, workingDir: Path) returns (root: Option<Path>)
    ensures root == Nearest(dirs, host, FirstParent(host, workingDir))
  {
    var parent := FirstParent(host, workingDir);
    while ConfigDir(host, parent) !in dirs
      invariant Nearest(dirs, host, parent) == Nearest(dirs, host, FirstParent(host, workingDir))
      decreases |parent|
    {
      if parent == [] {
        return None;
      }
      parent := parent[..|parent| - 1];
    }
    return Some(parent);
  }

  /** `get_local_config` looks for the root and then for the configuration from
      that root. The second search stays at the root exactly if no configuration
      directory hides under the root's own `.rx` directory. */
  lemma SecondSearchAgreesIff(dirs: set<Path>, host: string, workingDir: Path)
    requires Nearest(dirs, host, FirstParent(host, workingDir)).Some?
    ensures
      var root := Nearest(dirs, host, FirstParent(host, workingDir)).value;
      Nearest(dirs, host, FirstParent(host, root)) == Some(root) <==>
        ConfigDir(host, root + [".rx", host]) !in dirs && ConfigDir(host, root + [".rx"]) !in dirs
  {
    var first := FirstParent(host, workingDir);
    NearestIsNearest(dirs, host, first);
    var root := Nearest(dirs, host, first).value;
    var p := FirstParent(host, root);
    var q := p[..|p| - 1];
    assert q == root + [".rx"] && q[..|q| - 1] == root;
    assert Nearest(dirs, host, root) == Some(root);
    assert |p| > |root| && |q| > |root|;
  }

  // ---------------------------------------------------------- stored form

  /** `LocalConfig`; what came from the file has whatever type it has there. */
  datatype LocalConfig = LocalConfig(
    cwd: Path, projectName: Yaml, rsyncPath: Yaml, remote: Yaml, shouldSync: Yaml, daemonPort: Yaml)

  const DEFAULT_DAEMON_PORT := 8478
  const DEFAULT_REMOTE := ".rx/remotes/default"

  datatype LoadError = NoFile | NotYaml | BadType

  /** What the configuration file is. */
  datatype ConfigFile = Missing | Garbled | Holds(yaml: Yaml)

  /** The dictionary `store` writes. */
  function Stored(cfg: LocalConfig): map<string, Yaml> {
    map["remote" := cfg.remote, "project_name" := cfg.projectName, "rsync_path" := cfg.rsyncPath,
        "should_sync" := cfg.shouldSync, "daemon_port" := cfg.daemonPort]
  }

  function Or(cfg: map<string, Yaml>, key: string, default: Yaml): Yaml {
    if key in cfg then cfg[key] else default
  }

  /** `load_config`: the root replaces any stored `cwd`, keys that are no fields
      are dropped, and the fields without a default must be there. */
  function Loaded(root: Path, file: ConfigFile): Result<LocalConfig, LoadError> {
    match file
    case Missing => Failure(NoFile)
    case Garbled => Failure(NotYaml)
    case Holds(yaml) =>
      if !yaml.YMap? then Failure(BadType)
      else
        var cfg := yaml.entries;
        if "project_name" !in cfg || "rsync_path" !in cfg then Failure(BadType)
        else Success(LocalConfig(root, cfg["project_name"], cfg["rsync_path"],
                                 Or(cfg, "remote", YStr(DEFAULT_REMOTE)),
                                 Or(cfg, "should_sync", YBool(true)),
                                 Or(cfg, "daemon_port", YInt(DEFAULT_DAEMON_PORT))))
  }

  /** Names `load_config` gives a meaning. */
  const FIELDS := {"project_name", "rsync_path", "remote", "should_sync", "daemon_port"}

  /** Storing and loading at the same root gives the configuration back, whatever
      other keys, a stored `cwd` among them, the file also has. */
  lemma StoreThenLoad(cfg: LocalConfig, others: map<string, Yaml>)
    requires others.Keys !! FIELDS
    ensures Loaded(cfg.cwd, Holds(YMap(others + Stored(cfg)))) == Success(cfg)
  {
    assert |"remote"| == 6 && |"project_name"| == 12 && |"rsync_path"| == 10;
    assert "should_sync"[0] == 's' && "daemon_port"[0] == 'd';
    StoredFields(cfg);
  }

  /** When loading fails, and what each field gets: its own entry, or the default
      of the class if it has one. */
  lemma LoadedIff(root: Path, file: ConfigFile)
    ensures
      var r := Loaded(root, file);
      && (r == Failure(NoFile) <==> file.Missing?) && (r == Failure(NotYaml) <==> file.Garbled?)
      && (r.Success? <==>
            file.Holds? && Field(file.yaml, "project_name").Some? && Field(file.yaml, "rsync_path").Some?)
      && (r.Success? ==>
            && r.value.cwd == root
            && Some(r.value.projectName) == Field(file.yaml, "project_name")
            && Some(r.value.rsyncPath) == Field(file.yaml, "rsync_path")
            && IsOr(r.value.remote, Field(file.yaml, "remote"), YStr(".rx/remotes/default"))
            && IsOr(r.value.shouldSync, Field(file.yaml, "should_sync"), YBool(true))
            && IsOr(r.value.daemonPort, Field(file.yaml, "daemon_port"), YInt(8478)))
  {
  }

  predicate IsOr(v: Yaml, field: Option<Yaml>, default: Yaml) {
    if field.Some? then v == field.value else v == default
  }

  lemma StoredFields(cfg: LocalConfig)
    ensures
      var m := Stored(cfg);
      && "remote" in m && m["remote"] == cfg.remote && "project_name" in m && m["project_name"] == cfg.projectName
      && "rsync_path" in m && m["rsync_path"] == cfg.rsyncPath
      && "should_sync" in m && m["should_sync"] == cfg.shouldSync
      && "daemon_port" in m && m["daemon_port"] == cfg.daemonPort
  {
    assert |"remote"| == 6 && |"project_name"| == 12 && |"rsync_path"| == 10;
    assert |"should_sync"| == 11 && |"daemon_port"| == 11;
    assert "should_sync"[0] == 's' && "daemon_port"[0] == 'd';
  }
}
