/**
 * The startup sequence of the feature server: layer the configuration
 * (defaults, optional file, environment, command-line flags), resolve the
 * data source to an absolute path or connection string, pick the provider
 * routines by whether that source exists on disk, then run auto-config and
 * the provider constructor. Every failure except the environment overlay's
 * ends the process.
 *
 * Everything outside the process's own logic (the file loader, the
 * environment, the working directory, the filesystem, the default-file
 * search and the provider routines) is a field of `World`.
 */
module Bootstrap {
  import opened Wrappers
  import opened Paths
  import opened Config

  /** The parsed command line: -b, -p, -s, -d and -c. */
  datatype Flags = Flags(bindHost: string, bindPort: int, serveAddress: string, dataSource: string, configFile: string)

  /** The values of the flags when none is given. */
  const FlagDefaults := Flags("", 8080, "", "", "")

  /** The two provider families: a GeoPackage file or a PostGIS database. */
  datatype Kind = GeoPackage | PostGIS

  /** The key/value settings auto-config produces for a constructor (values kept as text). */
  type Settings = map<string, string>

  /** An opaque, constructed tile provider. */
  type Handle = nat

  /** What the startup sequence asks of its surroundings. */
  datatype World = World(
    loadConfigFromFile: string -> Returned<Configuration>,
    // the environment overlay of the Server record: the record as it stands afterwards
    envOverlay: Server -> Returned<Server>,
    getwd: Returned<string>,
    // true when the stat of the path reports that it does not exist
    notExist: string -> bool,
    // the result of the default GeoPackage search; empty when nothing is found
    defaultGpkg: string,
    gpkgAutoConfig: string -> Returned<Settings>,
    postgisAutoConfig: string -> Returned<Settings>,
    gpkgNewTileProvider: Settings -> Returned<Handle>,
    postgisNewTileProvider: Settings -> Returned<Handle>)

  /** The reasons the process stops during startup. */
  datatype Failure =
    | ConfigLoadError(cause: string)
    | WorkingDirError(cause: string)
    | NoDataSource
    | NilAutoConfig(source: string)  // the auto-config routine was never assigned
    | AutoConfigError(source: string, cause: string)
    | ProviderCreationError(source: string, cause: string)

  datatype Outcome =
    | Started(kind: Kind, source: string, provider: Handle)
    | Fatal(failure: Failure)

  datatype Result<+T> = Ok(value: T) | Err(failure: Failure)

  /** The outside calls the sequence makes, in the order it makes them. */
  datatype Call =
    | LoadConfigFromFile(path: string)
    | EnvOverlay
    | Getwd
    | Stat(path: string)
    | DefaultGpkg
    | AutoConfig(kind: Kind, source: string)
    | NewTileProvider(kind: Kind, settings: Settings)

  /** The end state of one startup: its outcome, the configuration record, and the calls made. */
  datatype Launch = Launch(outcome: Outcome, config: Configuration, trace: seq<Call>)

  /** The routines chosen for a data source; no auto-config routine is the nil function. */
  datatype Selection = Selection(source: string, autoconfig: Option<Kind>, ntp: Kind)

  function AutoConfigRoutine(w: World, k: Kind): string -> Returned<Settings> {
    match k
    case GeoPackage => w.gpkgAutoConfig
    case PostGIS => w.postgisAutoConfig
  }

  function ConstructorRoutine(w: World, k: Kind): Settings -> Returned<Handle> {
    match k
    case GeoPackage => w.gpkgNewTileProvider
    case PostGIS => w.postgisNewTileProvider
  }

  /** The record the environment layer starts from: the loaded file's when -c is given. */
  function FileLayer(init: Configuration, f: Flags, w: World): (r: Configuration)
    ensures f.configFile == "" ==> r == init
    ensures f.configFile != "" ==> r == w.loadConfigFromFile(f.configFile).value
  {
    if f.configFile != "" then w.loadConfigFromFile(f.configFile).value else init
  }

  /** The command-line layer over the Server record. */
  function FlagLayer(s: Server, f: Flags): (r: Server)
    ensures r.bindHost == f.bindHost && r.bindPort == f.bindPort
    ensures r.urlHostPort == (if f.serveAddress == "" then s.urlHostPort else f.serveAddress)
    ensures r.urlHostPort == "" <==> f.serveAddress == "" && s.urlHostPort == ""
  {
    Server(f.bindHost, f.bindPort, if f.serveAddress != "" then f.serveAddress else s.urlHostPort)
  }

  /** The data source before resolution: -d, or the record's when -d is empty. */
  function ChosenSource(flag: string, configured: string): (r: string)
    ensures flag != "" ==> r == flag
    ensures flag == "" ==> r == configured
    ensures r == "" <==> flag == "" && configured == ""
  {
    if flag != "" then flag else configured
  }

  /**
   * A source that is not absolute (the empty one included) is joined onto
   * the working directory; not knowing the working directory is fatal.
   */
  function Absolutize(ds: string, getwd: Returned<string>): (r: Result<string>)
    ensures r.Err? <==> !IsAbs(ds) && getwd.err.Some?
    ensures r.Ok? ==> (r.value == "" <==> ds == "" && getwd.value == "")
    ensures r.Ok? && (IsAbs(ds) || IsAbs(getwd.value)) ==> IsAbs(r.value)
  {
    if IsAbs(ds) then Ok(ds)
    else if getwd.err.Some? then Err(WorkingDirError(getwd.err.value))
    else Ok(Join(getwd.value, ds))
  }

  /**
   * The choice of routines. A non-empty source that does not exist is taken
   * for a PostGIS connection string and gets the PostGIS constructor but no
   * auto-config; any other non-empty source gets the GeoPackage pair. An
   * empty source is replaced by the default GeoPackage with the GeoPackage
   * pair, and if that is empty too there is no data source.
   */
  function Classify(ds: string, notExist: string -> bool, defaultGpkg: string): (r: Result<Selection>)
    ensures r.Ok? <==> ds != "" || defaultGpkg != ""
    ensures r.Err? ==> r.failure == NoDataSource
    ensures r.Ok? ==> r.value.source == (if ds != "" then ds else defaultGpkg)
    ensures r.Ok? ==> (r.value.ntp == PostGIS <==> ds != "" && notExist(ds))
    ensures r.Ok? ==> (r.value.autoconfig.None? <==> r.value.ntp == PostGIS)
    ensures r.Ok? && r.value.autoconfig.Some? ==> r.value.autoconfig.value == GeoPackage
  {
    var autoconfig: Option<Kind> := if ds != "" && !notExist(ds) then Some(GeoPackage) else None;
    var ntp := if ds != "" && notExist(ds) then PostGIS else GeoPackage;
    if ds != "" then Ok(Selection(ds, autoconfig, ntp))
    else if defaultGpkg != "" then Ok(Selection(defaultGpkg, Some(GeoPackage), GeoPackage))
    else Err(NoDataSource)
  }

  /** Resolution of the chosen source to a selection, with the filesystem calls it makes. */
  function Resolve(ds: string, w: World): (r: (Result<Selection>, seq<Call>))
    ensures forall i :: 0 <= i < |r.1| ==> r.1[i].Getwd? || r.1[i].Stat? || r.1[i].DefaultGpkg?
    ensures r.0.Ok? ==> r.0.value.source != ""
  {
    var t0 := if IsAbs(ds) then [] else [Getwd];
    match Absolutize(ds, w.getwd)
    case Err(e) => (Err(e), t0)
    case Ok(p) =>
      var t1 := if p != "" then [Stat(p)] else [DefaultGpkg];
      (Classify(p, w.notExist, w.defaultGpkg), t0 + t1)
  }

  /**
   * Auto-config, then the constructor on its settings. Calling the nil
   * auto-config routine stops the process before anything is called.
   */
  function Provide(s: Selection, w: World): (r: (Outcome, seq<Call>))
    ensures |r.1| <= 2
    ensures s.autoconfig.None? ==> r == (Fatal(NilAutoConfig(s.source)), [])
    ensures |r.1| >= 1 ==> s.autoconfig.Some? && r.1[0] == AutoConfig(s.autoconfig.value, s.source)
    ensures |r.1| == 2 ==>
              r.1[1].NewTileProvider? && r.1[1].kind == s.ntp &&
              AutoConfigRoutine(w, s.autoconfig.value)(s.source) == Returned(r.1[1].settings, None)
    ensures r.0.Started? ==> |r.1| == 2 && r.0.kind == s.ntp && r.0.source == s.source
    ensures r.0.Fatal? && r.0.failure.AutoConfigError? ==> |r.1| == 1
    // an assigned auto-config routine is always called, first, on the source
    ensures s.autoconfig.Some? ==> |r.1| >= 1 && r.1[0] == AutoConfig(s.autoconfig.value, s.source)
    // its error is fatal and nothing else is called
    ensures s.autoconfig.Some? && AutoConfigRoutine(w, s.autoconfig.value)(s.source).err.Some? ==>
              r == (Fatal(AutoConfigError(s.source, AutoConfigRoutine(w, s.autoconfig.value)(s.source).err.value)),
                    [AutoConfig(s.autoconfig.value, s.source)])
    // its success leads to the constructor on its settings
    ensures s.autoconfig.Some? && AutoConfigRoutine(w, s.autoconfig.value)(s.source).err.None? ==>
              |r.1| == 2 && r.1[1] == NewTileProvider(s.ntp, AutoConfigRoutine(w, s.autoconfig.value)(s.source).value)
    // the constructor's error is fatal; otherwise its handle is started
    ensures |r.1| == 2 ==>
              var p := ConstructorRoutine(w, s.ntp)(r.1[1].settings);
              (r.0.Started? <==> p.err.None?) &&
              (p.err.Some? ==> r.0 == Fatal(ProviderCreationError(s.source, p.err.value))) &&
              (p.err.None? ==> r.0 == Started(s.ntp, s.source, p.value))
  {
    match s.autoconfig
    case None => (Fatal(NilAutoConfig(s.source)), [])
    case Some(k) =>
      var dataConfig := AutoConfigRoutine(w, k)(s.source);
      if dataConfig.err.Some? then
        (Fatal(AutoConfigError(s.source, dataConfig.err.value)), [AutoConfig(k, s.source)])
      else
        var provider := ConstructorRoutine(w, s.ntp)(dataConfig.value);
        var t := [AutoConfig(k, s.source), NewTileProvider(s.ntp, dataConfig.value)];
        if provider.err.Some? then (Fatal(ProviderCreationError(s.source, provider.err.value)), t)
        else (Started(s.ntp, s.source, provider.value), t)
  }

  /** Startup from the environment layer on, over the record `base` and the calls `t` made so far. */
  function AfterLoad(base: Configuration, f: Flags, w: World, t: seq<Call>): (r: Launch)
    ensures |r.trace| > |t| && r.trace[..|t|] == t && r.trace[|t|] == EnvOverlay
    ensures r.config.server == FlagLayer(w.envOverlay(base.server).value, f)
    ensures r.outcome.Started? ==> r.config.providers.data == r.outcome.source
  {
    var merged := Configuration(FlagLayer(w.envOverlay(base.server).value, f), base.providers);
    var resolved := Resolve(ChosenSource(f.dataSource, merged.providers.data), w);
    var t' := t + [EnvOverlay] + resolved.1;
    match resolved.0
    case Err(e) => Launch(Fatal(e), merged, t')
    case Ok(s) =>
      var provided := Provide(s, w);
      Launch(provided.0, merged.(providers := merged.providers.(data := s.source)), t' + provided.1)
  }

  /** The whole startup sequence from the record `init` held when it begins. */
  function Startup(init: Configuration, f: Flags, w: World): (r: Launch)
    ensures |r.trace| > 0
    ensures r.trace[0].LoadConfigFromFile? <==> f.configFile != ""
    ensures r.outcome.Started? ==>
              r.config.server.bindHost == f.bindHost && r.config.server.bindPort == f.bindPort &&
              r.config.providers.data == r.outcome.source
  {
    if f.configFile == "" then AfterLoad(init, f, w, [])
    else
      var loaded := w.loadConfigFromFile(f.configFile);
      var t := [LoadConfigFromFile(f.configFile)];
      if loaded.err.Some? then Launch(Fatal(ConfigLoadError(loaded.err.value)), loaded.value, t)
      else AfterLoad(loaded.value, f, w, t)
  }

  /**
   * The data-source resolution of `main()`, as the process runs it: the
   * local data source and the two routine variables are reassigned step by
   * step.
   */
  method ResolveDataSource(chosen: string, w: World) returns (sel: Result<Selection>, trace: seq<Call>)
    ensures (sel, trace) == Resolve(chosen, w)
  {
    var dataSource := chosen;
    trace := [];
    if !IsAbs(dataSource) {
      var wd := w.getwd;
      trace := trace + [Getwd];
      if wd.err.Some? {
        assert Absolutize(chosen, w.getwd) == Err(WorkingDirError(wd.err.value));
        assert trace == [Getwd];
        assert Resolve(chosen, w) == (Err(WorkingDirError(wd.err.value)), [Getwd]);
        return Err(WorkingDirError(wd.err.value)), trace;
      }
      dataSource := Join(wd.value, dataSource);
    }
    assert Absolutize(chosen, w.getwd) == Ok(dataSource);

    var autoconfig: Option<Kind> := None;
    var ntp: Option<Kind> := None;
    if dataSource != "" {
      trace := trace + [Stat(dataSource)];
      if w.notExist(dataSource) {
        ntp := Some(PostGIS);
      } else {
        autoconfig := Some(GeoPackage);
        ntp := Some(GeoPackage);
      }
    }
    if dataSource == "" {
      trace := trace + [DefaultGpkg];
      dataSource := w.defaultGpkg;
      autoconfig := Some(GeoPackage);
      ntp := Some(GeoPackage);
    }
    if dataSource == "" {
      return Err(NoDataSource), trace;
    }
    sel := Ok(Selection(dataSource, autoconfig, ntp.value));
  }

  /**
   * The startup sequence as the process runs it: the store is replaced,
   * overlaid and written field by field. It ends in the state `Startup`
   * describes.
   */
  method Run(store: ConfigStore, f: Flags, w: World) returns (outcome: Outcome, trace: seq<Call>)
    modifies store
    ensures Startup(old(store.Value()), f, w) == Launch(outcome, store.Value(), trace)
  {
    var dataSource := f.dataSource;
    trace := [];

    if f.configFile != "" {
      var loaded := w.loadConfigFromFile(f.configFile);
      trace := trace + [LoadConfigFromFile(f.configFile)];
      store.server, store.providers := loaded.value.server, loaded.value.providers;
      if loaded.err.Some? {
        return Fatal(ConfigLoadError(loaded.err.value)), trace;
      }
    }
    ghost var base := store.Value();
    ghost var t0 := trace;
    assert Startup(old(store.Value()), f, w) == AfterLoad(base, f, w, t0);

    // A failed overlay is only logged.
    var env := w.envOverlay(store.server);
    trace := trace + [EnvOverlay];
    store.server := env.value;

    store.server := store.server.(bindHost := f.bindHost);
    store.server := store.server.(bindPort := f.bindPort);
    if f.serveAddress != "" {
      store.server := store.server.(urlHostPort := f.serveAddress);
    }

    if dataSource == "" {
      dataSource := store.providers.data;
    }
    ghost var merged := store.Value();
    assert merged == Configuration(FlagLayer(w.envOverlay(base.server).value, f), base.providers);
    assert dataSource == ChosenSource(f.dataSource, merged.providers.data);

    var sel, calls := ResolveDataSource(dataSource, w);
    trace := trace + calls;
    assert trace == t0 + [EnvOverlay] + calls;
    if sel.Err? {
      return Fatal(sel.failure), trace;
    }
    var s := sel.value;
    store.providers := store.providers.(data := s.source);

    if s.autoconfig.None? {
      return Fatal(NilAutoConfig(s.source)), trace;
    }
    var dataConfig := AutoConfigRoutine(w, s.autoconfig.value)(s.source);
    trace := trace + [AutoConfig(s.autoconfig.value, s.source)];
    if dataConfig.err.Some? {
      return Fatal(AutoConfigError(s.source, dataConfig.err.value)), trace;
    }

    var dataProvider := ConstructorRoutine(w, s.ntp)(dataConfig.value);
    trace := trace + [NewTileProvider(s.ntp, dataConfig.value)];
    if dataProvider.err.Some? {
      return Fatal(ProviderCreationError(s.source, dataProvider.err.value)), trace;
    }
    outcome := Started(s.ntp, s.source, dataProvider.value);
  }
}
