/**
 * Properties of the startup sequence: the precedence of the configuration
 * layers, the resolution and classification of the data source, and the
 * order and number of the provider calls.
 */
module BootstrapFacts {
  import opened Wrappers
  import opened Paths
  import opened Config
  import opened Bootstrap

  /** -c was given and loading the file reported an error. */
  predicate LoadFailed(f: Flags, w: World) {
    f.configFile != "" && w.loadConfigFromFile(f.configFile).err.Some?
  }

  /** The same surroundings, except that the environment overlay never reports an error. */
  function Quiet(w: World): World {
    w.(envOverlay := (s: Server) => Returned(w.envOverlay(s).value, None))
  }

  // ----- Configuration layers -----

  /** A load error ends startup at once: no other call is made. */
  lemma LoadErrorStopsStartup(init: Configuration, f: Flags, w: World)
    requires LoadFailed(f, w)
    ensures Startup(init, f, w).outcome == Fatal(ConfigLoadError(w.loadConfigFromFile(f.configFile).err.value))
    ensures Startup(init, f, w).trace == [LoadConfigFromFile(f.configFile)]
  {
  }

  /** With -c, the record held before startup is replaced outright: nothing of it survives. */
  lemma FileReplacesWholeRecord(init1: Configuration, init2: Configuration, f: Flags, w: World)
    requires f.configFile != ""
    ensures Startup(init1, f, w) == Startup(init2, f, w)
  {
  }

  /** An error from the environment overlay changes nothing: it is only logged. */
  lemma EnvErrorIsLoggedOnly(init: Configuration, f: Flags, w: World)
    ensures Startup(init, f, w) == Startup(init, f, Quiet(w))
  {
    var q := Quiet(w);
    var base := FileLayer(init, f, w);
    assert q.envOverlay(base.server).value == w.envOverlay(base.server).value;
  }

  /** Unless the file fails to load, the bind address is the -b and -p values, whatever file or environment said. */
  lemma FlagsFixBindAddress(init: Configuration, f: Flags, w: World)
    requires !LoadFailed(f, w)
    ensures Startup(init, f, w).config.server.bindHost == f.bindHost
    ensures Startup(init, f, w).config.server.bindPort == f.bindPort
  {
  }

  /**
   * The advertised host:port is -s when that is non-empty; otherwise it is
   * whatever the environment overlay left on top of the file or defaults.
   */
  lemma AdvertisedAddress(init: Configuration, f: Flags, w: World)
    requires !LoadFailed(f, w)
    ensures f.serveAddress != "" ==> Startup(init, f, w).config.server.urlHostPort == f.serveAddress
    ensures f.serveAddress == "" ==>
              Startup(init, f, w).config.server.urlHostPort ==
              w.envOverlay(FileLayer(init, f, w).server).value.urlHostPort
  {
  }

  /**
   * No file, no flags and an environment that sets nothing: the server
   * settings stay the defaults, and the working directory is consulted for
   * the (empty) data source.
   */
  lemma DefaultFill(w: World)
    requires w.envOverlay(Defaults.server) == Returned(Defaults.server, None)
    ensures Startup(Defaults, FlagDefaults, w).config.server == Server("", 8080, "")
    ensures Startup(Defaults, FlagDefaults, w).trace[..2] == [EnvOverlay, Getwd]
    ensures w.getwd.err.None? && IsCleanAbs(w.getwd.value) ==>
              Startup(Defaults, FlagDefaults, w).config.providers.data == w.getwd.value
  {
    if w.getwd.err.None? && IsCleanAbs(w.getwd.value) {
      EmptySourceNamesWorkingDir(w);
    }
  }

  /** A non-empty -d makes the record's data source irrelevant. */
  lemma DataFlagOverridesRecord(base1: Configuration, base2: Configuration, f: Flags, w: World, t: seq<Call>)
    requires f.dataSource != ""
    requires base1.server == base2.server
    ensures AfterLoad(base1, f, w, t).outcome == AfterLoad(base2, f, w, t).outcome
    ensures AfterLoad(base1, f, w, t).trace == AfterLoad(base2, f, w, t).trace
  {
  }

  /** With -d empty, the record's data source acts exactly as if it had been given as -d. */
  lemma RecordSourceActsAsFlag(base: Configuration, f: Flags, w: World, t: seq<Call>)
    requires f.dataSource == ""
    ensures AfterLoad(base, f, w, t).outcome == AfterLoad(base, f.(dataSource := base.providers.data), w, t).outcome
    ensures AfterLoad(base, f, w, t).trace == AfterLoad(base, f.(dataSource := base.providers.data), w, t).trace
  {
  }

  // ----- Data-source resolution -----

  /**
   * An absolute source is classified as it is; any other source is first
   * joined onto the working directory, and not knowing that directory ends
   * startup.
   */
  lemma Absolutization(ds: string, w: World)
    ensures IsAbs(ds) ==> Resolve(ds, w) == (Classify(ds, w.notExist, w.defaultGpkg), [Stat(ds)])
    ensures !IsAbs(ds) && w.getwd.err.Some? ==>
              Resolve(ds, w) == (Err(WorkingDirError(w.getwd.err.value)), [Getwd])
    ensures !IsAbs(ds) && w.getwd.err.None? ==>
              Resolve(ds, w).0 == Classify(Join(w.getwd.value, ds), w.notExist, w.defaultGpkg) &&
              Resolve(ds, w).1[0] == Getwd
  {
    if IsAbs(ds) {
      assert [] + [Stat(ds)] == [Stat(ds)];
    }
  }

  /** The relative source `foo.gpkg` under the working directory `/x/y` becomes `/x/y/foo.gpkg`. */
  lemma AbsolutizationExample(w: World)
    requires w.getwd == Returned("/x/y", None)
    ensures Resolve("foo.gpkg", w).1 == [Getwd, Stat("/x/y/foo.gpkg")]
    ensures Resolve("foo.gpkg", w).0.Ok? && Resolve("foo.gpkg", w).0.value.source == "/x/y/foo.gpkg"
  {
    JoinExample();
  }

  /**
   * A connection string (a relative element without slashes) is joined onto
   * the working directory like a file name; when that joined path does not
   * exist, the PostGIS constructor is chosen with no auto-config routine.
   */
  lemma ConnectionStringIsJoined(conn: string, w: World)
    requires IsName(conn)
    requires w.getwd.err.None? && IsCleanAbs(w.getwd.value)
    ensures var wd := w.getwd.value;
            var joined := if wd == "/" then "/" + conn else wd + "/" + conn;
            Resolve(conn, w) ==
              (Ok(if w.notExist(joined) then Selection(joined, None, PostGIS)
                  else Selection(joined, Some(GeoPackage), GeoPackage)),
               [Getwd, Stat(joined)])
  {
    JoinName(w.getwd.value, conn);
    var joined := Join(w.getwd.value, conn);
    assert [Getwd] + [Stat(joined)] == [Getwd, Stat(joined)];
  }

  /**
   * The default GeoPackage search runs exactly when the source is empty and
   * the working directory is reported, without error, as the empty string:
   * joining the empty source onto any other directory is never empty.
   */
  lemma DefaultSearchNeedsEmptyWorkingDir(ds: string, w: World)
    ensures DefaultGpkg in Resolve(ds, w).1 <==> ds == "" && w.getwd == Returned("", None)
  {
  }

  /**
   * An empty source under a clean rooted working directory names that
   * directory itself: it is the directory that is checked and, since it
   * exists, handed to the GeoPackage routines.
   */
  lemma EmptySourceNamesWorkingDir(w: World)
    requires w.getwd.err.None? && IsCleanAbs(w.getwd.value)
    ensures Resolve("", w) == (Classify(w.getwd.value, w.notExist, w.defaultGpkg), [Getwd, Stat(w.getwd.value)])
    ensures !w.notExist(w.getwd.value) ==>
              Resolve("", w).0 == Ok(Selection(w.getwd.value, Some(GeoPackage), GeoPackage))
  {
    JoinEmpty(w.getwd.value);
    assert [Getwd] + [Stat(w.getwd.value)] == [Getwd, Stat(w.getwd.value)];
  }

  // ----- Provider bootstrap -----

  /** Every call the resolution or the earlier layers make happens before auto-config. */
  predicate Preliminary(c: Call) {
    !c.AutoConfig? && !c.NewTileProvider?
  }

  /** The tail of AfterLoad: the calls before provisioning are all preliminary. */
  lemma AfterLoadShape(base: Configuration, f: Flags, w: World, t: seq<Call>)
    requires forall i :: 0 <= i < |t| ==> Preliminary(t[i])
    ensures var run := AfterLoad(base, f, w, t);
            var merged := Configuration(FlagLayer(w.envOverlay(base.server).value, f), base.providers);
            var resolved := Resolve(ChosenSource(f.dataSource, merged.providers.data), w);
            var pre := t + [EnvOverlay] + resolved.1;
            (forall i :: 0 <= i < |pre| ==> Preliminary(pre[i])) &&
            match resolved.0
            case Err(e) => run == Launch(Fatal(e), merged, pre)
            case Ok(s) =>
              run.trace == pre + Provide(s, w).1 && run.outcome == Provide(s, w).0 &&
              run.config.providers.data == s.source
  {
  }

  /** Startup's calls before provisioning are all preliminary, and provisioning follows Provide. */
  lemma StartupShape(init: Configuration, f: Flags, w: World)
    requires !LoadFailed(f, w)
    ensures var t := if f.configFile != "" then [LoadConfigFromFile(f.configFile)] else [];
            Startup(init, f, w) == AfterLoad(FileLayer(init, f, w), f, w, t) &&
            forall i :: 0 <= i < |t| ==> Preliminary(t[i])
  {
  }

  /**
   * The provider constructor is called at most once, as the last call, right
   * after an auto-config call that succeeded and gave it its settings; the
   * resolved source is in the record before auto-config runs.
   */
  lemma SingleConstruction(init: Configuration, f: Flags, w: World)
    ensures var run := Startup(init, f, w);
            forall i :: 0 <= i < |run.trace| && run.trace[i].NewTileProvider? ==>
              i == |run.trace| - 1 && i > 0 && run.trace[i - 1].AutoConfig? &&
              AutoConfigRoutine(w, run.trace[i - 1].kind)(run.trace[i - 1].source) ==
                Returned(run.trace[i].settings, None)
    ensures var run := Startup(init, f, w);
            forall i :: 0 <= i < |run.trace| && run.trace[i].AutoConfig? ==>
              run.config.providers.data == run.trace[i].source && i >= |run.trace| - 2
    ensures var run := Startup(init, f, w);
            run.outcome.Started? ==>
              |run.trace| >= 2 && run.trace[|run.trace| - 1] == NewTileProvider(run.outcome.kind, run.trace[|run.trace| - 1].settings)
  {
    if !LoadFailed(f, w) {
      var t := if f.configFile != "" then [LoadConfigFromFile(f.configFile)] else [];
      var base := FileLayer(init, f, w);
      StartupShape(init, f, w);
      AfterLoadShape(base, f, w, t);
    }
  }

  /**
   * An auto-config call whose routine reports an error is the last call: the
   * run ends in AutoConfigError for that source and cause, and the
   * constructor never runs.
   */
  lemma AutoConfigFailureStops(init: Configuration, f: Flags, w: World)
    ensures var run := Startup(init, f, w);
            var t := run.trace;
            forall i :: 0 <= i < |t| && t[i].AutoConfig? && AutoConfigRoutine(w, t[i].kind)(t[i].source).err.Some? ==>
              i == |t| - 1 &&
              run.outcome == Fatal(AutoConfigError(t[i].source, AutoConfigRoutine(w, t[i].kind)(t[i].source).err.value)) &&
              forall j :: 0 <= j < |t| ==> !t[j].NewTileProvider?
  {
    if LoadFailed(f, w) {
      return;
    }
    var t := if f.configFile != "" then [LoadConfigFromFile(f.configFile)] else [];
    StartupShape(init, f, w);
    AfterLoadShape(FileLayer(init, f, w), f, w, t);
  }

  /**
   * Once a GeoPackage selection is made, its two routines decide the end:
   * an auto-config error, a constructor error, or a start with the
   * constructor's handle for the selected source.
   */
  lemma GeoPackageProvision(init: Configuration, f: Flags, w: World, s: Selection)
    requires !LoadFailed(f, w)
    requires Resolve(ChosenSource(f.dataSource, FileLayer(init, f, w).providers.data), w).0 == Ok(s)
    requires s.autoconfig == Some(GeoPackage)
    ensures var ac := w.gpkgAutoConfig(s.source);
            var p := w.gpkgNewTileProvider(ac.value);
            Startup(init, f, w).outcome ==
              if ac.err.Some? then Fatal(AutoConfigError(s.source, ac.err.value))
              else if p.err.Some? then Fatal(ProviderCreationError(s.source, p.err.value))
              else Started(GeoPackage, s.source, p.value)
    ensures Startup(init, f, w).config.providers.data == s.source
  {
    var t := if f.configFile != "" then [LoadConfigFromFile(f.configFile)] else [];
    StartupShape(init, f, w);
    AfterLoadShape(FileLayer(init, f, w), f, w, t);
  }

  /**
   * The PostGIS path never starts: its auto-config routine is never
   * assigned, so a source that does not exist ends in NilAutoConfig after
   * being written to the record, and the PostGIS auto-config is never called.
   */
  lemma PostgisNeverStarts(init: Configuration, f: Flags, w: World)
    ensures var run := Startup(init, f, w);
            run.outcome.Started? ==> run.outcome.kind == GeoPackage
    ensures var run := Startup(init, f, w);
            forall i :: 0 <= i < |run.trace| && run.trace[i].AutoConfig? ==> run.trace[i].kind == GeoPackage
    ensures var run := Startup(init, f, w);
            forall i :: 0 <= i < |run.trace| && run.trace[i].Stat? && w.notExist(run.trace[i].path) ==>
              run.outcome == Fatal(NilAutoConfig(run.trace[i].path)) && run.config.providers.data == run.trace[i].path
  {
    if !LoadFailed(f, w) {
      var t := if f.configFile != "" then [LoadConfigFromFile(f.configFile)] else [];
      var base := FileLayer(init, f, w);
      StartupShape(init, f, w);
      AfterLoadShape(base, f, w, t);
    }
  }

  /**
   * Startup ends with no data source exactly when resolution produced the
   * empty path and the default search found nothing; no provider routine
   * is called then.
   */
  lemma NoDataSourceStops(init: Configuration, f: Flags, w: World)
    requires Startup(init, f, w).outcome == Fatal(NoDataSource)
    ensures w.defaultGpkg == ""
    ensures var t := Startup(init, f, w).trace;
            |t| > 0 && t[|t| - 1] == DefaultGpkg && forall i :: 0 <= i < |t| ==> Preliminary(t[i])
  {
    var t := if f.configFile != "" then [LoadConfigFromFile(f.configFile)] else [];
    StartupShape(init, f, w);
    AfterLoadShape(FileLayer(init, f, w), f, w, t);
  }
}
