# Startup of the jivan feature server, in Dafny

This project models the startup sequence of jivan, a WFS3 geospatial
feature server: the `main()` function of `main.go`. Startup has two jobs.

1. **Layered configuration.** The process-wide configuration record
   (`Server.BindHost`, `Server.BindPort`, `Server.URLHostPort`,
   `Providers.Data`) starts from built-in defaults. With `-c`, the whole
   record is replaced by the loaded file, and a load error ends the process.
   An environment overlay is then applied to `Server`; its error is only
   logged. Finally the flags: `-b` and `-p` always overwrite the bind
   address, `-s` overwrites the advertised host:port only when non-empty,
   and the data source is `-d` when non-empty, else the record's
   `Providers.Data`.
2. **Data source and provider.** A source that is not absolute (the empty
   one included) is joined onto the working directory. A non-empty source
   whose stat reports "does not exist" is taken for a PostGIS connection
   string; anything else is a GeoPackage file. An empty source falls back
   to the default GeoPackage search. The resolved source is written back to
   the record, then auto-config runs and then the provider constructor.
   Every failure is fatal.

Modules:

- `Wrappers` (`wrappers.dfy`): `Option`, and `Returned`, the `(value, error)`
  pair a Go call hands back.
- `Paths` (`paths.dfy`): `IsAbs`, `Join` and the lexical cleaning `Join`
  applies. Cleaning is modelled on path elements, following the documented
  rules of Go's `path` package.
- `Config` (`config.dfy`): the configuration record, its defaults, and
  `ConfigStore`, the mutable holder of the record.
- `Bootstrap` (`bootstrap.dfy`): `World`, which holds everything outside the
  process (the file loader, the environment overlay, the working directory,
  the stat check, the default search, the auto-config and constructor
  routines). It also holds the specification of startup as functions
  (`Startup`, `AfterLoad`, `Resolve`, `Classify`, `Provide`) and the
  imperative methods `Run` and `ResolveDataSource`. These follow `main()`
  statement by statement, and their postconditions tie them to the
  specification functions.
- `BootstrapFacts` (`bootstrap_facts.dfy`): the properties of startup.

Each outside call is recorded in a trace (`seq<Call>`). The trace is how the
model states which calls happen, in what order, and how often.

## Behaviour of the code that its comments do not suggest

The model follows the code. In these places the code behaves differently
from what its comments suggest: the configuration notes at main.go:65-70
promise a default search, and the commented-out assignment at main.go:110
leaves PostGIS half wired:

- **The default search is practically unreachable.** The comment at
  main.go:69-70 promises a search when no data source is given. But the
  empty source is not absolute, so it is first joined onto the working
  directory, and `Join(wd, "")` is `wd`. The search at main.go:117-121
  therefore runs only when the working directory is reported as the empty
  string (`DefaultSearchNeedsEmptyWorkingDir`). Under a normal working
  directory, an empty source names the directory itself, which exists, so
  it goes to the GeoPackage routines (`EmptySourceNamesWorkingDir`).
- **Connection strings are joined too.** A PostGIS connection string is not
  absolute, so it is joined onto the working directory before it is
  classified (`ConnectionStringIsJoined`).
- **PostGIS never starts.** The PostGIS auto-config assignment is commented
  out (main.go:110), so the call at main.go:127 is on a nil function. Every
  PostGIS selection ends in `NilAutoConfig` (`PostgisNeverStarts`).
- **The default fill leaves no empty data source.** With no file, no
  environment and no flags, the server fields keep their defaults. But the
  data source written back is the joined working directory, not the empty
  string (`DefaultFill`, under a clean rooted working directory).
- **A failed environment overlay may have changed fields.** The overlay
  works on the record in place, so the model lets it return the record as
  it stands after the attempt. The record is unchanged only if the overlay
  leaves it untouched on error.
- **The file's record is assigned even when loading fails** (main.go:73 is
  a tuple assignment). The model keeps it in the final state of a
  `ConfigLoadError` run.
- **Any stat error other than "does not exist" counts as a file.** Only
  `os.IsNotExist` selects PostGIS (main.go:108). `World.notExist` is
  exactly that test.

## Model

| member | source | states |
|---|---|---|
| `Paths.IsAbs` | main.go:96 | a path is absolute when it begins with a slash (Go's `path.IsAbs`); the empty source is never absolute, which is why it is joined onto the working directory (`DefaultSearchNeedsEmptyWorkingDir`, `EmptySourceNamesWorkingDir`) |
| `Paths.Clean` | main.go:101 | cleaning never yields the empty string, and its result is rooted exactly when its input is |
| `Paths.Join` | main.go:101 | the join is empty exactly when both parts are empty; it is rooted exactly when the directory is rooted, or the directory is empty and the element is rooted |
| `Paths.CleanCleanAbs` | main.go:101 | a clean rooted path is a fixed point of cleaning |
| `Paths.JoinName` | main.go:96-102 | joining a plain name onto a clean rooted directory appends it after one slash, and the result is clean and rooted again |
| `Paths.JoinEmpty` | main.go:96-102 | joining the empty source onto a clean rooted directory gives that directory |
| `Paths.JoinExample` | main.go:96-102 | `foo.gpkg` under `/x/y` becomes `/x/y/foo.gpkg` |
| `Config.ConfigStore.constructor` | main.go:66 | the record starts as the defaults: port 8080, every string empty |
| `Bootstrap.FileLayer` | main.go:72-77 | without `-c` the record held before is kept; with `-c` the loaded file's record replaces it as a whole (also `FileReplacesWholeRecord`, `LoadErrorStopsStartup`) |
| `Bootstrap.FlagLayer` | main.go:84-89 | `-b` and `-p` always set the bind address; `-s` replaces the advertised host:port only when non-empty, so that field ends empty exactly when `-s` and the earlier value are both empty (also `FlagsFixBindAddress`, `AdvertisedAddress`) |
| `Bootstrap.ChosenSource` | main.go:92-94 | `-d` wins when non-empty, otherwise the record's source is used; the choice is empty exactly when both are (also `DataFlagOverridesRecord`, `RecordSourceActsAsFlag`) |
| `Bootstrap.Absolutize` | main.go:96-102 | fails exactly when the source is not absolute and the working directory is unknown; the result is empty only when source and working directory are both empty; it is absolute when the source or the working directory is |
| `Bootstrap.Classify` | main.go:104-124 | succeeds exactly when the source or the default is non-empty; the empty source is replaced by the default; PostGIS is chosen exactly for a non-empty source that does not exist; exactly the PostGIS choice has no auto-config; any auto-config is the GeoPackage one |
| `Bootstrap.Resolve` | main.go:96-124 | resolution makes only working-directory, stat and default-search calls, and a selected source is never empty |
| `Bootstrap.Provide` | main.go:127-135 | a nil auto-config is fatal before any call; an assigned auto-config is always called first, on the source; its error ends the run in `AutoConfigError` for that source and cause with no further call; its success leads to one constructor call, of the selected kind, on its settings; the constructor's error ends in `ProviderCreationError`, and its success starts the provider with the constructor's handle, kind and source |
| `Bootstrap.AfterLoad` | main.go:79-135 | the calls made so far are kept and the environment overlay comes next; the final server record is the flag layer over the overlaid one; a started provider's source is the one written back to the record (also `AfterLoadShape`) |
| `Bootstrap.Startup` | main.go:49-135 | startup always makes a call, and its first call loads a file exactly when `-c` is given; once a provider starts, the bind address is the flags' and the record's data source is the provider's source; `Run` is proved to end in it, and every `BootstrapFacts` lemma is about it |
| `Bootstrap.ResolveDataSource` | main.go:96-124 | the step-by-step reassignment of the data source and the routine variables ends in the selection and calls of `Resolve` |
| `Bootstrap.Run` | main.go:49-135 | running `main()` on the store leaves the outcome, record and calls that `Startup` gives for the record held before |
| `BootstrapFacts.LoadErrorStopsStartup` | main.go:72-77 | a load error is fatal and no call follows the load |
| `BootstrapFacts.FileReplacesWholeRecord` | main.go:72-77 | with `-c`, the result does not depend on the record held before startup |
| `BootstrapFacts.EnvErrorIsLoggedOnly` | main.go:79-82 | startup with a failing environment overlay ends exactly as with the same overlay reporting no error |
| `BootstrapFacts.FlagsFixBindAddress` | main.go:84-85 | unless loading fails, the final bind host and port are the `-b` and `-p` values |
| `BootstrapFacts.AdvertisedAddress` | main.go:87-89 | the advertised host:port is `-s` when non-empty, otherwise the value the environment layer left over the file or defaults |
| `BootstrapFacts.DefaultFill` | main.go:57-58 | with no file, no flags and an environment that sets nothing, the server settings are `""`, 8080, `""`, the working directory is consulted next, and under a clean rooted working directory the data source written back is that directory |
| `BootstrapFacts.DataFlagOverridesRecord` | main.go:92-94 | a non-empty `-d` makes the record's data source irrelevant to the outcome and calls |
| `BootstrapFacts.RecordSourceActsAsFlag` | main.go:92-94 | with `-d` empty, the record's data source behaves exactly as if given as `-d` |
| `BootstrapFacts.Absolutization` | main.go:96-102 | an absolute source is classified unchanged without asking for the working directory; any other source is classified as joined onto the working directory, and an unknown working directory is fatal right after the request |
| `BootstrapFacts.AbsolutizationExample` | main.go:96-108 | with working directory `/x/y`, the source `foo.gpkg` is checked and selected as `/x/y/foo.gpkg` |
| `BootstrapFacts.ConnectionStringIsJoined` | main.go:96-111 | a slash-free relative connection string is joined onto the working directory and checked there; if that path does not exist, PostGIS is chosen with no auto-config |
| `BootstrapFacts.DefaultSearchNeedsEmptyWorkingDir` | main.go:117-121 | the default search runs exactly when the source is empty and the working directory is reported, without error, as empty |
| `BootstrapFacts.EmptySourceNamesWorkingDir` | main.go:92-116 | under a clean rooted working directory, an empty source is the directory itself, which gets the GeoPackage routines when it exists |
| `BootstrapFacts.SingleConstruction` | main.go:125-135 | the constructor is called at most once, as the last call, right after a successful auto-config whose settings it receives; the resolved source is in the record before auto-config; a start ends with the constructor of its kind |
| `BootstrapFacts.AutoConfigFailureStops` | main.go:127-130 | whenever an auto-config call's routine reports an error, that call is the last one, the run ends in `AutoConfigError` for that source and cause, and the constructor never runs |
| `BootstrapFacts.GeoPackageProvision` | main.go:125-135 | after a GeoPackage selection the run ends in `AutoConfigError` if auto-config fails, else in `ProviderCreationError` if the constructor fails, else in `Started(GeoPackage, source, handle)` with the constructor's handle; the source is in the record in every case |
| `BootstrapFacts.PostgisNeverStarts` | main.go:106-111 | only GeoPackage providers start; the PostGIS auto-config is never called; a checked source that does not exist ends in `NilAutoConfig` after it is written to the record |
| `BootstrapFacts.NoDataSourceStops` | main.go:117-124 | "no datasource" happens only after an empty default search, and no provider routine is called |

## Left out

- Flag parsing (main.go:57-63): the parsed values are the input `Flags`; `FlagDefaults` holds the documented defaults.
- The configuration package (its `init()` and `LoadConfigFromFile` with TOML parsing) is not part of this model. The loader is the function `World.loadConfigFromFile`, and the defaults are the documented ones.
- The field mapping of the `JIVAN` environment overlay is a library outside this model: `World.envOverlay` returns the `Server` record after the overlay, plus the error.
- `os.Getwd`, `os.Stat` and the search inside `util.DefaultGpkg` (its order: working directory, then `data/`, then `test_data/`) are filesystem I/O. They are the fields `getwd`, `notExist` and `defaultGpkg` of `World`.
- `Paths.Clean`: modelled by Go's documented cleaning rules on path elements, not by the byte-by-byte implementation of Go's `path` package.
- The GeoPackage and PostGIS auto-config routines and constructors are external providers: they are functions in `World`. The settings map holds its values as text, and the provider handle is an opaque number.
- The wrapping of the provider (main.go:137), `wfs3.GenerateOpenAPIDocument` and `server.StartServer` (main.go:138-140) are left out. They are HTTP serving and I/O after startup.
- Log lines and the text of panic messages are left out. A fatal outcome names the failure, the data source and the cause where the message carries them. A panic and `log.Fatal` are both `Fatal`.
