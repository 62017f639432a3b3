/**
 * `StandardMetadata.from_pyproject`: the decisions taken while reading a decoded
 * `pyproject.toml` document into a locked record.
 *
 * Every check records its error through a collector and reading goes on with a
 * default; the record itself is built in one step that stops at the first failing
 * extractor, and the record is only returned when nothing at all was recorded.
 */
module Ingest {
  import opened Wrappers
  import opened Toml
  import opened Errors
  import opened Markers
  import opened Pyproject
  import opened MetadataRecord
  import Validation
  import Record
  import Constants

  /** The members of the `Validate` flag set. */
  datatype ValidateFlag = ValidateTopLevel | ValidateBuildSystem | ValidateProject | ValidateWarn

  /** `Validate.ALL` */
  const ValidateAll: set<ValidateFlag> := {ValidateTopLevel, ValidateBuildSystem, ValidateProject}

  /** `Validate.WARN`, the default of `from_pyproject`. */
  const ValidateDefault: set<ValidateFlag> := {ValidateWarn}

  /** The library's parsers for requirements, versions and specifier sets; `None` when the text does not parse. */
  datatype Parsers = Parsers(
    requirement: string -> Option<Requirement>,
    version: string -> Option<Version>,
    specifier: string -> Option<Specifier>)

  /** The keyword arguments of `from_pyproject` other than the document and the directory. */
  datatype Options = Options(
    metadataVersion: Option<string>,
    dynamicMetadata: Option<seq<string>>,
    validate: set<ValidateFlag>,
    allErrors: bool)

  /** What `from_pyproject` gives: what was reported, and the record when nothing went wrong. */
  datatype Outcome = Outcome(report: Report, record: Option<Metadata>)

  function ScopeFlag(scope: Scope): ValidateFlag {
    match scope
    case TopLevelScope => ValidateTopLevel
    case BuildSystemScope => ValidateBuildSystem
    case ProjectScope => ValidateProject
  }

  /**
   * The guard `Validate.X | Validate.WARN & validate`, which binds as
   * `X | (WARN & validate)` and so always holds.
   */
  function ScopeGuard(scope: Scope, validate: set<ValidateFlag>): (r: bool)
    ensures r
  {
    {ScopeFlag(scope)} + ({ValidateWarn} * validate) != {}
  }

  /** Unknown keys of one scope: an error if the scope is validated, else a warning under `WARN`, else nothing. */
  function ExtraKeysEvents(scope: Scope, extra: set<string>, validate: set<ValidateFlag>): (r: seq<Event>)
    ensures extra != {} && ScopeFlag(scope) in validate ==> r == [Raise(Unkeyed)]
    ensures extra != {} && ScopeFlag(scope) !in validate && ValidateWarn in validate ==> r == [Warn(ExtraKeys(scope, extra))]
    ensures extra == {} || (ScopeFlag(scope) !in validate && ValidateWarn !in validate) ==> r == []
  {
    if !ScopeGuard(scope, validate) || extra == {} then []
    else if ScopeFlag(scope) in validate then [Raise(Unkeyed)]
    else if ValidateWarn in validate then [Warn(ExtraKeys(scope, extra))]
    else []
  }

  /** The document's shape as its type declares it: `project` and `build-system`, when present, are tables. */
  predicate WellTyped(data: seq<(string, Value)>) {
    && (Get(data, "project").Some? ==> Get(data, "project").value.Table?)
    && (Get(data, "build-system").Some? ==> Get(data, "build-system").value.Table?)
  }

  function BuildSystemKeys(data: seq<(string, Value)>): set<string>
    requires WellTyped(data)
  {
    var bs: Option<Value> := Get(data, "build-system");
    if bs.None? then {} else Keys(bs.value.entries)
  }

  /** The three unknown-key checks, top level first. */
  function ScopeEvents(data: seq<(string, Value)>, project: seq<(string, Value)>, validate: set<ValidateFlag>): seq<Event>
    requires WellTyped(data)
  {
    ExtraKeysEvents(TopLevelScope, Keys(data) - Constants.KnownToplevelFields, validate)
    + ExtraKeysEvents(BuildSystemScope, BuildSystemKeys(data) - Constants.KnownBuildSystemFields, validate)
    + ExtraKeysEvents(ProjectScope, Keys(project) - Constants.KnownProjectFields, validate)
  }

  /** One error per dynamic field that the project table defines anyway, in the order of `dynamic`. */
  function DefinedDynamic(project: seq<(string, Value)>, dynamic: seq<string>): (r: seq<Event>)
    ensures forall f :: f in dynamic && f in Keys(project) ==> KeyedError(f) in ErrorsOf(r)
    ensures forall i :: 0 <= i < |r| ==> r[i].Raise? && exists f :: f in dynamic && f in Keys(project) && r[i].error == KeyedError(f)
  {
    if |dynamic| == 0 then []
    else
      var init := DefinedDynamic(project, dynamic[..|dynamic| - 1]);
      var f := dynamic[|dynamic| - 1];
      var r := init + (if f in Keys(project) then [Raise(KeyedError(f))] else []);
      ErrorsOfAppend(init, if f in Keys(project) then [Raise(KeyedError(f))] else []);
      assert forall g :: g in dynamic ==> g in dynamic[..|dynamic| - 1] || g == f;
      r
  }

  /** A stage's recorded events and the value reading goes on with. */
  datatype Stage<T> = Stage(events: seq<Event>, value: T)

  /** `get_dynamic`, going on with no dynamic fields when it fails. */
  function DynamicStage(project: seq<(string, Value)>): Stage<seq<string>> {
    match GetDynamic(project)
    case Failure(e) => Stage([Raise(e)], [])
    case Success(d) => Stage(DefinedDynamic(project, d), d)
  }

  /** `name`: missing is an error keyed `name`; the value defaults to `UNKNOWN`. */
  function NameStage(project: seq<(string, Value)>): (r: Stage<string>)
    ensures ErrorsOf(r.events) == [] ==> Get(project, "name") == Some(Str(r.value))
    ensures Get(project, "name").None? ==> r == Stage([Raise(KeyedError("name"))], "UNKNOWN")
  {
    var raw := Get(project, "name");
    if raw.None? then Stage([Raise(KeyedError("name"))], "UNKNOWN")
    else
      match EnsureStr(raw, "project.name")
      case Failure(e) => Stage([Raise(e)], "UNKNOWN")
      case Success(s) => Stage([], s.value)
  }

  /**
   * `version`: a string is parsed, except that the empty string gives no version; a
   * missing version is an error unless it is dynamic. The value defaults to `0.0.0`.
   */
  function VersionStage(project: seq<(string, Value)>, dynamic: seq<string>, parse: string -> Option<Version>)
    : (r: Stage<Option<Version>>)
    ensures Get(project, "version") == Some(Str("")) ==> r == Stage([], None)
    ensures Get(project, "version").None? && "version" !in dynamic ==> ErrorsOf(r.events) == [KeyedError("version")]
    ensures Get(project, "version").None? && "version" in dynamic ==> r == Stage([], Some(Version("0.0.0")))
    ensures ErrorsOf(r.events) == [] && Get(project, "version").Some? ==>
      exists s :: Get(project, "version") == Some(Str(s))
        && r.value == (if s == "" then None else parse(s))
        && (s != "" ==> r.value.Some?)
  {
    var default := Some(Version("0.0.0"));
    var raw := Get(project, "version");
    if raw.Some? then
      match EnsureStr(raw, "project.version")
      case Failure(e) => Stage([Raise(e)], default)
      case Success(s) =>
        if s.value == "" then Stage([], None)
        else if parse(s.value).None? then Stage([Raise(Unkeyed)], default)
        else Stage([], parse(s.value))
    else if "version" !in dynamic then Stage([Raise(KeyedError("version"))], default)
    else Stage([], default)
  }

  /** `description`: a string or nothing. */
  function DescriptionStage(project: seq<(string, Value)>): (r: Stage<Option<string>>)
    ensures ErrorsOf(r.events) == [] ==> (r.value.None? <==> Get(project, "description").None?)
    ensures r.value.Some? ==> Get(project, "description") == Some(Str(r.value.value))
  {
    match EnsureStr(Get(project, "description"), "project.description")
    case Failure(e) => Stage([Raise(e)], None)
    case Success(s) => Stage([], s)
  }

  /** `requires-python`: a string parsed as a specifier set, or nothing. */
  function RequiresPythonStage(project: seq<(string, Value)>, parse: string -> Option<Specifier>)
    : (r: Stage<Option<Specifier>>)
    ensures r.value.Some? ==> exists s :: Get(project, "requires-python") == Some(Str(s)) && parse(s) == r.value
    ensures Get(project, "requires-python").None? ==> r == Stage([], None)
  {
    var raw := Get(project, "requires-python");
    if raw.None? then Stage([], None)
    else
      match EnsureStr(raw, "project.requires-python")
      case Failure(e) => Stage([Raise(e)], None)
      case Success(s) =>
        if parse(s.value).None? then Stage([Raise(Unkeyed)], None) else Stage([], parse(s.value))
  }

  /** The values read before the record is built. */
  datatype Prelude = Prelude(
    name: string,
    version: Option<Version>,
    description: Option<string>,
    requiresPython: Option<Specifier>,
    dynamic: seq<string>)

  /**
   * The record the extractors build, in the order the arguments are evaluated; the
   * first failing extractor stops the construction.
   */
  function Construct(project: seq<(string, Value)>, fs: FileSystem, parsers: Parsers, pre: Prelude, opts: Options)
    : (r: Result<Metadata>)
    ensures r.Success? ==>
      && r.value.name == pre.name && r.value.version == pre.version
      && r.value.description == pre.description && r.value.requiresPython == pre.requiresPython
      && r.value.dynamic == pre.dynamic
      && r.value.metadataVersion == opts.metadataVersion
      && r.value.allErrors == opts.allErrors
      && GetLicense(project, fs) == Success(r.value.license)
      && GetReadme(project, fs) == Success(r.value.readme)
      && DependenciesSpec(project, parsers.requirement) == Success(r.value.dependencies)
      && OptionalDependenciesSpec(project, parsers.requirement) == Success(r.value.optionalDependencies)
      && EntrypointsSpec(project) == Success(r.value.entrypoints)
      && GetLicenseFiles(project, fs) == Success(r.value.licenseFiles)
      && EnsurePeople(GetOr(project, "authors", List([])), "project.authors") == Success(r.value.authors)
      && EnsurePeople(GetOr(project, "maintainers", List([])), "project.maintainers") == Success(r.value.maintainers)
      && EnsureDictSpec(Some(GetOr(project, "urls", Table([]))), "project.urls") == Success(r.value.urls)
      && EnsureListSpec(Some(GetOr(project, "classifiers", List([]))), "project.classifiers").Success?
      && r.value.classifiers == EnsureListSpec(Some(GetOr(project, "classifiers", List([]))), "project.classifiers").value.GetOr([])
      && EnsureListSpec(Some(GetOr(project, "keywords", List([]))), "project.keywords").Success?
      && r.value.keywords == EnsureListSpec(Some(GetOr(project, "keywords", List([]))), "project.keywords").value.GetOr([])
      && EnsureDictSpec(Some(GetOr(project, "scripts", Table([]))), "project.scripts") == Success(r.value.scripts)
      && EnsureDictSpec(Some(GetOr(project, "gui-scripts", Table([]))), "project.gui-scripts") == Success(r.value.guiScripts)
      && r.value.dynamicMetadata == opts.dynamicMetadata.GetOr([])
  {
    var license :- GetLicense(project, fs);
    var licenseFiles :- GetLicenseFiles(project, fs);
    var readme :- GetReadme(project, fs);
    var dependencies :- DependenciesSpec(project, parsers.requirement);
    var optionalDependencies :- OptionalDependenciesSpec(project, parsers.requirement);
    var entrypoints :- EntrypointsSpec(project);
    var authors :- EnsurePeople(GetOr(project, "authors", List([])), "project.authors");
    var maintainers :- EnsurePeople(GetOr(project, "maintainers", List([])), "project.maintainers");
    var urls :- EnsureDictSpec(Some(GetOr(project, "urls", Table([]))), "project.urls");
    var classifiers :- EnsureListSpec(Some(GetOr(project, "classifiers", List([]))), "project.classifiers");
    var keywords :- EnsureListSpec(Some(GetOr(project, "keywords", List([]))), "project.keywords");
    var scripts :- EnsureDictSpec(Some(GetOr(project, "scripts", Table([]))), "project.scripts");
    var guiScripts :- EnsureDictSpec(Some(GetOr(project, "gui-scripts", Table([]))), "project.gui-scripts");
    Success(Metadata(
      pre.name, pre.version, pre.description, license, licenseFiles, readme, pre.requiresPython,
      dependencies, optionalDependencies, entrypoints, authors, maintainers, urls,
      classifiers.GetOr([]), keywords.GetOr([]), scripts, guiScripts, pre.dynamic,
      opts.dynamicMetadata.GetOr([]), opts.metadataVersion, opts.allErrors))
  }

  /**
   * What the construction step records: the failing extractor's error, or else the
   * record's own validation (with warnings).
   */
  function AfterBuild(built: Result<Metadata>): (r: Stage<Option<Metadata>>)
    ensures r.value.Some? <==> built.Success?
    ensures built.Success? ==> r == Stage(Validation.ValidateEvents(built.value, true), Some(built.value))
    ensures built.Failure? ==> ErrorsOf(r.events) == [built.error]
  {
    match built
    case Failure(e) =>
      assert ErrorsOf([Raise(e)]) == [e];
      Stage([Raise(e)], None)
    case Success(md) => Stage(Validation.ValidateEvents(md, true), Some(md))
  }

  /** The construction step: the extractor chain, then the record's own validation. */
  function ConstructStage(project: seq<(string, Value)>, fs: FileSystem, parsers: Parsers, pre: Prelude, opts: Options)
    : (r: Stage<Option<Metadata>>)
    ensures r.value.Some? ==> Construct(project, fs, parsers, pre, opts) == Success(r.value.value)
    ensures r.value.None? ==> ErrorsOf(r.events) != []
  {
    AfterBuild(Construct(project, fs, parsers, pre, opts))
  }

  /** The `[project]` table of a document that has one. */
  function ProjectTable(data: seq<(string, Value)>): seq<(string, Value)>
    requires WellTyped(data) && "project" in Keys(data)
  {
    Get(data, "project").value.entries
  }

  /** The values read, with their defaults, before the record is built. */
  function PreludeOf(project: seq<(string, Value)>, parsers: Parsers): Prelude {
    var dyn := DynamicStage(project);
    Prelude(NameStage(project).value, VersionStage(project, dyn.value, parsers.version).value,
      DescriptionStage(project).value, RequiresPythonStage(project, parsers.specifier).value, dyn.value)
  }

  /** What is recorded before the record is built: unknown keys, then the stages in source order. */
  function PreludeEvents(data: seq<(string, Value)>, parsers: Parsers, opts: Options): seq<Event>
    requires WellTyped(data) && "project" in Keys(data)
  {
    var project := ProjectTable(data);
    var dyn := DynamicStage(project);
    ScopeEvents(data, project, opts.validate) + dyn.events + NameStage(project).events
      + VersionStage(project, dyn.value, parsers.version).events
      + DescriptionStage(project).events + RequiresPythonStage(project, parsers.specifier).events
  }

  /** The construction step of a document with a `[project]` table. */
  function IngestConstruct(data: seq<(string, Value)>, fs: FileSystem, parsers: Parsers, opts: Options)
    : Stage<Option<Metadata>>
    requires WellTyped(data) && "project" in Keys(data)
  {
    var project := ProjectTable(data);
    ConstructStage(project, fs, parsers, PreludeOf(project, parsers), opts)
  }

  /**
   * `from_pyproject`: without a `[project]` table the only error is keyed `project`;
   * otherwise the collector reports everything recorded, and the record comes back
   * exactly when nothing was.
   */
  function FromPyprojectSpec(data: seq<(string, Value)>, fs: FileSystem, parsers: Parsers, opts: Options): (r: Outcome)
    requires WellTyped(data)
    ensures "project" !in Keys(data) ==> r == Outcome(Report([], [KeyedError("project")]), None)
    ensures r.record.Some? <==> r.report.Ok()
    ensures "project" in Keys(data) ==> r.report == Collect(AllEvents(data, fs, parsers, opts), opts.allErrors)
    ensures r.record.Some? ==> "project" in Keys(data) && IngestConstruct(data, fs, parsers, opts).value == r.record
  {
    if "project" !in Keys(data) then Outcome(Report([], [KeyedError("project")]), None)
    else
      var pre := PreludeEvents(data, parsers, opts);
      var cs := IngestConstruct(data, fs, parsers, opts);
      var report := Collect(AllEvents(data, fs, parsers, opts), opts.allErrors);
      ErrorsOfAppend(pre, cs.events);
      Outcome(report, if report.Ok() then cs.value else None)
  }

  /** The extractor chain as the object's construction runs it, stopping at the first failure. */
  method Build(project: seq<(string, Value)>, fs: FileSystem, parsers: Parsers, pre: Prelude, opts: Options)
    returns (r: Result<Metadata>)
    ensures r == Construct(project, fs, parsers, pre, opts)
  {
    var license := GetLicense(project, fs);
    if license.Failure? { return Failure(license.error); }
    var licenseFiles := GetLicenseFiles(project, fs);
    if licenseFiles.Failure? { return Failure(licenseFiles.error); }
    var readme := GetReadme(project, fs);
    if readme.Failure? { return Failure(readme.error); }
    var dependencies := GetDependencies(project, parsers.requirement);
    if dependencies.Failure? { return Failure(dependencies.error); }
    var optionalDependencies := GetOptionalDependencies(project, parsers.requirement);
    if optionalDependencies.Failure? { return Failure(optionalDependencies.error); }
    var entrypoints := GetEntrypoints(project);
    if entrypoints.Failure? { return Failure(entrypoints.error); }
    var authors := EnsurePeople(GetOr(project, "authors", List([])), "project.authors");
    if authors.Failure? { return Failure(authors.error); }
    var maintainers := EnsurePeople(GetOr(project, "maintainers", List([])), "project.maintainers");
    if maintainers.Failure? { return Failure(maintainers.error); }
    var urls := EnsureDict(Some(GetOr(project, "urls", Table([]))), "project.urls");
    if urls.Failure? { return Failure(urls.error); }
    var classifiers := EnsureList(Some(GetOr(project, "classifiers", List([]))), "project.classifiers");
    if classifiers.Failure? { return Failure(classifiers.error); }
    var keywords := EnsureList(Some(GetOr(project, "keywords", List([]))), "project.keywords");
    if keywords.Failure? { return Failure(keywords.error); }
    var scripts := EnsureDict(Some(GetOr(project, "scripts", Table([]))), "project.scripts");
    if scripts.Failure? { return Failure(scripts.error); }
    var guiScripts := EnsureDict(Some(GetOr(project, "gui-scripts", Table([]))), "project.gui-scripts");
    if guiScripts.Failure? { return Failure(guiScripts.error); }
    r := Success(Metadata(
      pre.name, pre.version, pre.description, license.value, licenseFiles.value, readme.value, pre.requiresPython,
      dependencies.value, optionalDependencies.value, entrypoints.value, authors.value, maintainers.value, urls.value,
      classifiers.value.GetOr([]), keywords.value.GetOr([]), scripts.value, guiScripts.value, pre.dynamic,
      opts.dynamicMetadata.GetOr([]), opts.metadataVersion, opts.allErrors));
  }

  /**
   * The end of the reading: the record object is built from what the extractors
   * produced (validating itself with warnings), then locked, and handed back only
   * when nothing at all was recorded.
   */
  method Finish(events: seq<Event>, built: Result<Metadata>, allErrors: bool)
    returns (report: Report, record: Record.StandardMetadata?)
    ensures report == Collect(events + AfterBuild(built).events, allErrors)
    ensures record != null <==> report.Ok()
    ensures record != null ==> (fresh(record) && record.locked && built == Success(record.fields))
  {
    var stage := AfterBuild(built);
    report := Collect(events + stage.events, allErrors);
    ErrorsOfAppend(events, stage.events);
    if built.Failure? {
      return report, null;
    }
    var created, inner := Record.Create(built.value);
    if created == null || !report.Ok() {
      return report, null;
    }
    var ok := created.SetAttr(Record.SetLocked(true));
    record := created;
  }

  /** The reading of a document with a `[project]` table: the stages, then the record object. */
  method ReadProject(data: seq<(string, Value)>, fs: FileSystem, parsers: Parsers, opts: Options)
    returns (report: Report, record: Record.StandardMetadata?)
    requires WellTyped(data) && "project" in Keys(data)
    ensures report == Collect(AllEvents(data, fs, parsers, opts), opts.allErrors)
    ensures record != null <==> report.Ok()
    ensures record != null ==>
      (fresh(record) && record.locked && IngestConstruct(data, fs, parsers, opts).value == Some(record.fields))
  {
    var project := ProjectTable(data);
    var built := Build(project, fs, parsers, PreludeOf(project, parsers), opts);
    report, record := Finish(PreludeEvents(data, parsers, opts), built, opts.allErrors);
  }

  /**
   * `from_pyproject`: without a `[project]` table the only error is keyed `project`;
   * otherwise the document is read, and the locked record comes back exactly when
   * nothing was recorded.
   */
  method FromPyproject(data: seq<(string, Value)>, fs: FileSystem, parsers: Parsers, opts: Options)
    returns (report: Report, record: Record.StandardMetadata?)
    requires WellTyped(data)
    ensures report == FromPyprojectSpec(data, fs, parsers, opts).report
    ensures record != null <==> report.Ok()
    ensures record != null ==>
      (fresh(record) && record.locked && FromPyprojectSpec(data, fs, parsers, opts).record == Some(record.fields))
  {
    if "project" !in Keys(data) {
      return Report([], [KeyedError("project")]), null;
    }
    report, record := ReadProject(data, fs, parsers, opts);
  }

  /** The errors and warnings of a run of stages are those of each stage, in order. */
  lemma {:induction false} StagesEvents(e1: seq<Event>, e2: seq<Event>, e3: seq<Event>, e4: seq<Event>,
                                        e5: seq<Event>, e6: seq<Event>, e7: seq<Event>)
    ensures ErrorsOf(e1 + e2 + e3 + e4 + e5 + e6 + e7) ==
      ErrorsOf(e1) + ErrorsOf(e2) + ErrorsOf(e3) + ErrorsOf(e4) + ErrorsOf(e5) + ErrorsOf(e6) + ErrorsOf(e7)
    ensures WarningsOf(e1 + e2 + e3 + e4 + e5 + e6 + e7) ==
      WarningsOf(e1) + WarningsOf(e2) + WarningsOf(e3) + WarningsOf(e4) + WarningsOf(e5) + WarningsOf(e6) + WarningsOf(e7)
  {
    ErrorsOfAppend(e1, e2);
    ErrorsOfAppend(e1 + e2, e3);
    ErrorsOfAppend(e1 + e2 + e3, e4);
    ErrorsOfAppend(e1 + e2 + e3 + e4, e5);
    ErrorsOfAppend(e1 + e2 + e3 + e4 + e5, e6);
    ErrorsOfAppend(e1 + e2 + e3 + e4 + e5 + e6, e7);
    WarningsOfAppend(e1, e2);
    WarningsOfAppend(e1 + e2, e3);
    WarningsOfAppend(e1 + e2 + e3, e4);
    WarningsOfAppend(e1 + e2 + e3 + e4, e5);
    WarningsOfAppend(e1 + e2 + e3 + e4 + e5, e6);
    WarningsOfAppend(e1 + e2 + e3 + e4 + e5 + e6, e7);
  }

  /** Every event `from_pyproject` records for a document with a `[project]` table. */
  function AllEvents(data: seq<(string, Value)>, fs: FileSystem, parsers: Parsers, opts: Options): seq<Event>
    requires WellTyped(data) && "project" in Keys(data)
  {
    PreludeEvents(data, parsers, opts) + IngestConstruct(data, fs, parsers, opts).events
  }

  /** What the stages record, in source order, makes up everything `from_pyproject` records. */
  lemma IngestEventParts(data: seq<(string, Value)>, fs: FileSystem, parsers: Parsers, opts: Options)
    requires WellTyped(data) && "project" in Keys(data)
    ensures var project := ProjectTable(data);
      var dyn := DynamicStage(project);
      var parts := [ScopeEvents(data, project, opts.validate), dyn.events, NameStage(project).events,
        VersionStage(project, dyn.value, parsers.version).events, DescriptionStage(project).events,
        RequiresPythonStage(project, parsers.specifier).events, IngestConstruct(data, fs, parsers, opts).events];
      && ErrorsOf(AllEvents(data, fs, parsers, opts)) == ErrorsOf(parts[0]) + ErrorsOf(parts[1]) + ErrorsOf(parts[2])
        + ErrorsOf(parts[3]) + ErrorsOf(parts[4]) + ErrorsOf(parts[5]) + ErrorsOf(parts[6])
      && WarningsOf(AllEvents(data, fs, parsers, opts)) == WarningsOf(parts[0]) + WarningsOf(parts[1])
        + WarningsOf(parts[2]) + WarningsOf(parts[3]) + WarningsOf(parts[4]) + WarningsOf(parts[5]) + WarningsOf(parts[6])
  {
    var project := ProjectTable(data);
    var dyn := DynamicStage(project);
    var parts := [ScopeEvents(data, project, opts.validate), dyn.events, NameStage(project).events,
      VersionStage(project, dyn.value, parsers.version).events, DescriptionStage(project).events,
      RequiresPythonStage(project, parsers.specifier).events, IngestConstruct(data, fs, parsers, opts).events];
    assert AllEvents(data, fs, parsers, opts) == parts[0] + parts[1] + parts[2] + parts[3] + parts[4] + parts[5] + parts[6];
    StagesEvents(parts[0], parts[1], parts[2], parts[3], parts[4], parts[5], parts[6]);
  }

  /** With the default `validate` (warnings only), unknown keys never make an error. */
  lemma DefaultValidateOnlyWarns(data: seq<(string, Value)>, project: seq<(string, Value)>)
    requires WellTyped(data)
    ensures ErrorsOf(ScopeEvents(data, project, ValidateDefault)) == []
  {
    var x1 := Keys(data) - Constants.KnownToplevelFields;
    var x2 := BuildSystemKeys(data) - Constants.KnownBuildSystemFields;
    var x3 := Keys(project) - Constants.KnownProjectFields;
    UnvalidatedScopeNoErrors(TopLevelScope, x1, ValidateDefault);
    UnvalidatedScopeNoErrors(BuildSystemScope, x2, ValidateDefault);
    UnvalidatedScopeNoErrors(ProjectScope, x3, ValidateDefault);
    var e1, e2, e3 := ExtraKeysEvents(TopLevelScope, x1, ValidateDefault),
      ExtraKeysEvents(BuildSystemScope, x2, ValidateDefault), ExtraKeysEvents(ProjectScope, x3, ValidateDefault);
    ErrorsOfAppend(e1, e2);
    ErrorsOfAppend(e1 + e2, e3);
  }

  /** A scope whose flag is not set never records an error, whatever its unknown keys. */
  lemma UnvalidatedScopeNoErrors(scope: Scope, extra: set<string>, validate: set<ValidateFlag>)
    requires ScopeFlag(scope) !in validate
    ensures ErrorsOf(ExtraKeysEvents(scope, extra, validate)) == []
  {
  }

  /** An error that any stage records keeps the record back, and collect-all mode reports it. */
  lemma StageErrorRejects(data: seq<(string, Value)>, fs: FileSystem, parsers: Parsers, opts: Options, e: ConfigError)
    requires WellTyped(data) && "project" in Keys(data)
    requires var project := ProjectTable(data);
      var dyn := DynamicStage(project);
      || e in ErrorsOf(ScopeEvents(data, project, opts.validate))
      || e in ErrorsOf(dyn.events)
      || e in ErrorsOf(NameStage(project).events)
      || e in ErrorsOf(VersionStage(project, dyn.value, parsers.version).events)
      || e in ErrorsOf(DescriptionStage(project).events)
      || e in ErrorsOf(RequiresPythonStage(project, parsers.specifier).events)
      || e in ErrorsOf(IngestConstruct(data, fs, parsers, opts).events)
    ensures FromPyprojectSpec(data, fs, parsers, opts).record.None?
    ensures opts.allErrors ==> e in FromPyprojectSpec(data, fs, parsers, opts).report.errors
  {
    IngestEventParts(data, fs, parsers, opts);
    assert e in ErrorsOf(AllEvents(data, fs, parsers, opts));
  }

  /** In collect-all mode, a warning that any stage records is reported. */
  lemma StageWarningReported(data: seq<(string, Value)>, fs: FileSystem, parsers: Parsers, opts: Options, w: Warning)
    requires WellTyped(data) && "project" in Keys(data) && opts.allErrors
    requires var project := ProjectTable(data);
      var dyn := DynamicStage(project);
      || w in WarningsOf(ScopeEvents(data, project, opts.validate))
      || w in WarningsOf(IngestConstruct(data, fs, parsers, opts).events)
    ensures w in FromPyprojectSpec(data, fs, parsers, opts).report.warnings
  {
    IngestEventParts(data, fs, parsers, opts);
    assert w in WarningsOf(AllEvents(data, fs, parsers, opts));
  }

  /**
   * Unknown `[project]` keys are an error when `Validate.PROJECT` is asked for, and
   * otherwise a warning naming them when `Validate.WARN` is.
   */
  lemma ProjectScopeEvents(data: seq<(string, Value)>, project: seq<(string, Value)>, validate: set<ValidateFlag>)
    requires WellTyped(data)
    ensures var extra := Keys(project) - Constants.KnownProjectFields;
      && (extra != {} && ValidateProject in validate ==> Unkeyed in ErrorsOf(ScopeEvents(data, project, validate)))
      && (extra != {} && ValidateProject !in validate && ValidateWarn in validate ==>
            ExtraKeys(ProjectScope, extra) in WarningsOf(ScopeEvents(data, project, validate)))
  {
    var e1 := ExtraKeysEvents(TopLevelScope, Keys(data) - Constants.KnownToplevelFields, validate);
    var e2 := ExtraKeysEvents(BuildSystemScope, BuildSystemKeys(data) - Constants.KnownBuildSystemFields, validate);
    var e3 := ExtraKeysEvents(ProjectScope, Keys(project) - Constants.KnownProjectFields, validate);
    ErrorsOfAppend(e1, e2);
    ErrorsOfAppend(e1 + e2, e3);
    WarningsOfAppend(e1, e2);
    WarningsOfAppend(e1 + e2, e3);
    assert ErrorsOf([Raise(Unkeyed)]) == [Unkeyed];
    assert WarningsOf([Warn(ExtraKeys(ProjectScope, Keys(project) - Constants.KnownProjectFields))])
      == [ExtraKeys(ProjectScope, Keys(project) - Constants.KnownProjectFields)];
  }

  /** An unknown `[project]` key under `Validate.PROJECT` is an error, and no record comes back. */
  lemma UnknownProjectKeyRejected(data: seq<(string, Value)>, fs: FileSystem, parsers: Parsers, opts: Options)
    requires WellTyped(data) && "project" in Keys(data)
    requires Keys(ProjectTable(data)) - Constants.KnownProjectFields != {}
    requires ValidateProject in opts.validate
    ensures FromPyprojectSpec(data, fs, parsers, opts).record.None?
    ensures opts.allErrors ==> Unkeyed in FromPyprojectSpec(data, fs, parsers, opts).report.errors
  {
    ProjectScopeEvents(data, ProjectTable(data), opts.validate);
    StageErrorRejects(data, fs, parsers, opts, Unkeyed);
  }

  /**
   * An unknown `[project]` key when only `Validate.WARN` covers the project is a
   * warning naming the unknown keys; in collect-all mode the report carries it.
   */
  lemma UnknownProjectKeyWarned(data: seq<(string, Value)>, fs: FileSystem, parsers: Parsers, opts: Options)
    requires WellTyped(data) && "project" in Keys(data)
    requires Keys(ProjectTable(data)) - Constants.KnownProjectFields != {}
    requires ValidateProject !in opts.validate && ValidateWarn in opts.validate && opts.allErrors
    ensures ExtraKeys(ProjectScope, Keys(ProjectTable(data)) - Constants.KnownProjectFields)
      in FromPyprojectSpec(data, fs, parsers, opts).report.warnings
  {
    var project := ProjectTable(data);
    ProjectScopeEvents(data, project, opts.validate);
    StageWarningReported(data, fs, parsers, opts, ExtraKeys(ProjectScope, Keys(project) - Constants.KnownProjectFields));
  }

  /** A field listed in `dynamic` that `[project]` also defines is an error keyed by that field. */
  lemma DynamicAndDefinedRejected(data: seq<(string, Value)>, fs: FileSystem, parsers: Parsers, opts: Options, f: string)
    requires WellTyped(data) && "project" in Keys(data)
    requires GetDynamic(ProjectTable(data)).Success?
    requires f in GetDynamic(ProjectTable(data)).value && f in Keys(ProjectTable(data))
    ensures FromPyprojectSpec(data, fs, parsers, opts).record.None?
    ensures opts.allErrors ==> KeyedError(f) in FromPyprojectSpec(data, fs, parsers, opts).report.errors
  {
    var project := ProjectTable(data);
    assert DynamicStage(project).events == DefinedDynamic(project, GetDynamic(project).value);
    assert KeyedError(f) in ErrorsOf(DynamicStage(project).events);
    StageErrorRejects(data, fs, parsers, opts, KeyedError(f));
  }

  /** A missing `name` is an error keyed `name`. */
  lemma MissingNameRejected(data: seq<(string, Value)>, fs: FileSystem, parsers: Parsers, opts: Options)
    requires WellTyped(data) && "project" in Keys(data)
    requires Get(ProjectTable(data), "name").None?
    ensures FromPyprojectSpec(data, fs, parsers, opts).record.None?
    ensures opts.allErrors ==> KeyedError("name") in FromPyprojectSpec(data, fs, parsers, opts).report.errors
  {
    assert ErrorsOf(NameStage(ProjectTable(data)).events) == [KeyedError("name")];
    StageErrorRejects(data, fs, parsers, opts, KeyedError("name"));
  }

  /** A missing `version` that `dynamic` does not list is an error keyed `version`. */
  lemma MissingVersionRejected(data: seq<(string, Value)>, fs: FileSystem, parsers: Parsers, opts: Options)
    requires WellTyped(data) && "project" in Keys(data)
    requires Get(ProjectTable(data), "version").None?
    requires GetDynamic(ProjectTable(data)).Success? ==> "version" !in GetDynamic(ProjectTable(data)).value
    ensures FromPyprojectSpec(data, fs, parsers, opts).record.None?
    ensures opts.allErrors ==> KeyedError("version") in FromPyprojectSpec(data, fs, parsers, opts).report.errors
  {
    var project := ProjectTable(data);
    var dyn := DynamicStage(project);
    assert ErrorsOf(VersionStage(project, dyn.value, parsers.version).events) == [KeyedError("version")];
    StageErrorRejects(data, fs, parsers, opts, KeyedError("version"));
  }

  /** A record comes back only when no stage recorded an error. */
  lemma CleanStages(data: seq<(string, Value)>, fs: FileSystem, parsers: Parsers, opts: Options)
    requires WellTyped(data)
    requires FromPyprojectSpec(data, fs, parsers, opts).record.Some?
    ensures "project" in Keys(data)
    ensures var project := ProjectTable(data);
      var dyn := DynamicStage(project);
      && ErrorsOf(ScopeEvents(data, project, opts.validate)) == []
      && ErrorsOf(dyn.events) == []
      && ErrorsOf(NameStage(project).events) == []
      && ErrorsOf(VersionStage(project, dyn.value, parsers.version).events) == []
      && ErrorsOf(DescriptionStage(project).events) == []
      && ErrorsOf(RequiresPythonStage(project, parsers.specifier).events) == []
      && ErrorsOf(IngestConstruct(data, fs, parsers, opts).events) == []
      && IngestConstruct(data, fs, parsers, opts).value == FromPyprojectSpec(data, fs, parsers, opts).record
  {
    IngestEventParts(data, fs, parsers, opts);
  }

  /**
   * A record that comes back holds the name as written and, for an empty version
   * string, no version; a missing version is then dynamic and keeps the `0.0.0`
   * default; its dynamic list is the one `[project]` declares (never `name`) and names
   * no field that `[project]` defines.
   */
  lemma ReturnedIdentity(data: seq<(string, Value)>, fs: FileSystem, parsers: Parsers, opts: Options)
    requires WellTyped(data)
    requires FromPyprojectSpec(data, fs, parsers, opts).record.Some?
    ensures "project" in Keys(data)
    ensures var md := FromPyprojectSpec(data, fs, parsers, opts).record.value;
      var project := ProjectTable(data);
      && Get(project, "name") == Some(Str(md.name))
      && (Get(project, "version") == Some(Str("")) ==> md.version.None?)
      && (Get(project, "version").None? ==> "version" in md.dynamic && md.version == Some(Version("0.0.0")))
      && GetDynamic(project) == Success(md.dynamic)
      && "name" !in md.dynamic
      && (forall f :: f in md.dynamic ==> f !in Keys(project))
      && (md.description.None? <==> Get(project, "description").None?)
  {
    CleanStages(data, fs, parsers, opts);
    var project := ProjectTable(data);
    var dyn := DynamicStage(project);
    var pre := PreludeOf(project, parsers);
    var md := FromPyprojectSpec(data, fs, parsers, opts).record.value;
    assert Construct(project, fs, parsers, pre, opts) == Success(md);
  }

  /**
   * A record that comes back holds what the extractors read, carries the caller's
   * options, and passes its own validation.
   */
  lemma ReturnedContents(data: seq<(string, Value)>, fs: FileSystem, parsers: Parsers, opts: Options)
    requires WellTyped(data)
    requires FromPyprojectSpec(data, fs, parsers, opts).record.Some?
    ensures "project" in Keys(data)
    ensures var md := FromPyprojectSpec(data, fs, parsers, opts).record.value;
      var project := ProjectTable(data);
      && GetLicense(project, fs) == Success(md.license)
      && GetReadme(project, fs) == Success(md.readme)
      && DependenciesSpec(project, parsers.requirement) == Success(md.dependencies)
      && OptionalDependenciesSpec(project, parsers.requirement) == Success(md.optionalDependencies)
      && EntrypointsSpec(project) == Success(md.entrypoints)
      && GetLicenseFiles(project, fs) == Success(md.licenseFiles)
      && EnsurePeople(GetOr(project, "authors", List([])), "project.authors") == Success(md.authors)
      && EnsurePeople(GetOr(project, "maintainers", List([])), "project.maintainers") == Success(md.maintainers)
      && EnsureDictSpec(Some(GetOr(project, "urls", Table([]))), "project.urls") == Success(md.urls)
      && EnsureListSpec(Some(GetOr(project, "classifiers", List([]))), "project.classifiers").Success?
      && md.classifiers == EnsureListSpec(Some(GetOr(project, "classifiers", List([]))), "project.classifiers").value.GetOr([])
      && EnsureListSpec(Some(GetOr(project, "keywords", List([]))), "project.keywords").Success?
      && md.keywords == EnsureListSpec(Some(GetOr(project, "keywords", List([]))), "project.keywords").value.GetOr([])
      && EnsureDictSpec(Some(GetOr(project, "scripts", Table([]))), "project.scripts") == Success(md.scripts)
      && EnsureDictSpec(Some(GetOr(project, "gui-scripts", Table([]))), "project.gui-scripts") == Success(md.guiScripts)
      && md.dynamicMetadata == opts.dynamicMetadata.GetOr([])
      && md.metadataVersion == opts.metadataVersion && md.allErrors == opts.allErrors
      && Validation.Validate(md, true).Ok()
  {
    CleanStages(data, fs, parsers, opts);
    var project := ProjectTable(data);
    var md := FromPyprojectSpec(data, fs, parsers, opts).record.value;
    assert Construct(project, fs, parsers, PreludeOf(project, parsers), opts) == Success(md);
  }

  /** Under `Validate.PROJECT`, a record that comes back has no unknown `[project]` keys. */
  lemma ReturnedKnownKeys(data: seq<(string, Value)>, fs: FileSystem, parsers: Parsers, opts: Options)
    requires WellTyped(data) && ValidateProject in opts.validate
    requires FromPyprojectSpec(data, fs, parsers, opts).record.Some?
    ensures "project" in Keys(data) && Keys(ProjectTable(data)) - Constants.KnownProjectFields == {}
  {
    CleanStages(data, fs, parsers, opts);
    if Keys(ProjectTable(data)) - Constants.KnownProjectFields != {} {
      UnknownProjectKeyRejected(data, fs, parsers, opts);
    }
  }
}
