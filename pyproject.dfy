/**
 * The typed field extractors: each takes a value from the `[project]` table and either
 * returns it in its typed form or raises a configuration error (here: `Failure`).
 *
 * The file system is an input: `files` maps each regular file under the project
 * directory, by the relative path the document names it with, to its text; `glob`
 * gives the regular files a pattern matches, relative to the project directory.
 */
module Pyproject {
  import opened Wrappers
  import opened Toml
  import opened Errors
  import Text
  import opened Paths
  import opened Markers

  /** The free-text license: its text, and the file it was read from, if any. */
  datatype License = License(text: string, file: Option<string>)

  /** The readme: its text, the file it was read from, if any, and its content type. */
  datatype Readme = Readme(text: string, file: Option<string>, contentType: string)

  /** `license`: absent, the free-text form, or an SPDX license expression. */
  datatype LicenseField = NoLicense | LegacyLicense(license: License) | SpdxLicense(expression: string)

  /** An author or maintainer: `(name, email)`. */
  datatype Person = Person(name: string, email: Option<string>)

  datatype FileSystem = FileSystem(files: map<string, string>, glob: string -> seq<Path>)

  /** `ensure_str` */
  function EnsureStr(value: Option<Value>, key: string): (r: Result<Option<string>>)
    ensures r.Success? <==> value.None? || value.value.Str?
    ensures r.Success? ==> (r.value.None? <==> value.None?)
    ensures r.Success? && r.value.Some? ==> value == Some(Str(r.value.value))
    ensures r.Failure? ==> r.error == KeyedError(key)
  {
    match value
    case None => Success(None)
    case Some(Str(s)) => Success(Some(s))
    case Some(_) => Failure(KeyedError(key))
  }

  /**
   * What `ensure_list` returns. A value that is not a list fails with the VALUE
   * ITSELF as the error key; a list with a non-string item fails with `key`; a list
   * of strings comes back unchanged.
   */
  function EnsureListSpec(val: Option<Value>, key: string): (r: Result<Option<seq<string>>>)
    ensures val.None? ==> r == Success(None)
    ensures val.Some? && !val.value.List? ==> r == Failure(ConfigError(Some(Offending(val.value))))
    ensures val.Some? && val.value.List? ==>
      && (r.Success? <==> AllStrings(val.value.items))
      && (r.Failure? ==> r.error == KeyedError(key))
      && (r.Success? ==> r.value.Some? && StringList(r.value.value) == val.value.items)
  {
    match val
    case None => Success(None)
    case Some(List(items)) =>
      if AllStrings(items) then Success(Some(StringsOf(items))) else Failure(KeyedError(key))
    case Some(v) => Failure(ConfigError(Some(Offending(v))))
  }

  /** `ensure_list`: the loop stops at the first item that is not a string. */
  method EnsureList(val: Option<Value>, key: string) returns (r: Result<Option<seq<string>>>)
    ensures r == EnsureListSpec(val, key)
  {
    if val.None? {
      return Success(None);
    }
    if !val.value.List? {
      return Failure(ConfigError(Some(Offending(val.value))));
    }
    var items := val.value.items;
    var out: seq<string> := [];
    var i := 0;
    while i < |items|
      invariant 0 <= i <= |items|
      invariant |out| == i
      invariant forall j :: 0 <= j < i ==> items[j] == Str(out[j])
    {
      if !items[i].Str? {
        return Failure(KeyedError(key));
      }
      out := out + [items[i].s];
      i := i + 1;
    }
    assert out == StringsOf(items);
    return Success(Some(out));
  }

  /** The position of the first entry whose value is not a string, or `|t|`. */
  function FirstNonString(t: seq<(string, Value)>): (i: nat)
    ensures i <= |t|
    ensures forall j :: 0 <= j < i ==> t[j].1.Str?
    ensures i < |t| ==> !t[i].1.Str?
  {
    if |t| == 0 then 0
    else if !t[0].1.Str? then 0
    else 1 + FirstNonString(t[1..])
  }

  /**
   * What `ensure_dict` returns: no value gives the EMPTY table (not `None`); a value
   * that is not a table fails with `key`; the first entry that is not a string fails
   * with `<key>.<subkey>`; a table of strings comes back unchanged.
   */
  function EnsureDictSpec(val: Option<Value>, key: string): (r: Result<seq<(string, string)>>)
    ensures val.None? ==> r == Success([])
    ensures val.Some? && !val.value.Table? ==> r == Failure(KeyedError(key))
    ensures val.Some? && val.value.Table? ==>
      && (r.Success? <==> AllStringValues(val.value.entries))
      && (r.Failure? ==> (exists i :: 0 <= i < |val.value.entries| && !val.value.entries[i].1.Str?
                                        && (forall j :: 0 <= j < i ==> val.value.entries[j].1.Str?)
                                        && r.error == KeyedError(key + "." + val.value.entries[i].0)))
      && (r.Success? ==> StringTable(r.value) == val.value.entries)
  {
    match val
    case None => Success([])
    case Some(Table(entries)) =>
      var i := FirstNonString(entries);
      if i < |entries| then Failure(KeyedError(key + "." + entries[i].0))
      else Success(StringEntriesOf(entries))
    case Some(_) => Failure(KeyedError(key))
  }

  /** `ensure_dict`: the loop stops at the first entry that is not a string. */
  method EnsureDict(val: Option<Value>, key: string) returns (r: Result<seq<(string, string)>>)
    ensures r == EnsureDictSpec(val, key)
  {
    if val.None? {
      return Success([]);
    }
    if !val.value.Table? {
      return Failure(KeyedError(key));
    }
    var entries := val.value.entries;
    var out: seq<(string, string)> := [];
    var i := 0;
    while i < |entries|
      invariant 0 <= i <= |entries|
      invariant |out| == i
      invariant forall j :: 0 <= j < i ==> entries[j] == (out[j].0, Str(out[j].1))
    {
      var (subkey, item) := entries[i];
      if !item.Str? {
        return Failure(KeyedError(key + "." + subkey));
      }
      out := out + [(subkey, item.s)];
      i := i + 1;
    }
    assert FirstNonString(entries) == |entries|;
    assert out == StringEntriesOf(entries);
    return Success(out);
  }

  /** The shape `ensure_people` accepts: a list of tables whose values are all strings. */
  predicate PeopleShape(val: Value) {
    val.List? && forall i :: 0 <= i < |val.items| ==>
      val.items[i].Table? && AllStringValues(val.items[i].entries)
  }

  function PersonOf(entries: seq<(string, Value)>): Person
  {
    var name: Option<Value> := Get(entries, "name");
    var email: Option<Value> := Get(entries, "email");
    Person(if name.Some? && name.value.Str? then name.value.s else "Unknown",
           if email.Some? && email.value.Str? then Some(email.value.s) else None)
  }

  /**
   * `ensure_people`: a list of contact tables becomes a list of people, one per table
   * in the same order; a missing name reads `Unknown` and a missing email `None`.
   * Any other shape fails with `key`.
   */
  function EnsurePeople(val: Value, key: string): (r: Result<seq<Person>>)
    ensures r.Success? <==> PeopleShape(val)
    ensures r.Failure? ==> r.error == KeyedError(key)
    ensures r.Success? ==> |r.value| == |val.items| && forall i :: 0 <= i < |val.items| ==>
      var entries := val.items[i].entries;
      && (r.value[i].name == "Unknown" <== "name" !in Keys(entries))
      && ("name" in Keys(entries) ==> Get(entries, "name") == Some(Str(r.value[i].name)))
      && (r.value[i].email.None? <==> "email" !in Keys(entries))
      && (r.value[i].email.Some? ==> Get(entries, "email") == Some(Str(r.value[i].email.value)))
  {
    if !PeopleShape(val) then Failure(KeyedError(key))
    else
      var people := seq(|val.items|, i requires 0 <= i < |val.items| => PersonOf(val.items[i].entries));
      assert forall i :: 0 <= i < |val.items| ==> people[i] == PersonOf(val.items[i].entries);
      Success(people)
  }

  /** A field of a license or readme table is set when it is a non-empty string. */
  predicate IsSet(v: Option<string>) {
    v.Some? && v.value != ""
  }

  /**
   * `get_license`. Absent gives no license; a string is an SPDX expression, returned
   * as-is; a table goes to `LicenseFromTable`. Any other value fails without a key.
   */
  function GetLicense(project: seq<(string, Value)>, fs: FileSystem): (r: Result<LicenseField>)
    ensures Get(project, "license").None? ==> r == Success(NoLicense)
    ensures Get(project, "license").Some? && Get(project, "license").value.Str? ==>
      r == Success(SpdxLicense(Get(project, "license").value.s))
    ensures Get(project, "license").Some? && Get(project, "license").value.Table? ==>
      r == LicenseFromTable(Get(project, "license").value.entries, fs)
    ensures Get(project, "license").Some? && !Get(project, "license").value.Str? && !Get(project, "license").value.Table? ==>
      r == Failure(Unkeyed)
  {
    var raw: Option<Value> := Get(project, "license");
    match raw
    case None => Success(NoLicense)
    case Some(Str(s)) => Success(SpdxLicense(s))
    case Some(Table(entries)) => LicenseFromTable(entries, fs)
    case Some(_) => Failure(Unkeyed)
  }

  /** The tables `get_license` accepts: string values, only `file` and `text`, exactly one of them set. */
  predicate LicenseTable(entries: seq<(string, Value)>) {
    && AllStringValues(entries)
    && Keys(entries) <= {"file", "text"}
    && IsSet(StrField(entries, "file")) != IsSet(StrField(entries, "text"))
  }

  /**
   * The table form of `license`: its text, or the text of the file it names, which
   * must exist. A table of the right shape with both or neither field set fails
   * with `project.license`.
   */
  function LicenseFromTable(entries: seq<(string, Value)>, fs: FileSystem): (r: Result<LicenseField>)
    ensures r.Success? <==> (LicenseTable(entries)
      && (IsSet(StrField(entries, "file")) ==> StrField(entries, "file").value in fs.files))
    ensures r.Success? ==> r.value.LegacyLicense?
    ensures r.Success? && IsSet(StrField(entries, "file")) ==>
      var f := StrField(entries, "file").value;
      r.value.license == License(fs.files[f], Some(f))
    ensures r.Success? && IsSet(StrField(entries, "text")) ==>
      r.value.license == License(StrField(entries, "text").value, None)
    ensures AllStringValues(entries) && Keys(entries) <= {"file", "text"} && !LicenseTable(entries) ==>
      r == Failure(KeyedError("project.license"))
  {
    var d :- EnsureDictSpec(Some(Table(entries)), "project.license");
    var bad := FirstKeyOutside(entries, {"file", "text"});
    if bad < |entries| then Failure(KeyedError("project.license." + entries[bad].0))
    else
      var filename := StrField(entries, "file");
      var text := StrField(entries, "text");
      if IsSet(filename) == IsSet(text) then Failure(KeyedError("project.license"))
      else if IsSet(filename) then
        if filename.value !in fs.files then Failure(KeyedError("project.license.file"))
        else Success(LegacyLicense(License(fs.files[filename.value], filename)))
      else Success(LegacyLicense(License(text.value, None)))
  }

  /** A license-files pattern that points outside the project directory. */
  predicate EscapesProject(glob: string) {
    Text.StartsWith(glob, "..") || Text.StartsWith(glob, "/")
  }

  /** A pattern `_get_files_from_globs` accepts: inside the project and matching at least one file. */
  predicate GoodGlob(fs: FileSystem, glob: string) {
    !EscapesProject(glob) && |fs.glob(glob)| > 0
  }

  /** The files the patterns match, pattern by pattern. */
  function GlobbedFiles(fs: FileSystem, globs: seq<string>): seq<Path>
  {
    if |globs| == 0 then []
    else GlobbedFiles(fs, globs[..|globs| - 1]) + fs.glob(globs[|globs| - 1])
  }

  /** What `list(_get_files_from_globs(...))` gives. */
  function FilesFromGlobsSpec(fs: FileSystem, globs: seq<string>): (r: Result<seq<Path>>)
    ensures r.Success? <==> forall i :: 0 <= i < |globs| ==> GoodGlob(fs, globs[i])
    ensures r.Failure? ==> r.error == Unkeyed
    ensures (exists i :: 0 <= i < |globs| && EscapesProject(globs[i])) ==> r.Failure?
  {
    if forall i :: 0 <= i < |globs| ==> GoodGlob(fs, globs[i]) then Success(GlobbedFiles(fs, globs))
    else Failure(Unkeyed)
  }

  /**
   * `_get_files_from_globs`: a pattern starting with `..` or `/` is rejected before
   * any matching; a pattern that matches nothing is rejected.
   */
  method FilesFromGlobs(fs: FileSystem, globs: seq<string>) returns (r: Result<seq<Path>>)
    ensures r == FilesFromGlobsSpec(fs, globs)
  {
    var out: seq<Path> := [];
    var i := 0;
    while i < |globs|
      invariant 0 <= i <= |globs|
      invariant forall j :: 0 <= j < i ==> GoodGlob(fs, globs[j])
      invariant out == GlobbedFiles(fs, globs[..i])
    {
      var glob := globs[i];
      if EscapesProject(glob) {
        return Failure(Unkeyed);
      }
      var files := fs.glob(glob);
      if |files| == 0 {
        return Failure(Unkeyed);
      }
      out := out + files;
      assert globs[..i + 1][..i] == globs[..i];
      i := i + 1;
    }
    assert globs[..i] == globs;
    return Success(out);
  }

  /** `get_license_files`: `None` when absent, else the files every pattern matches. */
  function GetLicenseFiles(project: seq<(string, Value)>, fs: FileSystem): (r: Result<Option<seq<Path>>>)
    ensures Get(project, "license-files").None? ==> r == Success(None)
    ensures Get(project, "license-files").Some? && !Get(project, "license-files").value.List? ==>
      r == Failure(ConfigError(Some(Offending(Get(project, "license-files").value))))
    ensures Get(project, "license-files").Some? && Get(project, "license-files").value.List?
            && !AllStrings(Get(project, "license-files").value.items) ==>
      r == Failure(KeyedError("project.license-files"))
    ensures (Get(project, "license-files").Some? && Get(project, "license-files").value.List?
             && AllStrings(Get(project, "license-files").value.items)) ==>
      var globs := StringsOf(Get(project, "license-files").value.items);
      && (r.Success? <==> FilesFromGlobsSpec(fs, globs).Success?)
      && (r.Success? <==> forall i :: 0 <= i < |globs| ==> GoodGlob(fs, globs[i]))
      && (r.Failure? ==> r.error == Unkeyed)
      && (r.Success? ==> r.value == Some(GlobbedFiles(fs, globs)))
    ensures r.Success? && r.value.Some? ==>
      exists globs :: Get(project, "license-files") == Some(List(StringList(globs)))
        && FilesFromGlobsSpec(fs, globs) == Success(r.value.value)
  {
    var raw := Get(project, "license-files");
    if raw.None? then Success(None)
    else
      var globs :- EnsureListSpec(raw, "project.license-files");
      var files :- FilesFromGlobsSpec(fs, globs.value);
      Success(Some(files))
  }

  const ReadmeFields: set<string> := {"content-type", "file", "text"}

  /**
   * `get_readme`. Absent gives no readme; a string names a file (`ReadmeFromFile`); a
   * table goes to `ReadmeFromTable`; any other value fails with `project.readme`.
   */
  function GetReadme(project: seq<(string, Value)>, fs: FileSystem): (r: Result<Option<Readme>>)
    ensures Get(project, "readme").None? ==> r == Success(None)
    ensures Get(project, "readme").Some? && Get(project, "readme").value.Str? ==>
      r == ReadmeFromFile(Get(project, "readme").value.s, fs)
    ensures Get(project, "readme").Some? && Get(project, "readme").value.Table? ==>
      r == ReadmeFromTable(Get(project, "readme").value.entries, fs)
    ensures Get(project, "readme").Some? && !Get(project, "readme").value.Str? && !Get(project, "readme").value.Table? ==>
      r == Failure(KeyedError("project.readme"))
    ensures r.Success? && r.value.Some? ==> r.value.value.contentType != ""
  {
    var raw: Option<Value> := Get(project, "readme");
    match raw
    case None => Success(None)
    case Some(Str(filename)) => ReadmeFromFile(filename, fs)
    case Some(Table(entries)) => ReadmeFromTable(entries, fs)
    case Some(_) => Failure(KeyedError("project.readme"))
  }

  /**
   * A readme given by file name: the suffix decides the content type, `.md` Markdown
   * and `.rst` reStructuredText; any other suffix fails; the file must exist.
   */
  function ReadmeFromFile(filename: string, fs: FileSystem): (r: Result<Option<Readme>>)
    ensures !Text.EndsWith(filename, ".md") && !Text.EndsWith(filename, ".rst") ==>
      r == Failure(KeyedError("project.readme"))
    ensures r.Success? <==> (Text.EndsWith(filename, ".md") || Text.EndsWith(filename, ".rst")) && filename in fs.files
    ensures r.Success? ==> r.value == Some(Readme(fs.files[filename], Some(filename),
      if Text.EndsWith(filename, ".md") then "text/markdown" else "text/x-rst"))
  {
    if Text.EndsWith(filename, ".md") || Text.EndsWith(filename, ".rst") then
      var contentType := if Text.EndsWith(filename, ".md") then "text/markdown" else "text/x-rst";
      if filename !in fs.files then Failure(KeyedError("project.readme.file"))
      else Success(Some(Readme(fs.files[filename], Some(filename), contentType)))
    else Failure(KeyedError("project.readme"))
  }

  /** The readme tables of the right shape: known keys, each of them absent or a string. */
  predicate ReadmeShape(entries: seq<(string, Value)>) {
    && Keys(entries) <= ReadmeFields
    && forall k :: k in ReadmeFields && Get(entries, k).Some? ==> Get(entries, k).value.Str?
  }

  /**
   * The table form of `readme`: exactly one of `file` / `text` set, a non-empty
   * `content-type`, and the named file must exist.
   */
  function ReadmeFromTable(entries: seq<(string, Value)>, fs: FileSystem): (r: Result<Option<Readme>>)
    ensures r.Success? <==> (ReadmeShape(entries)
      && IsSet(StrField(entries, "file")) != IsSet(StrField(entries, "text"))
      && IsSet(StrField(entries, "content-type"))
      && (IsSet(StrField(entries, "file")) ==> StrField(entries, "file").value in fs.files))
    ensures r.Success? ==> r.value.Some? && r.value.value.contentType == StrField(entries, "content-type").value
    ensures r.Success? && IsSet(StrField(entries, "file")) ==>
      var f := StrField(entries, "file").value;
      r.value.value.text == fs.files[f] && r.value.value.file == Some(f)
    ensures r.Success? && IsSet(StrField(entries, "text")) ==>
      r.value.value.text == StrField(entries, "text").value && r.value.value.file.None?
    ensures ReadmeShape(entries) && IsSet(StrField(entries, "file")) == IsSet(StrField(entries, "text")) ==>
      r == Failure(KeyedError("project.readme"))
  {
    var bad := FirstKeyOutside(entries, ReadmeFields);
    if bad < |entries| then Failure(KeyedError("project.readme." + entries[bad].0))
    else
      var contentType :- EnsureStr(Get(entries, "content-type"), "project.readme.content-type");
      var filename :- EnsureStr(Get(entries, "file"), "project.readme.file");
      var text :- EnsureStr(Get(entries, "text"), "project.readme.text");
      if IsSet(filename) == IsSet(text) then Failure(KeyedError("project.readme"))
      else if !IsSet(contentType) then Failure(KeyedError("project.readme.content-type"))
      else if IsSet(filename) then
        if filename.value !in fs.files then Failure(KeyedError("project.readme.file"))
        else Success(Some(Readme(fs.files[filename.value], filename, contentType.value)))
      else Success(Some(Readme(text.value, None, contentType.value)))
  }

  /** Every requirement string parses. */
  predicate AllParse(parse: string -> Option<Requirement>, reqs: seq<string>) {
    forall i :: 0 <= i < |reqs| ==> parse(reqs[i]).Some?
  }

  /** The parsed requirements, one per string, in order. */
  function ParseAll(parse: string -> Option<Requirement>, reqs: seq<string>): (r: seq<Requirement>)
    requires AllParse(parse, reqs)
    ensures |r| == |reqs|
    ensures forall i :: 0 <= i < |reqs| ==> parse(reqs[i]) == Some(r[i])
  {
    seq(|reqs|, i requires 0 <= i < |reqs| => parse(reqs[i]).value)
  }

  /**
   * What `get_dependencies` returns: absent gives no requirements; the value must be a
   * list of strings (`ensure_list`); a string that does not parse fails without a key.
   */
  function DependenciesSpec(project: seq<(string, Value)>, parse: string -> Option<Requirement>): (r: Result<seq<Requirement>>)
    ensures Get(project, "dependencies").None? ==> r == Success([])
    ensures EnsureListSpec(Get(project, "dependencies"), "project.dependencies").Failure? ==>
      r == Failure(EnsureListSpec(Get(project, "dependencies"), "project.dependencies").error)
    ensures (Get(project, "dependencies").Some? && Get(project, "dependencies").value.List?
             && AllStrings(Get(project, "dependencies").value.items)) ==>
      var reqs := StringsOf(Get(project, "dependencies").value.items);
      && (r.Success? <==> AllParse(parse, reqs))
      && (r.Failure? ==> r.error == Unkeyed)
      && (r.Success? ==> |r.value| == |reqs| && forall i :: 0 <= i < |reqs| ==> parse(reqs[i]) == Some(r.value[i]))
  {
    var strings :- EnsureListSpec(Get(project, "dependencies"), "project.dependencies");
    var reqs := strings.GetOr([]);
    if AllParse(parse, reqs) then Success(ParseAll(parse, reqs)) else Failure(Unkeyed)
  }

  /** `get_dependencies`: the loop stops at the first string that does not parse. */
  method GetDependencies(project: seq<(string, Value)>, parse: string -> Option<Requirement>) returns (r: Result<seq<Requirement>>)
    ensures r == DependenciesSpec(project, parse)
  {
    var strings := EnsureList(Get(project, "dependencies"), "project.dependencies");
    if strings.Failure? {
      return Failure(strings.error);
    }
    var reqs := strings.value.GetOr([]);
    var out: seq<Requirement> := [];
    var i := 0;
    while i < |reqs|
      invariant 0 <= i <= |reqs|
      invariant |out| == i
      invariant forall j :: 0 <= j < i ==> parse(reqs[j]) == Some(out[j])
    {
      var req := parse(reqs[i]);
      if req.None? {
        return Failure(Unkeyed);
      }
      out := out + [req.value];
      i := i + 1;
    }
    assert out == ParseAll(parse, reqs);
    return Success(out);
  }

  /** A group `get_optional_dependencies` accepts: a list of strings that all parse. */
  predicate GoodGroup(parse: string -> Option<Requirement>, v: Value) {
    v.List? && AllStrings(v.items) && AllParse(parse, StringsOf(v.items))
  }

  /**
   * What `get_optional_dependencies` returns: a falsy value gives no groups; any
   * other value must be a table whose groups are lists of strings that all parse;
   * each group keeps its name and its order. Every failure here has no key.
   * A table's keys are distinct, so each extra appears once.
   */
  function OptionalDependenciesSpec(project: seq<(string, Value)>, parse: string -> Option<Requirement>)
    : (r: Result<seq<(string, seq<Requirement>)>>)
    ensures Falsy(Get(project, "optional-dependencies")) ==> r == Success([])
    ensures r.Failure? ==> r.error == Unkeyed
    ensures !Falsy(Get(project, "optional-dependencies")) ==>
      var val := Get(project, "optional-dependencies").value;
      && (r.Success? <==> val.Table? && forall i :: 0 <= i < |val.entries| ==> GoodGroup(parse, val.entries[i].1))
      && (r.Success? ==> |r.value| == |val.entries| && forall i :: 0 <= i < |val.entries| ==>
            r.value[i] == (val.entries[i].0, ParseAll(parse, StringsOf(val.entries[i].1.items))))
  {
    var val := Get(project, "optional-dependencies");
    if Falsy(val) then Success([])
    else if !val.value.Table? then Failure(Unkeyed)
    else
      var groups := val.value.entries;
      if forall i :: 0 <= i < |groups| ==> GoodGroup(parse, groups[i].1) then Success(ParsedGroups(parse, groups))
      else Failure(Unkeyed)
  }

  /** Each group with its requirements parsed. */
  function ParsedGroups(parse: string -> Option<Requirement>, groups: seq<(string, Value)>): (r: seq<(string, seq<Requirement>)>)
    requires forall i :: 0 <= i < |groups| ==> GoodGroup(parse, groups[i].1)
    ensures |r| == |groups|
    ensures forall i :: 0 <= i < |groups| ==>
      GoodGroup(parse, groups[i].1) && r[i] == (groups[i].0, ParseAll(parse, StringsOf(groups[i].1.items)))
  {
    seq(|groups|, i requires 0 <= i < |groups| && GoodGroup(parse, groups[i].1) => (groups[i].0, ParseAll(parse, StringsOf(groups[i].1.items))))
  }

  /**
   * `get_optional_dependencies`: group by group, requirement by requirement; the first
   * group that is not a list, item that is not a string, or string that does not parse
   * stops the loops.
   */
  method GetOptionalDependencies(project: seq<(string, Value)>, parse: string -> Option<Requirement>)
    returns (r: Result<seq<(string, seq<Requirement>)>>)
    ensures r == OptionalDependenciesSpec(project, parse)
  {
    var val := Get(project, "optional-dependencies");
    if Falsy(val) {
      return Success([]);
    }
    if !val.value.Table? {
      return Failure(Unkeyed);
    }
    var groups := val.value.entries;
    var out: seq<(string, seq<Requirement>)> := [];
    var i := 0;
    while i < |groups|
      invariant 0 <= i <= |groups|
      invariant |out| == i
      invariant forall j :: 0 <= j < i ==> GoodGroup(parse, groups[j].1)
      invariant forall j :: 0 <= j < i ==> out[j] == (groups[j].0, ParseAll(parse, StringsOf(groups[j].1.items)))
    {
      var (extra, requirements) := groups[i];
      if !requirements.List? {
        return Failure(Unkeyed);
      }
      var items := requirements.items;
      var parsed: seq<Requirement> := [];
      var k := 0;
      while k < |items|
        invariant 0 <= k <= |items|
        invariant |parsed| == k
        invariant forall l :: 0 <= l < k ==> items[l].Str? && parse(items[l].s) == Some(parsed[l])
      {
        if !items[k].Str? {
          return Failure(Unkeyed);
        }
        var req := parse(items[k].s);
        if req.None? {
          return Failure(Unkeyed);
        }
        parsed := parsed + [req.value];
        k := k + 1;
      }
      assert GoodGroup(parse, requirements);
      assert parsed == ParseAll(parse, StringsOf(items));
      out := out + [(extra, parsed)];
      i := i + 1;
    }
    assert out == ParsedGroups(parse, groups);
    return Success(out);
  }

  /** `\w` on ASCII text: a letter, a digit or an underscore. */
  predicate IsWordChar(c: char) {
    Text.IsAlnum(c) || c == '_'
  }

  /** A string that `\w+(\.\w+)*` matches in full: dot-separated non-empty words. */
  predicate DottedName(s: string) {
    var parts := Text.Split(s, '.');
    forall i :: 0 <= i < |parts| ==> |parts[i]| > 0 && forall j :: 0 <= j < |parts[i]| ==> IsWordChar(parts[i][j])
  }

  /** A dotted name holds only word characters and dots; in particular no line break. */
  lemma DottedNameChars(s: string)
    requires DottedName(s)
    ensures forall j :: 0 <= j < |s| ==> s[j] == '.' || IsWordChar(s[j])
  {
    forall j | 0 <= j < |s| && s[j] != '.'
      ensures IsWordChar(s[j])
    {
      Text.SplitKeepsChars(s, '.', s[j]);
      var parts := Text.Split(s, '.');
      var i :| 0 <= i < |parts| && s[j] in parts[i];
      var k :| 0 <= k < |parts[i]| && parts[i][k] == s[j];
    }
  }

  /**
   * The section check as written: `re.match` with a pattern ending in `$`, which also
   * matches just before a newline that ends the string.
   */
  predicate SectionMatchesAsWritten(section: string) {
    DottedName(section)
    || (|section| > 0 && section[|section| - 1] == '\n' && DottedName(section[..|section| - 1]))
  }

  /** The check as written lets any word followed by a newline through as a section name. */
  lemma SectionTrailingNewline(w: string)
    requires |w| > 0 && forall j :: 0 <= j < |w| ==> IsWordChar(w[j])
    ensures SectionMatchesAsWritten(w + "\n")
    ensures !DottedName(w + "\n")
  {
    var s := w + "\n";
    assert '.' !in s by {
      forall j | 0 <= j < |s| ensures s[j] != '.' {
        if j < |w| { assert IsWordChar(w[j]); }
      }
    }
    Text.SplitNoSeparator(s, '.');
    assert s[..|w|] == w;
    Text.SplitNoSeparator(w, '.');
    assert !IsWordChar(Text.Split(s, '.')[0][|w|]);
  }

  /** A section `get_entrypoints` accepts: a dotted name whose entries are all strings. */
  predicate GoodSection(section: (string, Value)) {
    DottedName(section.0) && section.1.Table? && AllStringValues(section.1.entries)
  }

  /**
   * What `get_entrypoints` returns: absent gives no sections; the value must be a
   * table of sections, each named by a dotted name and holding only strings. Every
   * failure here has no key.
   */
  function EntrypointsSpec(project: seq<(string, Value)>): (r: Result<seq<(string, seq<(string, string)>)>>)
    ensures Get(project, "entry-points").None? ==> r == Success([])
    ensures r.Failure? ==> r.error == Unkeyed
    ensures Get(project, "entry-points").Some? ==>
      var val := Get(project, "entry-points").value;
      && (r.Success? <==> val.Table? && forall i :: 0 <= i < |val.entries| ==> GoodSection(val.entries[i]))
      && (r.Success? ==> |r.value| == |val.entries| && forall i :: 0 <= i < |val.entries| ==>
            r.value[i].0 == val.entries[i].0 && StringTable(r.value[i].1) == val.entries[i].1.entries)
  {
    var val := Get(project, "entry-points");
    if val.None? then Success([])
    else if !val.value.Table? then Failure(Unkeyed)
    else
      var sections := val.value.entries;
      if forall i :: 0 <= i < |sections| ==> GoodSection(sections[i]) then Success(StringSections(sections))
      else Failure(Unkeyed)
  }

  /** Each section with its entries as strings. */
  function StringSections(sections: seq<(string, Value)>): (r: seq<(string, seq<(string, string)>)>)
    requires forall i :: 0 <= i < |sections| ==> GoodSection(sections[i])
    ensures |r| == |sections|
    ensures forall i :: 0 <= i < |sections| ==>
      GoodSection(sections[i]) && r[i] == (sections[i].0, StringEntriesOf(sections[i].1.entries))
  {
    seq(|sections|, i requires 0 <= i < |sections| && GoodSection(sections[i]) => (sections[i].0, StringEntriesOf(sections[i].1.entries)))
  }

  /** `get_entrypoints`: section by section, entry by entry, stopping at the first bad one. */
  method GetEntrypoints(project: seq<(string, Value)>) returns (r: Result<seq<(string, seq<(string, string)>)>>)
    ensures r == EntrypointsSpec(project)
  {
    var val := Get(project, "entry-points");
    if val.None? {
      return Success([]);
    }
    if !val.value.Table? {
      return Failure(Unkeyed);
    }
    var sections := val.value.entries;
    var out: seq<(string, seq<(string, string)>)> := [];
    var i := 0;
    while i < |sections|
      invariant 0 <= i <= |sections|
      invariant |out| == i
      invariant forall j :: 0 <= j < i ==> GoodSection(sections[j])
      invariant forall j :: 0 <= j < i ==> out[j] == (sections[j].0, StringEntriesOf(sections[j].1.entries))
    {
      var (section, entrypoints) := sections[i];
      if !DottedName(section) {
        return Failure(Unkeyed);
      }
      if !entrypoints.Table? {
        return Failure(Unkeyed);
      }
      var entries := entrypoints.entries;
      var k := 0;
      while k < |entries|
        invariant 0 <= k <= |entries|
        invariant forall l :: 0 <= l < k ==> entries[l].1.Str?
      {
        if !entries[k].1.Str? {
          return Failure(Unkeyed);
        }
        k := k + 1;
      }
      out := out + [(section, StringEntriesOf(entries))];
      i := i + 1;
    }
    assert out == StringSections(sections);
    return Success(out);
  }

  /**
   * `get_dynamic`: the fields the build backend fills in, a list of strings that may
   * not hold `name`; absent means none.
   */
  function GetDynamic(project: seq<(string, Value)>): (r: Result<seq<string>>)
    ensures Get(project, "dynamic").None? ==> r == Success([])
    ensures r.Success? ==> "name" !in r.value
    ensures r.Success? && Get(project, "dynamic").Some? ==> Get(project, "dynamic") == Some(List(StringList(r.value)))
    ensures (Get(project, "dynamic").Some? && Get(project, "dynamic").value.List?
             && AllStrings(Get(project, "dynamic").value.items)) ==>
      (r.Failure? <==> "name" in StringsOf(Get(project, "dynamic").value.items))
      && (r.Failure? ==> r.error == Unkeyed)
  {
    var raw := Get(project, "dynamic");
    if raw.None? then Success([])
    else
      var dynamic :- EnsureListSpec(raw, "project.dynamic");
      if "name" in dynamic.value then Failure(Unkeyed) else Success(dynamic.value)
  }
}
