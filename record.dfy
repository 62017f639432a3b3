/**
 * The `StandardMetadata` object: a record whose fields may be assigned one by one,
 * until a lock flag is set; after that only the fields its `dynamic` list names,
 * and the two bookkeeping fields, may still be assigned.
 */
module Record {
  import opened Wrappers
  import opened Errors
  import opened Paths
  import opened Markers
  import opened Pyproject
  import opened MetadataRecord
  import Validation
  import Text

  /** One attribute assignment `record.<attribute> = value`. */
  datatype Assignment =
    | SetName(name: string)
    | SetVersion(version: Option<Version>)
    | SetDescription(description: Option<string>)
    | SetLicense(license: LicenseField)
    | SetLicenseFiles(licenseFiles: Option<seq<Path>>)
    | SetReadme(readme: Option<Readme>)
    | SetRequiresPython(requiresPython: Option<Specifier>)
    | SetDependencies(dependencies: seq<Requirement>)
    | SetOptionalDependencies(optionalDependencies: seq<(string, seq<Requirement>)>)
    | SetEntrypoints(entrypoints: seq<(string, seq<(string, string)>)>)
    | SetAuthors(authors: seq<Person>)
    | SetMaintainers(maintainers: seq<Person>)
    | SetUrls(urls: seq<(string, string)>)
    | SetClassifiers(classifiers: seq<string>)
    | SetKeywords(keywords: seq<string>)
    | SetScripts(scripts: seq<(string, string)>)
    | SetGuiScripts(guiScripts: seq<(string, string)>)
    | SetDynamic(dynamic: seq<string>)
    | SetDynamicMetadata(dynamicMetadata: seq<string>)
    | SetMetadataVersion(metadataVersion: Option<string>)
    | SetAllErrors(allErrors: bool)
    | SetLocked(locked: bool)

  /** The Python attribute an assignment targets. */
  function AttrName(a: Assignment): string {
    match a
    case SetName(_) => "name"
    case SetVersion(_) => "version"
    case SetDescription(_) => "description"
    case SetLicense(_) => "license"
    case SetLicenseFiles(_) => "license_files"
    case SetReadme(_) => "readme"
    case SetRequiresPython(_) => "requires_python"
    case SetDependencies(_) => "dependencies"
    case SetOptionalDependencies(_) => "optional_dependencies"
    case SetEntrypoints(_) => "entrypoints"
    case SetAuthors(_) => "authors"
    case SetMaintainers(_) => "maintainers"
    case SetUrls(_) => "urls"
    case SetClassifiers(_) => "classifiers"
    case SetKeywords(_) => "keywords"
    case SetScripts(_) => "scripts"
    case SetGuiScripts(_) => "gui_scripts"
    case SetDynamic(_) => "dynamic"
    case SetDynamicMetadata(_) => "dynamic_metadata"
    case SetMetadataVersion(_) => "metadata_version"
    case SetAllErrors(_) => "all_errors"
    case SetLocked(_) => "_locked_metadata"
  }

  /** The two bookkeeping names that stay writable under the lock. */
  const AlwaysWritable: set<string> := {"metadata-version", "dynamic-metadata"}

  /**
   * The lock rule: an attribute may be assigned when the record is unlocked, or when
   * its name with `_` turned into `-` is listed in `dynamic` or is a bookkeeping name.
   */
  predicate Writable(locked: bool, dynamic: seq<string>, attr: string) {
    !locked || Text.Replace(attr, '_', '-') in (set f | f in dynamic) + AlwaysWritable
  }

  /** The record after a successful assignment. */
  function Apply(md: Metadata, a: Assignment): Metadata {
    match a
    case SetName(x) => md.(name := x)
    case SetVersion(x) => md.(version := x)
    case SetDescription(x) => md.(description := x)
    case SetLicense(x) => md.(license := x)
    case SetLicenseFiles(x) => md.(licenseFiles := x)
    case SetReadme(x) => md.(readme := x)
    case SetRequiresPython(x) => md.(requiresPython := x)
    case SetDependencies(x) => md.(dependencies := x)
    case SetOptionalDependencies(x) => md.(optionalDependencies := x)
    case SetEntrypoints(x) => md.(entrypoints := x)
    case SetAuthors(x) => md.(authors := x)
    case SetMaintainers(x) => md.(maintainers := x)
    case SetUrls(x) => md.(urls := x)
    case SetClassifiers(x) => md.(classifiers := x)
    case SetKeywords(x) => md.(keywords := x)
    case SetScripts(x) => md.(scripts := x)
    case SetGuiScripts(x) => md.(guiScripts := x)
    case SetDynamic(x) => md.(dynamic := x)
    case SetDynamicMetadata(x) => md.(dynamicMetadata := x)
    case SetMetadataVersion(x) => md.(metadataVersion := x)
    case SetAllErrors(x) => md.(allErrors := x)
    case SetLocked(_) => md
  }

  /**
   * The record object. Its field values are held together as one `Metadata` value;
   * an assignment replaces that value by one with the assigned field changed.
   */
  class StandardMetadata {
    var fields: Metadata
    var locked: bool

    /** The dataclass initialiser: every field from `md`, unlocked. */
    constructor Init(md: Metadata)
      ensures fields == md
      ensures !locked
    {
      fields := md;
      locked := false;
    }

    /** `__setattr__`: the assignment happens when the lock rule allows it; otherwise nothing changes. */
    method SetAttr(a: Assignment) returns (ok: bool)
      modifies this
      ensures ok == Writable(old(locked), old(fields.dynamic), AttrName(a))
      ensures ok && !a.SetLocked? ==> fields == Apply(old(fields), a) && locked == old(locked)
      ensures ok && a.SetLocked? ==> fields == old(fields) && locked == a.locked
      ensures !ok ==> fields == old(fields) && locked == old(locked)
    {
      if !Writable(locked, fields.dynamic, AttrName(a)) {
        return false;
      }
      if a.SetLocked? {
        locked := a.locked;
      } else {
        fields := Apply(fields, a);
      }
      return true;
    }
  }

  /**
   * Construction: the initialiser followed by `__post_init__`, which validates with
   * warnings on; a record that fails validation is not returned.
   */
  method Create(md: Metadata) returns (record: StandardMetadata?, report: Report)
    ensures report == Validation.Validate(md, true)
    ensures record != null <==> report.Ok()
    ensures record != null ==> fresh(record) && record.fields == md && !record.locked
  {
    report := Validation.Validate(md, true);
    if !report.Ok() {
      return null, report;
    }
    record := new StandardMetadata.Init(md);
  }

  /** Under the lock, the two bookkeeping fields stay writable whatever `dynamic` holds. */
  lemma BookkeepingWritable(dynamic: seq<string>)
    ensures Writable(true, dynamic, AttrName(SetMetadataVersion(None)))
    ensures Writable(true, dynamic, AttrName(SetDynamicMetadata([])))
  {
    assert Text.Replace("metadata_version", '_', '-') == "metadata-version";
    assert Text.Replace("dynamic_metadata", '_', '-') == "dynamic-metadata";
  }

  /**
   * Under the lock, the lock flag itself can be cleared exactly when `dynamic` lists
   * `-locked-metadata`; with any other `dynamic` list the lock is permanent.
   */
  lemma LockClearable(dynamic: seq<string>)
    ensures Writable(true, dynamic, AttrName(SetLocked(false))) <==> "-locked-metadata" in dynamic
  {
    assert Text.Replace("_locked_metadata", '_', '-') == "-locked-metadata";
    assert "-locked-metadata" !in AlwaysWritable by {
      assert "-locked-metadata"[0] != "metadata-version"[0];
      assert "-locked-metadata"[0] != "dynamic-metadata"[0];
    }
  }

  /**
   * Under the lock, `entrypoints` is writable only if `dynamic` lists `entrypoints`,
   * not the project field name `entry-points`.
   */
  lemma EntrypointsAttributeName(dynamic: seq<string>)
    ensures Writable(true, dynamic, AttrName(SetEntrypoints([]))) <==> "entrypoints" in dynamic
  {
    assert Text.Replace("entrypoints", '_', '-') == "entrypoints";
    assert |"entrypoints"| == 11 && |"metadata-version"| == 16 && |"dynamic-metadata"| == 16;
  }
}
