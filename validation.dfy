/**
 * `StandardMetadata.validate`: an ordered list of checks whose errors and warnings
 * go to the collector.
 */
module Validation {
  import opened Wrappers
  import opened Errors
  import opened Pyproject
  import opened MetadataRecord
  import Text
  import Constants

  /** A character the name rule allows inside a name: ASCII letters and digits, `.`, `_` and `-`. */
  predicate NameChar(c: char) {
    Text.IsAlnum(c) || c == '.' || c == '_' || c == '-'
  }

  /**
   * The name format of the Core Metadata "Name" field: one ASCII letter or digit, or
   * a letter or digit, then letters, digits, `.`, `_`, `-`, then a letter or digit.
   */
  predicate ValidName(s: string) {
    || (|s| == 1 && Text.IsAlnum(s[0]))
    || (|s| >= 2 && Text.IsAlnum(s[0]) && Text.IsAlnum(s[|s| - 1])
        && forall i :: 1 <= i < |s| - 1 ==> NameChar(s[i]))
  }

  /**
   * The name check as written: `re.match` with a pattern ending in `$`, which also
   * matches just before a newline that ends the string.
   */
  predicate NameMatchesAsWritten(s: string) {
    ValidName(s) || (|s| > 0 && s[|s| - 1] == '\n' && ValidName(s[..|s| - 1]))
  }

  /** Every valid name followed by a newline passes the check as written, though it is not a valid name. */
  lemma NameTrailingNewline(w: string)
    requires ValidName(w)
    ensures NameMatchesAsWritten(w + "\n")
    ensures !ValidName(w + "\n")
  {
    assert (w + "\n")[..|w|] == w;
    assert !Text.IsAlnum((w + "\n")[|w|]);
  }

  /** A name made of valid characters only, whatever its ends. */
  lemma ValidNameChars(s: string)
    requires ValidName(s)
    ensures |s| > 0 && forall i :: 0 <= i < |s| ==> NameChar(s[i]) && s[i] != '\n'
  {
  }

  /** Some classifier starts with `License ::`. */
  predicate HasLicenseClassifier(classifiers: seq<string>) {
    exists i :: 0 <= i < |classifiers| && Text.StartsWith(classifiers[i], "License ::")
  }

  /** `self.description and '\n' in self.description` */
  predicate MultilineDescription(md: Metadata) {
    md.description.Some? && md.description.value != "" && '\n' in md.description.value
  }

  /** The warnings `validate(warn=True)` issues, in order. */
  function WarningEvents(md: Metadata): (r: seq<Event>)
    ensures forall i :: 0 <= i < |r| ==> r[i].Warn?
  {
    (if MultilineDescription(md) then [Warn(MultilineSummary)] else [])
    + (if AutoMetadataVersion(md) in Constants.PreSpdxMetadataVersions then []
       else if md.license.LegacyLicense? then [Warn(PreferSpdxLicense)]
       else if HasLicenseClassifier(md.classifiers) then [Warn(DeprecatedLicenseClassifier)]
       else [])
  }

  /** A check that records `e` when `failed` holds. */
  function Check(failed: bool, e: ConfigError): (r: seq<Event>)
    ensures ErrorsOf(r) == if failed then [e] else []
    ensures WarningsOf(r) == []
  {
    if failed then [Raise(e)] else []
  }

  /** What the checks of `validate` record, in order. */
  function ValidateEvents(md: Metadata, warn: bool): seq<Event>
  {
    var v := AutoMetadataVersion(md);
    Check(v !in Constants.KnownMetadataVersions, Unkeyed)
    + Check(!ValidName(md.name), KeyedError("project.name"))
    + Check(md.licenseFiles.Some? && md.license.LegacyLicense?, KeyedError("project.license-files"))
    + Check(md.license.SpdxLicense? && HasLicenseClassifier(md.classifiers), KeyedError("project.license"))
    + (if warn then WarningEvents(md) else [])
    + Check(md.license.SpdxLicense? && v in Constants.PreSpdxMetadataVersions, KeyedError("project.license"))
    + Check(md.licenseFiles.Some? && v in Constants.PreSpdxMetadataVersions, KeyedError("project.license-files"))
  }

  /** `validate(warn=...)`, through a collector in the record's own error mode. */
  function Validate(md: Metadata, warn: bool): (r: Report)
    ensures r.Ok() <==> ErrorsOf(ValidateEvents(md, warn)) == []
    ensures !md.allErrors ==> |r.errors| <= 1
  {
    Collect(ValidateEvents(md, warn), md.allErrors)
  }

  /** The errors recorded by a sequence of checks are those of the checks that failed, in order. */
  lemma {:induction false} ChecksErrors(e1: seq<Event>, e2: seq<Event>, e3: seq<Event>, e4: seq<Event>,
                                        w: seq<Event>, e5: seq<Event>, e6: seq<Event>)
    requires forall i :: 0 <= i < |w| ==> w[i].Warn?
    ensures ErrorsOf(e1 + e2 + e3 + e4 + w + e5 + e6)
      == ErrorsOf(e1) + ErrorsOf(e2) + ErrorsOf(e3) + ErrorsOf(e4) + ErrorsOf(e5) + ErrorsOf(e6)
  {
    ErrorsOfAppend(e1, e2);
    ErrorsOfAppend(e1 + e2, e3);
    ErrorsOfAppend(e1 + e2 + e3, e4);
    ErrorsOfAppend(e1 + e2 + e3 + e4, w);
    ErrorsOfAppend(e1 + e2 + e3 + e4 + w, e5);
    ErrorsOfAppend(e1 + e2 + e3 + e4 + w + e5, e6);
    NoErrorsBeforeFirst(w);
  }

  /** The errors `validate` records, check by check; the warnings never add one. */
  lemma ValidateErrors(md: Metadata, warn: bool)
    ensures var v := AutoMetadataVersion(md);
      ErrorsOf(ValidateEvents(md, warn)) ==
        (if v !in Constants.KnownMetadataVersions then [Unkeyed] else [])
        + (if !ValidName(md.name) then [KeyedError("project.name")] else [])
        + (if md.licenseFiles.Some? && md.license.LegacyLicense? then [KeyedError("project.license-files")] else [])
        + (if md.license.SpdxLicense? && HasLicenseClassifier(md.classifiers) then [KeyedError("project.license")] else [])
        + (if md.license.SpdxLicense? && v in Constants.PreSpdxMetadataVersions then [KeyedError("project.license")] else [])
        + (if md.licenseFiles.Some? && v in Constants.PreSpdxMetadataVersions then [KeyedError("project.license-files")] else [])
  {
    var v := AutoMetadataVersion(md);
    var w: seq<Event> := if warn then WarningEvents(md) else [];
    ChecksErrors(
      Check(v !in Constants.KnownMetadataVersions, Unkeyed),
      Check(!ValidName(md.name), KeyedError("project.name")),
      Check(md.licenseFiles.Some? && md.license.LegacyLicense?, KeyedError("project.license-files")),
      Check(md.license.SpdxLicense? && HasLicenseClassifier(md.classifiers), KeyedError("project.license")),
      w,
      Check(md.license.SpdxLicense? && v in Constants.PreSpdxMetadataVersions, KeyedError("project.license")),
      Check(md.licenseFiles.Some? && v in Constants.PreSpdxMetadataVersions, KeyedError("project.license-files")));
  }

  /** The keys `validate` uses are distinct from one another. */
  lemma KeysDistinct()
    ensures KeyedError("project.name") != KeyedError("project.license")
    ensures KeyedError("project.name") != KeyedError("project.license-files")
    ensures KeyedError("project.license") != KeyedError("project.license-files")
    ensures Unkeyed != KeyedError("project.name")
    ensures Unkeyed != KeyedError("project.license")
    ensures Unkeyed != KeyedError("project.license-files")
  {
    assert |"project.name"| == 12 && |"project.license"| == 15 && |"project.license-files"| == 21;
  }

  /** Membership in the errors of `validate`, error by error. */
  lemma ValidateErrorMembership(md: Metadata, warn: bool, e: ConfigError)
    ensures var v := AutoMetadataVersion(md);
      e in ErrorsOf(ValidateEvents(md, warn)) <==>
        || (e == Unkeyed && v !in Constants.KnownMetadataVersions)
        || (e == KeyedError("project.name") && !ValidName(md.name))
        || (e == KeyedError("project.license-files") && md.licenseFiles.Some?
            && (md.license.LegacyLicense? || v in Constants.PreSpdxMetadataVersions))
        || (e == KeyedError("project.license") && md.license.SpdxLicense?
            && (HasLicenseClassifier(md.classifiers) || v in Constants.PreSpdxMetadataVersions))
  {
    var v := AutoMetadataVersion(md);
    ValidateErrors(md, warn);
    KeysDistinct();
    MemberOfChecks(
      v !in Constants.KnownMetadataVersions, !ValidName(md.name),
      md.licenseFiles.Some? && md.license.LegacyLicense?, md.license.SpdxLicense? && HasLicenseClassifier(md.classifiers),
      md.license.SpdxLicense? && v in Constants.PreSpdxMetadataVersions, md.licenseFiles.Some? && v in Constants.PreSpdxMetadataVersions,
      Unkeyed, KeyedError("project.name"), KeyedError("project.license-files"), KeyedError("project.license"),
      KeyedError("project.license"), KeyedError("project.license-files"), e);
  }

  /** Membership in the errors of six checks in a row. */
  lemma MemberOfChecks(b1: bool, b2: bool, b3: bool, b4: bool, b5: bool, b6: bool,
                       x1: ConfigError, x2: ConfigError, x3: ConfigError, x4: ConfigError, x5: ConfigError, x6: ConfigError,
                       e: ConfigError)
    ensures (e in (if b1 then [x1] else []) + (if b2 then [x2] else []) + (if b3 then [x3] else [])
                + (if b4 then [x4] else []) + (if b5 then [x5] else []) + (if b6 then [x6] else [])) <==>
        (b1 && e == x1) || (b2 && e == x2) || (b3 && e == x3) || (b4 && e == x4) || (b5 && e == x5) || (b6 && e == x6)
  {
  }

  /** A `project.name` error is recorded exactly when the name is not valid, whatever the other fields. */
  lemma NameErrorIff(md: Metadata, warn: bool)
    ensures KeyedError("project.name") in ErrorsOf(ValidateEvents(md, warn)) <==> !ValidName(md.name)
  {
    ValidateErrorMembership(md, warn, KeyedError("project.name"));
    KeysDistinct();
  }

  /** A free-text license next to license files is always a `project.license-files` error. */
  lemma LegacyLicenseWithFiles(md: Metadata, warn: bool)
    requires md.license.LegacyLicense? && md.licenseFiles.Some?
    ensures KeyedError("project.license-files") in ErrorsOf(ValidateEvents(md, warn))
  {
    ValidateErrorMembership(md, warn, KeyedError("project.license-files"));
  }

  /** An SPDX expression next to a `License ::` classifier is always a `project.license` error. */
  lemma SpdxWithLicenseClassifier(md: Metadata, warn: bool)
    requires md.license.SpdxLicense? && HasLicenseClassifier(md.classifiers)
    ensures KeyedError("project.license") in ErrorsOf(ValidateEvents(md, warn))
  {
    ValidateErrorMembership(md, warn, KeyedError("project.license"));
  }

  /** An explicit version outside the known ones is an unkeyed error, the first one recorded. */
  lemma UnknownVersionError(md: Metadata, warn: bool)
    requires md.metadataVersion.Some? && md.metadataVersion.value !in Constants.KnownMetadataVersions
    ensures ErrorsOf(ValidateEvents(md, warn)) != []
    ensures ErrorsOf(ValidateEvents(md, warn))[0] == Unkeyed
  {
    ValidateErrors(md, warn);
  }

  /**
   * The errors that demand version 2.4 fire only under an explicit pre-2.4 version:
   * a `project.license` error beyond the classifier clash, or a `project.license-files`
   * error beyond the free-text clash, means the record asked for 2.1, 2.2 or 2.3.
   */
  lemma PreSpdxErrorsNeedOverride(md: Metadata, warn: bool)
    ensures KeyedError("project.license") in ErrorsOf(ValidateEvents(md, warn))
      && !HasLicenseClassifier(md.classifiers)
      ==> md.metadataVersion.Some? && md.metadataVersion.value in Constants.PreSpdxMetadataVersions
    ensures KeyedError("project.license-files") in ErrorsOf(ValidateEvents(md, warn))
      && !md.license.LegacyLicense?
      ==> md.metadataVersion.Some? && md.metadataVersion.value in Constants.PreSpdxMetadataVersions
  {
    if KeyedError("project.license") in ErrorsOf(ValidateEvents(md, warn)) && !HasLicenseClassifier(md.classifiers) {
      LicenseErrorNeedsOverride(md, warn);
    }
    if KeyedError("project.license-files") in ErrorsOf(ValidateEvents(md, warn)) && !md.license.LegacyLicense? {
      LicenseFilesErrorNeedsOverride(md, warn);
    }
  }

  lemma LicenseErrorNeedsOverride(md: Metadata, warn: bool)
    requires KeyedError("project.license") in ErrorsOf(ValidateEvents(md, warn)) && !HasLicenseClassifier(md.classifiers)
    ensures md.metadataVersion.Some? && md.metadataVersion.value in Constants.PreSpdxMetadataVersions
  {
    ValidateErrorMembership(md, warn, KeyedError("project.license"));
    KeysDistinct();
  }

  lemma LicenseFilesErrorNeedsOverride(md: Metadata, warn: bool)
    requires KeyedError("project.license-files") in ErrorsOf(ValidateEvents(md, warn)) && !md.license.LegacyLicense?
    ensures md.metadataVersion.Some? && md.metadataVersion.value in Constants.PreSpdxMetadataVersions
  {
    ValidateErrorMembership(md, warn, KeyedError("project.license-files"));
    KeysDistinct();
  }


  /** `validate(warn=False)` issues no warning. */
  lemma NoWarningsWithoutWarn(md: Metadata)
    ensures WarningsOf(ValidateEvents(md, false)) == []
    ensures Validate(md, false).warnings == []
  {
    var v := AutoMetadataVersion(md);
    var e1 := Check(v !in Constants.KnownMetadataVersions, Unkeyed);
    var e2 := Check(!ValidName(md.name), KeyedError("project.name"));
    var e3 := Check(md.licenseFiles.Some? && md.license.LegacyLicense?, KeyedError("project.license-files"));
    var e4 := Check(md.license.SpdxLicense? && HasLicenseClassifier(md.classifiers), KeyedError("project.license"));
    var e5 := Check(md.license.SpdxLicense? && v in Constants.PreSpdxMetadataVersions, KeyedError("project.license"));
    var e6 := Check(md.licenseFiles.Some? && v in Constants.PreSpdxMetadataVersions, KeyedError("project.license-files"));
    var events := ValidateEvents(md, false);
    assert events == e1 + e2 + e3 + e4 + [] + e5 + e6;
    ChecksWarnings(e1, e2, e3, e4, e5, e6);
    FailFastIsPrefix(events);
  }

  /** Checks record no warnings, so neither does a run of them without the warning step. */
  lemma {:induction false} ChecksWarnings(e1: seq<Event>, e2: seq<Event>, e3: seq<Event>, e4: seq<Event>,
                                          e5: seq<Event>, e6: seq<Event>)
    requires WarningsOf(e1) == [] && WarningsOf(e2) == [] && WarningsOf(e3) == []
    requires WarningsOf(e4) == [] && WarningsOf(e5) == [] && WarningsOf(e6) == []
    ensures WarningsOf(e1 + e2 + e3 + e4 + [] + e5 + e6) == []
  {
    WarningsOfAppend(e1, e2);
    WarningsOfAppend(e1 + e2, e3);
    WarningsOfAppend(e1 + e2 + e3, e4);
    WarningsOfAppend(e1 + e2 + e3 + e4, []);
    WarningsOfAppend(e1 + e2 + e3 + e4 + [], e5);
    WarningsOfAppend(e1 + e2 + e3 + e4 + [] + e5, e6);
  }

  /** With a warning-free, error-free record, `validate` reports nothing at all. */
  lemma ValidRecordIsQuiet(md: Metadata, warn: bool)
    requires ValidName(md.name)
    requires md.metadataVersion.None?
    requires md.license.NoLicense? && md.licenseFiles.None?
    requires !MultilineDescription(md) && !HasLicenseClassifier(md.classifiers)
    ensures Validate(md, warn) == Report([], [])
  {
    var events := ValidateEvents(md, warn);
    assert events == [];
  }
}
