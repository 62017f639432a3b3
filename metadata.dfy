/**
 * The values a `StandardMetadata` record holds, and the Core Metadata version it
 * emits when none is given.
 */
module MetadataRecord {
  import opened Wrappers
  import opened Paths
  import opened Markers
  import opened Pyproject
  import Constants

  /**
   * A parsed version, kept as its canonical text. A version object is always true in
   * a boolean context; only its absence is false.
   */
  datatype Version = Version(text: string)

  /** A parsed specifier set, kept as its canonical text; an empty set is false in a boolean context. */
  datatype Specifier = Specifier(text: string)

  /** The fields of a `StandardMetadata` record (the lock flag excepted). */
  datatype Metadata = Metadata(
    name: string,
    version: Option<Version>,
    description: Option<string>,
    license: LicenseField,
    licenseFiles: Option<seq<Path>>,
    readme: Option<Readme>,
    requiresPython: Option<Specifier>,
    dependencies: seq<Requirement>,
    optionalDependencies: seq<(string, seq<Requirement>)>,
    entrypoints: seq<(string, seq<(string, string)>)>,
    authors: seq<Person>,
    maintainers: seq<Person>,
    urls: seq<(string, string)>,
    classifiers: seq<string>,
    keywords: seq<string>,
    scripts: seq<(string, string)>,
    guiScripts: seq<(string, string)>,
    dynamic: seq<string>,
    dynamicMetadata: seq<string>,
    metadataVersion: Option<string>,
    allErrors: bool)

  /**
   * `auto_metadata_version`: the explicit version if there is one; otherwise the
   * lowest version that can carry what the record holds.
   */
  function AutoMetadataVersion(md: Metadata): (v: string)
    ensures md.metadataVersion.Some? ==> v == md.metadataVersion.value
    ensures md.metadataVersion.None? ==> v in Constants.KnownMetadataVersions
    ensures md.metadataVersion.None? ==>
      (v == "2.4" <==> md.license.SpdxLicense? || md.licenseFiles.Some?)
    ensures md.metadataVersion.None? && !md.license.SpdxLicense? && md.licenseFiles.None? ==>
      (v == "2.2" <==> md.dynamicMetadata != []) && (v == "2.1" <==> md.dynamicMetadata == [])
  {
    if md.metadataVersion.Some? then md.metadataVersion.value
    else if md.license.SpdxLicense? || md.licenseFiles.Some? then "2.4"
    else if md.dynamicMetadata != [] then "2.2"
    else "2.1"
  }

  /** Without an explicit version, an SPDX license or license files never yield a pre-SPDX version. */
  lemma InferredVersionCarriesSpdx(md: Metadata)
    requires md.license.SpdxLicense? || md.licenseFiles.Some?
    requires AutoMetadataVersion(md) in Constants.PreSpdxMetadataVersions
    ensures md.metadataVersion.Some? && md.metadataVersion.value in {"2.1", "2.2", "2.3"}
  {
  }
}
