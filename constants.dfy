/** The fixed sets of names and versions the checks consult. */
module Constants {
  import opened Wrappers
  import Text

  /** The Core Metadata versions this library can emit. */
  const KnownMetadataVersions: set<string> := {"2.1", "2.2", "2.3", "2.4"}

  /** The versions that predate SPDX license expressions and `License-File`. */
  const PreSpdxMetadataVersions: set<string> := {"2.1", "2.2", "2.3"}

  /** For each `[project]` field, the Core Metadata fields it fills. */
  const ProjectToMetadata: map<string, set<string>> := map[
    "authors" := {"Author", "Author-Email"},
    "classifiers" := {"Classifier"},
    "dependencies" := {"Requires-Dist"},
    "description" := {"Summary"},
    "dynamic" := {},
    "entry-points" := {},
    "gui-scripts" := {},
    "keywords" := {"Keywords"},
    "license" := {"License", "License-Expression"},
    "license-files" := {"License-File"},
    "maintainers" := {"Maintainer", "Maintainer-Email"},
    "name" := {"Name"},
    "optional-dependencies" := {"Provides-Extra", "Requires-Dist"},
    "readme" := {"Description", "Description-Content-Type"},
    "requires-python" := {"Requires-Python"},
    "scripts" := {},
    "urls" := {"Project-URL"},
    "version" := {"Version"}
  ]

  const KnownToplevelFields: set<string> := {"build-system", "project", "tool"}

  const KnownBuildSystemFields: set<string> := {"backend-path", "build-backend", "requires"}

  /** The `[project]` keys: exactly those `ProjectToMetadata` knows. */
  const KnownProjectFields: set<string> := ProjectToMetadata.Keys

  /** The Core Metadata field names, lower-cased. */
  const KnownMetadataFields: set<string> := {
    "author", "author-email", "classifier", "description", "description-content-type",
    "download-url", "dynamic", "home-page", "keywords", "license", "license-expression",
    "license-file", "maintainer", "maintainer-email", "metadata-version", "name",
    "obsoletes", "obsoletes-dist", "platform", "project-url", "provides", "provides-dist",
    "provides-extra", "requires", "requires-dist", "requires-external", "requires-python",
    "summary", "supported-platform", "version"
  }

  /** `field_to_metadata`: the metadata fields a project field fills; a lookup of an unknown field fails. */
  function FieldToMetadata(field: string): (r: Option<set<string>>)
    ensures r.Some? <==> field in KnownProjectFields
    ensures r.Some? ==> r.value == ProjectToMetadata[field]
  {
    if field in ProjectToMetadata then Some(ProjectToMetadata[field]) else None
  }

  /** The pre-SPDX versions are the known versions without 2.4. */
  lemma PreSpdxVersions()
    ensures PreSpdxMetadataVersions <= KnownMetadataVersions
    ensures KnownMetadataVersions - PreSpdxMetadataVersions == {"2.4"}
  {
  }

  /** The project fields, spelled out. */
  lemma ProjectFields()
    ensures KnownProjectFields == {
      "authors", "classifiers", "dependencies", "description", "dynamic", "entry-points",
      "gui-scripts", "keywords", "license", "license-files", "maintainers", "name",
      "optional-dependencies", "readme", "requires-python", "scripts", "urls", "version"}
  {
  }

  /** The metadata field names that `ProjectToMetadata` mentions, as written there. */
  const MetadataNames: set<string> := {
    "Author", "Author-Email", "Classifier", "Requires-Dist",
    "Summary", "Keywords", "License", "License-Expression",
    "License-File", "Maintainer", "Maintainer-Email", "Name",
    "Provides-Extra", "Description", "Description-Content-Type", "Requires-Python",
    "Project-URL", "Version"}

  /** The lower-case forms of the mapped names, three at a time so that each proof stays small. */
  lemma LowerMetadataNames1()
    ensures Text.Lower("Author") in KnownMetadataFields
      && Text.Lower("Author-Email") in KnownMetadataFields
      && Text.Lower("Classifier") in KnownMetadataFields
  {
    assert Text.Lower("Author") == "author";
    assert Text.Lower("Author-Email") == "author-email";
    assert Text.Lower("Classifier") == "classifier";
  }

  lemma LowerMetadataNames2()
    ensures Text.Lower("Requires-Dist") in KnownMetadataFields
      && Text.Lower("Summary") in KnownMetadataFields
      && Text.Lower("Keywords") in KnownMetadataFields
  {
    assert Text.Lower("Requires-Dist") == "requires-dist";
    assert Text.Lower("Summary") == "summary";
    assert Text.Lower("Keywords") == "keywords";
  }

  lemma LowerMetadataNames3()
    ensures Text.Lower("License") in KnownMetadataFields
      && Text.Lower("License-Expression") in KnownMetadataFields
      && Text.Lower("License-File") in KnownMetadataFields
  {
    assert Text.Lower("License") == "license";
    assert Text.Lower("License-Expression") == "license-expression";
    assert Text.Lower("License-File") == "license-file";
  }

  lemma LowerMetadataNames4()
    ensures Text.Lower("Maintainer") in KnownMetadataFields
      && Text.Lower("Maintainer-Email") in KnownMetadataFields
      && Text.Lower("Name") in KnownMetadataFields
  {
    assert Text.Lower("Maintainer") == "maintainer";
    assert Text.Lower("Maintainer-Email") == "maintainer-email";
    assert Text.Lower("Name") == "name";
  }

  lemma LowerMetadataNames5()
    ensures Text.Lower("Provides-Extra") in KnownMetadataFields
      && Text.Lower("Description") in KnownMetadataFields
      && Text.Lower("Description-Content-Type") in KnownMetadataFields
  {
    assert Text.Lower("Provides-Extra") == "provides-extra";
    assert Text.Lower("Description") == "description";
    assert Text.Lower("Description-Content-Type") == "description-content-type";
  }

  lemma LowerMetadataNames6()
    ensures Text.Lower("Requires-Python") in KnownMetadataFields
      && Text.Lower("Project-URL") in KnownMetadataFields
      && Text.Lower("Version") in KnownMetadataFields
  {
    assert Text.Lower("Requires-Python") == "requires-python";
    assert Text.Lower("Project-URL") == "project-url";
    assert Text.Lower("Version") == "version";
  }

  lemma LowerMetadataName(m: string)
    requires m in MetadataNames
    ensures Text.Lower(m) in KnownMetadataFields
  {
    LowerMetadataNames1();
    LowerMetadataNames2();
    LowerMetadataNames3();
    LowerMetadataNames4();
    LowerMetadataNames5();
    LowerMetadataNames6();
  }

  /** Every metadata field a project field fills is a known metadata field. */
  lemma MetadataNamesKnown()
    ensures forall p, m :: p in ProjectToMetadata && m in ProjectToMetadata[p] ==> Text.Lower(m) in KnownMetadataFields
  {
    assert forall p :: p in ProjectToMetadata ==> ProjectToMetadata[p] <= MetadataNames;
    forall p, m | p in ProjectToMetadata && m in ProjectToMetadata[p]
      ensures Text.Lower(m) in KnownMetadataFields
    {
      LowerMetadataName(m);
    }
  }

  /** The three fields that can never be dynamic metadata are nonetheless known fields. */
  lemma NeverDynamicAreKnown()
    ensures {"name", "version", "dynamic"} <= KnownMetadataFields
  {
  }
}
