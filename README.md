# pyproject-metadata in Dafny

A model of the core of `pyproject-metadata`. The library reads the `[project]` table of a decoded `pyproject.toml` document into a `StandardMetadata` record and writes that record out as Python Core Metadata. The output is either RFC 822 style headers (`as_rfc822`) or a JSON dictionary (`as_json`).

The model covers:

- **`Toml`, `Errors`, `Text`, `Wrappers`.** The input document is a TOML-shaped value, and a missing key is `None`. A raised `ConfigurationError` becomes a `Failure` carrying the error's key. The error collector used by the library is modelled as an ordered list of events (an error or a warning). Collect-all mode reports every error; fail-fast mode reports the warnings seen before the first error, plus that error.
- **`Constants`.** The metadata-version sets, `PROJECT_TO_METADATA`, and the known top-level, build-system, project and metadata field sets.
- **`Pyproject`.** The typed field checkers of `pyproject.py`:
  - `ensure_str`, `ensure_list`, `ensure_dict`, `ensure_people`;
  - the license and readme shape rules;
  - dependencies and optional dependencies;
  - the entry-point section name pattern;
  - the `dynamic` ban on `name`;
  - the prefix check of the license-file globs.
  
  The loops of the source are methods proved against the function that specifies them.
- **`MetadataRecord`.** The record's field values, and `auto_metadata_version`.
- **`Validation`.** `validate`, as the ordered list of checks it runs.
- **`Record`.** The `StandardMetadata` object as a class with a lock flag. Once locked, only the fields named in `dynamic` and the two bookkeeping fields can be assigned.
- **`Ingest`.** The decisions of `from_pyproject`:
  - per-scope unknown keys;
  - fields that are both dynamic and defined;
  - the `name` default;
  - the `version` rules;
  - construction of the record, then locking it.
- **`Emit`.** `_write_metadata`, as the ordered list of assignments it makes to the setter, or the errors that stop it. It includes the people lists, extra-name normalisation and the `Dynamic` rules.
- **`Markers`.** `_build_extra_req`, over a small marker datatype that records its `and`/`or` structure and its parenthesised groups. A marker prints as the `packaging` library's `str(Marker)` prints it: a marker that is one parenthesised group prints without those parentheses.
- **`Rfc822`.** The header setter and `header_store_parse`: unknown names are refused and line breaks are folded.
- **`Json`.** The JSON setter as a class over a map: key normalisation, keyword splitting and repeatable fields.

Two quirks of the source are modelled as written:

- **The scope guards are always true.** The guard on each unknown-key scope, `Validate.X | Validate.WARN & validate`, binds as `X | (WARN & validate)`, so it always holds. `Ingest.ScopeGuard` states this, and only the inner membership tests decide the outcome.
- **Attribute names versus field names.** The lock compares the attribute name, with `_` turned into `-`, against `dynamic`. This has two consequences:
  - A `dynamic` list naming `-locked-metadata` lets the lock be cleared (`Record.LockClearable`).
  - `entrypoints` can only be reassigned under the lock when `dynamic` says `entrypoints`, not `entry-points` (`Record.EntrypointsAttributeName`).

Where the code and its documentation disagree, the model follows the code, with three exceptions, each listed under "## Findings" with both readings modelled:

- The project-name check and the entry-point section check use their patterns as evidently intended. The source's `$` also lets a name or section with a final line break through; the model refuses it. "## Left out" names the members that use the intended pattern.
- `_build_extra_req` looks for a top-level `or` in the marker as printed, so a marker written `(a or b)` is still parenthesised before `and extra == "e"` is added.

Otherwise the code is followed. For example, `ensure_list` keys its type error by the offending value itself, and `ensure_dict` maps `None` to an empty table.

## Model

| member | source | states |
|---|---|---|
| Constants.FieldToMetadata | pyproject_metadata/__init__.py:71-75 | defined exactly for the known project fields, and gives that field's metadata names |
| Constants.PreSpdxVersions | pyproject_metadata/constants.py:20-21 | the pre-SPDX versions are known versions, and the two sets differ only by 2.4 |
| Constants.ProjectFields | pyproject_metadata/constants.py:23-46 | the known project fields are exactly the keys of the project-to-metadata map, listed out |
| Constants.LowerMetadataName | pyproject_metadata/constants.py:23-79 | every metadata name the map mentions is, lower-cased, a known metadata field |
| Constants.MetadataNamesKnown | pyproject_metadata/constants.py:23-79 | for every project field, each of its metadata names lower-cases to a known metadata field |
| Constants.NeverDynamicAreKnown | pyproject_metadata/constants.py:48-79 | name, version and dynamic are known metadata fields, so they need their own refusal when listed as dynamic |
| Text.SplitJoin | pyproject_metadata/__init__.py:115-116 | splitting on a separator undoes joining with it when no piece holds the separator |
| Errors.Collect | pyproject_metadata/__init__.py:211 | collect-all mode reports every error and warning; fail-fast reports only the first error; the report is clean iff no error was recorded |
| Errors.FailFastIsPrefix | pyproject_metadata/__init__.py:211 | what fail-fast mode reports is a prefix of what collect-all mode reports, for errors and warnings alike |
| Errors.ErrorsAtFirst | pyproject_metadata/__init__.py:211 | the first reported error is the first error event, and there is none iff every event is a warning |
| MetadataRecord.AutoMetadataVersion | pyproject_metadata/__init__.py:275-284 | an explicit version is returned unchanged; otherwise 2.4 iff the license is SPDX or license files are set, else 2.2 iff dynamic metadata is non-empty, else 2.1; an inferred version is always known |
| MetadataRecord.InferredVersionCarriesSpdx | pyproject_metadata/__init__.py:275-284 | a pre-2.4 version together with SPDX data can only come from an explicit override |
| Paths.SortedUnique | pyproject_metadata/__init__.py:490-491 | the license files in strictly increasing path order, holding exactly the input's paths |
| Paths.SortedHasNoDuplicates | pyproject_metadata/__init__.py:490-491 | a strictly sorted list has no repeated path |
| Paths.PathLessTotal | pyproject_metadata/__init__.py:490-491 | path order is total on distinct paths, so sorting is well defined |
| Paths.PathLessTransitive | pyproject_metadata/__init__.py:490-491 | path order is transitive |
| Markers.UnwrapKeeps | pyproject_metadata/__init__.py:548 | removing a marker's enclosing parentheses changes neither its printed text nor its meaning, and keeps it well formed |
| Markers.BuildExtraReq | pyproject_metadata/__init__.py:540-558 | the copy keeps the requirement text and always carries a marker; the input is not changed |
| Markers.ExtraReqRendering | pyproject_metadata/__init__.py:547-557 | no marker gives `extra == "e"`; a marker whose printed top level has an `or` gives `(m) and extra == "e"`; any other gives `m and extra == "e"`, where `m` is the marker as printed |
| Markers.ExtraReqAsWritten | pyproject_metadata/__init__.py:547-557 | for every marker except one that is a single parenthesised group, the model's text is exactly the text the source writes |
| Markers.GroupedOrTextAsWritten | pyproject_metadata/__init__.py:548-555 | for `(a or b)` the source sees no top-level `or`, and its text is the flat `a or b and extra == "e"` |
| Markers.SingleGroupLosesParentheses | pyproject_metadata/__init__.py:548-555 | that flat text holds when only `a` holds, although the extra is not selected |
| Markers.GroupedOrCorrected | pyproject_metadata/__init__.py:548-551 | the model's marker for `(a or b)` prints as `(a or b) and extra == "e"` |
| Markers.ExtraReqMeaning | pyproject_metadata/__init__.py:547-557 | the new marker holds exactly when the old marker (if any) holds and the extra matches |
| Markers.ExtraReqWellFormed | pyproject_metadata/__init__.py:547-557 | the combined marker is well formed whenever the original is |
| Markers.UnparenthesisedOrIsWrong | pyproject_metadata/__init__.py:548-551 | appending `and extra` to `a or b` without parentheses changes the meaning, which is why the source adds them |
| Pyproject.EnsureStr | pyproject_metadata/pyproject.py:44-51 | a string comes back unchanged, an absent value gives None, anything else fails with the given key |
| Pyproject.EnsureListSpec | pyproject_metadata/pyproject.py:54-64 | absent gives None; a non-list fails keyed by the offending value; a non-string item fails keyed by the field; otherwise the same strings in order |
| Pyproject.EnsureList | pyproject_metadata/pyproject.py:54-64 | the loop over the items computes exactly the checker's result |
| Pyproject.EnsureDictSpec | pyproject_metadata/pyproject.py:67-77 | absent gives an empty table; a non-table fails; a table with a non-string value fails keyed `key.subkey` of the first such entry, every entry before it being a string; otherwise the same entries in order |
| Pyproject.EnsureDict | pyproject_metadata/pyproject.py:67-77 | the loop stops at the first non-string value and otherwise returns the entries, as the specification says |
| Pyproject.EnsurePeople | pyproject_metadata/pyproject.py:80-97 | succeeds iff a list of string-valued tables; then one person per entry in order, name defaulting to Unknown and email to None |
| Pyproject.GetLicense | pyproject_metadata/pyproject.py:100-136 | absent gives no license; a string is an SPDX expression; a table goes to the table rules; any other value fails without a key |
| Pyproject.LicenseFromTable | pyproject_metadata/pyproject.py:108-136 | succeeds iff the keys are file/text with exactly one set and a named file exists; the license holds the file's text or the given text; neither or both set fails keyed `project.license` |
| Pyproject.FilesFromGlobsSpec | pyproject_metadata/pyproject.py:312-324 | succeeds iff every pattern stays inside the project and matches a file; a pattern starting `..` or `/` always fails |
| Pyproject.FilesFromGlobs | pyproject_metadata/pyproject.py:312-324 | the generator loop computes exactly the specification's result |
| Pyproject.GetLicenseFiles | pyproject_metadata/pyproject.py:139-147 | absent gives None; a non-list fails keyed by the value itself; a list with a non-string item fails keyed `project.license-files`; for a list of strings, succeeds iff every pattern stays inside the project and matches, an unkeyed failure otherwise, and the result is the matched files pattern by pattern |
| Pyproject.GetReadme | pyproject_metadata/pyproject.py:150-203 | absent gives no readme; a string is a file name; a table follows the table rules; any other value fails keyed `project.readme`; a readme always has a content type |
| Pyproject.ReadmeFromFile | pyproject_metadata/pyproject.py:160-170 | `.md` gives text/markdown and `.rst` text/x-rst, with the file's text; any other suffix fails keyed `project.readme`; a missing file fails |
| Pyproject.ReadmeFromTable | pyproject_metadata/pyproject.py:171-203 | succeeds iff the keys are allowed, exactly one of file/text is set, the content type is non-empty and a named file exists; neither or both fails keyed `project.readme` |
| Pyproject.DependenciesSpec | pyproject_metadata/pyproject.py:206-221 | absent gives no dependencies; list errors pass through; otherwise succeeds iff every string parses, one requirement per string in order |
| Pyproject.GetDependencies | pyproject_metadata/pyproject.py:206-221 | the parsing loop computes exactly the specification's result |
| Pyproject.OptionalDependenciesSpec | pyproject_metadata/pyproject.py:224-262 | a falsy value gives no groups; otherwise succeeds iff a table of lists of parseable strings, keeping every group in order with one requirement per string |
| Pyproject.GetOptionalDependencies | pyproject_metadata/pyproject.py:224-262 | the nested loops compute exactly the specification's result |
| Pyproject.EntrypointsSpec | pyproject_metadata/pyproject.py:265-297 | absent gives no sections; succeeds iff a table whose sections are dotted names holding only strings, returned unchanged; failures carry no key |
| Pyproject.GetEntrypoints | pyproject_metadata/pyproject.py:265-297 | the loop over sections and entries computes exactly the specification's result |
| Pyproject.SectionTrailingNewline | pyproject_metadata/pyproject.py:277 | the section pattern as written accepts a word followed by a newline, which is not a dotted name |
| Pyproject.DottedNameChars | pyproject_metadata/pyproject.py:277 | an accepted section name holds only word characters and dots |
| Pyproject.GetDynamic | pyproject_metadata/pyproject.py:300-309 | absent gives no fields; a result never holds `name` and is the list given; a string list fails exactly when it holds `name` |
| Validation.NameTrailingNewline | pyproject_metadata/__init__.py:219-221 | the name pattern as written accepts a valid name followed by a newline, which is not a valid name |
| Validation.ValidNameChars | pyproject_metadata/__init__.py:219-221 | a name the corrected rule accepts is non-empty, made of letters, digits, `.`, `_` and `-` only |
| Validation.Validate | pyproject_metadata/__init__.py:210-273 | the report is clean iff no check failed; fail-fast mode reports at most one error |
| Validation.ValidateErrors | pyproject_metadata/__init__.py:213-271 | the errors, in order: unknown version, bad name, license-files with a text license, SPDX with License classifiers, SPDX before 2.4, license-files before 2.4 |
| Validation.ValidateErrorMembership | pyproject_metadata/__init__.py:213-271 | each error key is reported iff its condition holds, in both directions |
| Validation.NameErrorIff | pyproject_metadata/__init__.py:219-226 | a `project.name` error exactly when the name is not valid, whatever the other fields |
| Validation.LegacyLicenseWithFiles | pyproject_metadata/__init__.py:228-230 | a text license with license files always gives a `project.license-files` error |
| Validation.SpdxWithLicenseClassifier | pyproject_metadata/__init__.py:232-236 | an SPDX license with a `License ::` classifier always gives a `project.license` error |
| Validation.UnknownVersionError | pyproject_metadata/__init__.py:213-215 | an explicit unknown version gives an unkeyed error, reported first |
| Validation.PreSpdxErrorsNeedOverride | pyproject_metadata/__init__.py:259-271 | the "needs 2.4" errors can only arise from an explicit pre-2.4 override |
| Validation.NoWarningsWithoutWarn | pyproject_metadata/__init__.py:238-257 | validating with warn off issues no warning |
| Validation.ValidRecordIsQuiet | pyproject_metadata/__init__.py:210-273 | a plain record with a valid name and no license data gives neither errors nor warnings |
| Record.StandardMetadata.SetAttr | pyproject_metadata/__init__.py:201-208 | an assignment succeeds iff unlocked or the dashed name is in dynamic or bookkeeping; on success exactly that field changes; on refusal nothing changes |
| Record.Create | pyproject_metadata/__init__.py:198-199 | constructing a record runs validation with warnings; a record exists iff validation is clean, unlocked and holding the given values |
| Record.BookkeepingWritable | pyproject_metadata/__init__.py:201-205 | metadata_version and dynamic_metadata stay writable under the lock |
| Record.LockClearable | pyproject_metadata/__init__.py:201-208 | the lock can be cleared under the lock iff `dynamic` lists `-locked-metadata` |
| Record.EntrypointsAttributeName | pyproject_metadata/__init__.py:201-205 | under the lock, entrypoints is writable iff dynamic lists `entrypoints` |
| Ingest.ScopeGuard | pyproject_metadata/__init__.py:314 | the scope guard holds for every flag set |
| Ingest.ExtraKeysEvents | pyproject_metadata/__init__.py:314-345 | unknown keys give an error if the scope is validated, else a warning under WARN, else nothing |
| Ingest.DefinedDynamic | pyproject_metadata/__init__.py:349-352 | every dynamic field also present is an error keyed by it, and every error is such a field |
| Ingest.NameStage | pyproject_metadata/__init__.py:354-362 | a missing name is an error keyed `name` with the UNKNOWN default; a clean name is the string given |
| Ingest.VersionStage | pyproject_metadata/__init__.py:364-377 | an empty string gives no version; missing and not dynamic is an error keyed `version`; missing and dynamic gives 0.0.0; a clean version is the parsed string |
| Ingest.DescriptionStage | pyproject_metadata/__init__.py:382-387 | the description is the string given, absent exactly when the key is |
| Ingest.RequiresPythonStage | pyproject_metadata/__init__.py:389-399 | a specifier comes from parsing the string given; absent gives none |
| Ingest.Construct | pyproject_metadata/__init__.py:401-442 | a built record holds the prelude values, the options (`metadata_version`, `all_errors`, `dynamic_metadata` defaulting to empty), and each extractor's successful result: license, license files, readme, dependencies, optional dependencies, entry points, authors, maintainers, urls, classifiers and keywords (empty when absent), scripts and gui-scripts |
| Ingest.Build | pyproject_metadata/__init__.py:401-442 | the extractor sequence computes exactly the construction specification |
| Ingest.AfterBuild | pyproject_metadata/__init__.py:401-443 | a built record is validated with warnings; a failed build records its error |
| Ingest.ConstructStage | pyproject_metadata/__init__.py:401-443 | a record in this stage is the built one; no record means an error was recorded |
| Ingest.FromPyprojectSpec | pyproject_metadata/__init__.py:290-447 | no project table gives only an error keyed `project`; a record is returned iff the report is clean; the report collects every stage's events |
| Ingest.Finish | pyproject_metadata/__init__.py:443-447 | the report collects the events; a record exists iff it is clean, and it is locked and holds the built values |
| Ingest.ReadProject | pyproject_metadata/__init__.py:311-447 | the reading of a present project table matches the specification, and the returned record is locked |
| Ingest.FromPyproject | pyproject_metadata/__init__.py:290-447 | the method reports what the specification reports, and returns a locked record holding its values iff clean |
| Ingest.IngestEventParts | pyproject_metadata/__init__.py:311-447 | the errors and warnings of the whole reading are those of its stages, in order |
| Ingest.DefaultValidateOnlyWarns | pyproject_metadata/__init__.py:314-345 | with the default flags, unknown keys never give errors |
| Ingest.UnvalidatedScopeNoErrors | pyproject_metadata/__init__.py:314-345 | a scope whose flag is not given never gives an error |
| Ingest.StageErrorRejects | pyproject_metadata/__init__.py:290-447 | any error in any stage means no record, and collect-all mode reports it |
| Ingest.StageWarningReported | pyproject_metadata/__init__.py:290-447 | in collect-all mode every stage warning is reported |
| Ingest.ProjectScopeEvents | pyproject_metadata/__init__.py:337-345 | unknown project keys give an error under PROJECT, else the ExtraKeys warning under WARN |
| Ingest.UnknownProjectKeyRejected | pyproject_metadata/__init__.py:337-345 | an unknown project key under PROJECT means no record |
| Ingest.UnknownProjectKeyWarned | pyproject_metadata/__init__.py:337-345 | an unknown project key under WARN only is reported as a warning |
| Ingest.DynamicAndDefinedRejected | pyproject_metadata/__init__.py:347-352 | a field both dynamic and defined means no record, and its key is reported |
| Ingest.MissingNameRejected | pyproject_metadata/__init__.py:354-358 | a missing name means no record |
| Ingest.MissingVersionRejected | pyproject_metadata/__init__.py:375-377 | a missing version not declared dynamic means no record |
| Ingest.CleanStages | pyproject_metadata/__init__.py:290-447 | a returned record means every stage was clean and it is the constructed record |
| Ingest.ReturnedIdentity | pyproject_metadata/__init__.py:347-387 | a returned record's name, version, description and dynamic list come from the table as the rules say; no dynamic field is defined |
| Ingest.ReturnedContents | pyproject_metadata/__init__.py:401-443 | a returned record holds each extractor's result on the `[project]` table (license, license files, readme, dependencies, optional dependencies, entry points, authors, maintainers, urls, classifiers, keywords, scripts, gui-scripts) and the options, and validates cleanly |
| Ingest.ReturnedKnownKeys | pyproject_metadata/__init__.py:337-345 | under PROJECT, a returned record means the project table had no unknown key |
| Emit.FieldNamesKnown | pyproject_metadata/__init__.py:466-525 | every header name the writer uses is a known metadata field |
| Emit.ValuesOfHeaders | pyproject_metadata/__init__.py:490-525 | the values of a run of one field's headers are the values given, in order |
| Emit.OrNone | pyproject_metadata/__init__.py:476 | the empty string becomes None and any other string is kept |
| Emit.NamesWithoutEmail | pyproject_metadata/__init__.py:527-528 | exactly the names of people without a truthy email |
| Emit.AddressesWithEmail | pyproject_metadata/__init__.py:530-538 | exactly the formatted addresses of people with a truthy email |
| Emit.NamesWithoutEmailAppend | pyproject_metadata/__init__.py:527-528 | the names of two lists of people are the first list's names followed by the second's, so order is kept |
| Emit.NamesWithoutEmailOne | pyproject_metadata/__init__.py:527-528 | one person gives their name iff their email is falsy |
| Emit.AddressesWithEmailAppend | pyproject_metadata/__init__.py:530-538 | the addresses of two lists of people are the first list's followed by the second's, so order is kept |
| Emit.AddressesWithEmailOne | pyproject_metadata/__init__.py:530-538 | one person gives `formataddr((name, email))` iff their email is truthy |
| Emit.NameList | pyproject_metadata/__init__.py:527-528 | None iff the names are none or one empty name; otherwise the names joined by `, ` |
| Emit.EmailList | pyproject_metadata/__init__.py:530-538 | None iff the addresses are none or one empty address; otherwise the addresses joined by `, ` |
| Emit.PeoplePartition | pyproject_metadata/__init__.py:527-538 | every person appears in exactly one of the two lists |
| Emit.PeopleListsAbsent | pyproject_metadata/__init__.py:527-538 | with everyone having an email there is no name list; with no one having one there is no email list |
| Emit.NormExtra | pyproject_metadata/__init__.py:506 | the same length, with no `.`, `_` or upper-case letter |
| Emit.NormExtraIdempotent | pyproject_metadata/__init__.py:506 | normalising a normalised extra changes nothing |
| Emit.IdentitySection | pyproject_metadata/__init__.py:471-478 | starts with the record's Version, and holds no License-File or Dynamic entry |
| Emit.IdentityItemsValues | pyproject_metadata/__init__.py:471-478 | each of the version, summary, keywords and home-page values lands under its own field; the summary only when truthy; the Keywords assignment is always made |
| Emit.IdentitySectionValues | pyproject_metadata/__init__.py:471-478 | the Version value; a Summary iff the description is non-empty; the Keywords assignment `','.join(keywords) or None`, always made; a Home-page iff the URLs have a `homepage` label, with its URL |
| Emit.LicenseFileValues | pyproject_metadata/__init__.py:490-492 | no license files give none; otherwise one POSIX path per sorted unique file |
| Emit.UrlValues | pyproject_metadata/__init__.py:499-500 | one `Name, url` value per URL, the name capitalised, in order |
| Emit.ExtraRequirements | pyproject_metadata/__init__.py:508-511 | one requirement string per requirement, each with the extra marker added |
| Emit.ExtrasSection | pyproject_metadata/__init__.py:505-511 | the section starts with the first group's normalised Provides-Extra |
| Emit.ExtrasOf | pyproject_metadata/__init__.py:505-511 | per group, its normalised name and its requirements with the extra marker |
| Emit.ExtrasReadBack | pyproject_metadata/__init__.py:505-511 | each Provides-Extra is followed by exactly that group's Requires-Dist entries, group by group |
| Emit.DynamicSection | pyproject_metadata/__init__.py:517-525 | at 2.1 nothing; otherwise succeeds iff every dynamic field is known and not name/version/dynamic; failures carry no key |
| Emit.WriteSpec | pyproject_metadata/__init__.py:461-525 | validation errors stop the writer; a missing version is refused; otherwise the emissions follow the layout |
| Emit.LicenseFilesFromSection | pyproject_metadata/__init__.py:490-492 | the License-File values of the output are those of the license-file section |
| Emit.LicenseFilesSorted | pyproject_metadata/__init__.py:490-492 | the License-File values are strictly sorted, without duplicates, one per distinct file |
| Emit.DynamicValuesFromSection | pyproject_metadata/__init__.py:517-525 | the Dynamic values of the output are those of the dynamic section |
| Emit.SectionDynamicValues | pyproject_metadata/__init__.py:517-525 | at 2.1 the dynamic section is empty; otherwise it lists dynamic metadata in order |
| Emit.DynamicEntries | pyproject_metadata/__init__.py:517-525 | Dynamic entries only appear above 2.1, they are the dynamic metadata in order, and each is allowed |
| Emit.BadDynamicRefused | pyproject_metadata/__init__.py:519-524 | one disallowed dynamic field above 2.1 refuses the whole write with an unkeyed error |
| Rfc822.UnfoldFold | pyproject_metadata/__init__.py:143-144 | removing the indentation after each line break recovers the folded value |
| Rfc822.FoldSingleLine | pyproject_metadata/__init__.py:143-144 | a one-line value is stored unchanged |
| Rfc822.FoldIsJoin | pyproject_metadata/__init__.py:143-144 | folding keeps the pieces between line breaks and rejoins them with a line break followed by `width` spaces |
| Rfc822.HeaderStoreParse | pyproject_metadata/__init__.py:139-145 | refused iff the lower-cased name is unknown, keyed by the name; otherwise the name is kept and the value is its lines rejoined with a line break and `len(name) + 2` spaces, which unfold back to the value |
| Rfc822.Step | pyproject_metadata/__init__.py:90-96 | a falsy value leaves the message alone; otherwise one header with that name is appended; the body is replaced |
| Rfc822.RenderSucceeds | pyproject_metadata/__init__.py:449-453 | the writer's emissions are never refused by the header policy |
| Rfc822.RenderCount | pyproject_metadata/__init__.py:90-93 | one header per emission with a truthy value, and none for the others |
| Rfc822.Message.Set | pyproject_metadata/__init__.py:90-93 | a falsy value changes nothing; otherwise the policy's header is appended or its error returned |
| Rfc822.Message.SetPayload | pyproject_metadata/__init__.py:95-96 | the body is replaced and the headers kept |
| Rfc822.Fill | pyproject_metadata/__init__.py:449-453 | feeding the emissions in order gives the rendered message, or the first refusal |
| Rfc822.RenderFailurePersists | pyproject_metadata/__init__.py:90-93 | once a refusal happens, later assignments do not undo it |
| Rfc822.AsRfc822 | pyproject_metadata/__init__.py:449-453 | no message iff the writer refuses, with its errors; otherwise a fresh message whose headers and body render the emissions |
| Json.JsonKey | pyproject_metadata/__init__.py:109-110 | character by character: `-` becomes `_`, every other character is lower-cased; so no `-` and no upper-case letter remain |
| Json.NonEmptyStripped | pyproject_metadata/__init__.py:115-117 | no token is empty |
| Json.NonEmptyStrippedAppend | pyproject_metadata/__init__.py:115-117 | the tokens of two runs of pieces are the tokens of the first followed by those of the second |
| Json.NonEmptyStrippedOne | pyproject_metadata/__init__.py:115-117 | one piece gives its stripped form, or nothing when only white space remains |
| Json.KeywordsRoundTrip | pyproject_metadata/__init__.py:115-117 | splitting the comma-joined keywords gives the same keywords back, for plain keywords |
| Json.AppendStep | pyproject_metadata/__init__.py:118-121 | one assignment to a repeatable field appends its value to that key's list and leaves other keys' lists alone |
| Json.RepeatableCollects | pyproject_metadata/__init__.py:118-121 | a repeatable key holds all its values in emission order, and is absent when there were none |
| Json.StoreStep | pyproject_metadata/__init__.py:122-123 | one assignment to a single-valued field replaces the stored value |
| Json.SingleKeepsLast | pyproject_metadata/__init__.py:122-123 | a single-valued key holds the last value written, and is absent when there was none |
| Json.StringsFromStores | pyproject_metadata/__init__.py:118-123 | every string entry comes from a single-valued field |
| Json.SetSpecStrings | pyproject_metadata/__init__.py:118-123 | a string entry after one assignment was there before or was just stored |
| Json.ConsistentRenders | pyproject_metadata/__init__.py:118-121 | when no key is fed by both kinds of field, the list assertion never fails |
| Json.EmNameNoUnderscore | pyproject_metadata/__init__.py:461-525 | no field name the writer assigns, nor `description`, contains `_` |
| Json.KeyGivesLower | pyproject_metadata/__init__.py:109-110 | for a name without `_`, turning `_` back into `-` in its key gives the lower-cased name |
| Json.SameKeySameLower | pyproject_metadata/__init__.py:109-110 | two names without `_` share a key iff their lower-cased forms are equal |
| Json.AlwaysConsistent | pyproject_metadata/__init__.py:118-123 | for any emissions and any set of repeatable names, no key is fed by both a single-valued and a repeatable name |
| Json.RenderAlwaysSucceeds | pyproject_metadata/__init__.py:118-121 | the list assertion never fails on the writer's emissions, whatever `KNOWN_MULTIUSE` holds |
| Json.JsonMessage.Set | pyproject_metadata/__init__.py:108-123 | None does nothing; keywords become tokens; a repeatable field creates or extends its list, or fails on a string; any other field is stored |
| Json.JsonMessage.SetPayload | pyproject_metadata/__init__.py:125-126 | the body goes in as the description field |
| Json.Assign | pyproject_metadata/__init__.py:108-126 | one emission goes through the setter as the step function says |
| Json.Fill | pyproject_metadata/__init__.py:455-459 | feeding the emissions in order gives the rendered map, or reports the failed assertion |
| Json.RenderStep | pyproject_metadata/__init__.py:108-126 | rendering one more emission is one more setter step |
| Json.RenderFailurePersists | pyproject_metadata/__init__.py:118-121 | once the assertion fails, later emissions do not undo it |
| Json.AsJson | pyproject_metadata/__init__.py:455-459 | a refused write gives no map and the writer's errors; otherwise no errors and always a map, the rendered map of the emissions |

## Left out

- Reading files and globbing are inputs. The file system is a map from names to contents plus a glob function (`Pyproject.FileSystem`). Encodings and `relative_to` are not modelled.
- The `packaging` library is outside this model:
  - requirement, version and specifier parsing are parameters (`Ingest.Parsers`);
  - a parsed version or specifier is kept as its text;
  - a marker is a small datatype, not parsed text; the text the source hands back to the parser is not re-parsed;
  - `canonical_name` is not modelled.
- The `email` library is outside this model:
  - `formataddr` is a parameter;
  - the message object is only its ordered headers and body;
  - `as_bytes`, the policy's `utf8`/`max_line_length` defaults and header encoding are not modelled.
- Text is ASCII: lower-casing, `capitalize`, `strip` and `\w` use the ASCII rules, not Unicode.
- `Validation.ValidateEvents`: like `Validation.ValidateErrors`, which lists `!ValidName(md.name)` as the name error, checks the project name with the intended pattern (`Validation.ValidName`), so a name ending in a line break is reported where the source's `re.match` accepts it. The `re.IGNORECASE` Unicode folding, which also lets `İ`, `ı`, `ſ` and the Kelvin sign match ASCII letters, is not modelled.
- `Validation.ValidateErrorMembership`: states error membership for the intended name pattern, as `Validation.ValidateEvents` checks it; the trailing-line-break and Unicode-folding cases of the source differ.
- `Validation.NameErrorIff`: a `project.name` error exactly when `Validation.ValidName` fails, the intended pattern; the source reports no error for a valid name followed by a line break, or for names with the Unicode letters above.
- `Pyproject.EntrypointsSpec`: checks section names with the intended pattern (`Pyproject.DottedName`), so a section such as `console` followed by a line break is refused where the source accepts it. `\w` is ASCII here; the source's `\w` also matches non-ASCII letters and digits.
- `Pyproject.GetEntrypoints`: uses the same intended section pattern as `Pyproject.EntrypointsSpec`.
- Error and warning message texts are not modelled. An error is its key; a warning is a tag naming what it warns about.
- `ErrorCollector` and `PyProjectReader` are not part of the model. They are modelled as "collect all errors" against "stop at the first error", together with the warnings issued before that point. Raising an `ExceptionGroup` and the finalize message are not modelled.
- Outside the construction step, a check that fails records its error and reading goes on with the default value.
- `Ingest.Construct`: the record is built inside one `with pyproject.collect():` block, `cls(...)`, and the extractors raise. The first extractor that raises ends the block, so even in collect-all mode only its error is reported, and the errors later extractors would raise are not gathered. This is how the source behaves, not a simplification.
- `Markers.ExtraReqRendering` and `Markers.BuildExtraReq`: both test for a top-level `or` on `Markers.Unwrap(m)`, the marker `packaging` prints, rather than on the parsed top level as the source does. So for the marker `(a or b)` and extra `e` they give `(a or b) and extra == "e"`, where the source writes `a or b and extra == "e"`. The source's text is modelled separately by `Markers.ExtraMarkerTextAsWritten` and the "## Findings" row for `__init__.py:548`.
- `Markers.ExtraReqMeaning`: the meaning is proved of the marker the model builds, together with `Markers.ExtraReqRendering`. The source re-parses the printed text instead. The two agree except where `packaging` prints a marker without parentheses it needs. That happens for a sub-marker that is itself one parenthesised group: `c and ((a or b))` prints as `c and a or b`. It also happens for the top-level single group that "## Findings" lists.
- `KNOWN_MULTIUSE` is a parameter of the JSON setter, because `constants.py` does not define it.
- JSON dictionary insertion order is not kept: the output is a Dafny map.
- The order of the `Project-URL` and entry-point tables is kept as a list of pairs. Key uniqueness of those tables is not enforced.
- `Ingest.FromPyprojectSpec`: requires a well-typed top level (the `project` and `build-system` values, when present, are tables), as the typed input declares.
- The class fields of `StandardMetadata` are held together as one `Metadata` value. An assignment replaces that value.
- `pyproject_metadata/__main__.py` and `pyproject_metadata/project_table.py` are not part of this model: one is the command-line wrapper, the other only type declarations.
- `noxfile.py` is development tooling and is not part of this model.

## Findings

| source | as written | input that shows it | evidently intended | confidence | as-written member | corrected member |
|---|---|---|---|---|---|---|
| pyproject_metadata/__init__.py:219-221 | the name pattern ends in `$` and is used with `re.match`, so it also matches just before a final newline | the name `foo` followed by a newline passes the check | the name is only letters, digits, `.`, `_`, `-`, starting and ending with a letter or digit | not executed | Validation.NameTrailingNewline | Validation.ValidNameChars |
| pyproject_metadata/pyproject.py:277 | the section pattern `^\w+(\.\w+)*$` is used with `re.match`, so it also matches just before a final newline | the section name `console` followed by a newline is accepted | a section name is dot-separated words only | not executed | Pyproject.SectionTrailingNewline | Pyproject.DottedNameChars |
| pyproject_metadata/__init__.py:548 | `'or' in requirement.marker._markers` looks at the parsed top level, but the text it parenthesises is `str(marker)`, which prints a marker that is one parenthesised group without those parentheses | the marker `(a or b)` with extra `e` becomes `a or b and extra == "e"`, which holds when `a` does, for every extra | parenthesise whenever the printed marker has a top-level `or`, so the result means `(a or b) and extra == "e"` | not executed | Markers.SingleGroupLosesParentheses | Markers.ExtraReqMeaning |
