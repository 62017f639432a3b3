/**
 * `_write_metadata`: the ordered Core Metadata fields a validated record emits, and
 * the people, extra-name and dynamic-field rules it applies on the way.
 */
module Emit {
  import opened Wrappers
  import opened Errors
  import opened Paths
  import opened Markers
  import opened Pyproject
  import opened MetadataRecord
  import Toml
  import Text
  import Validation
  import Constants

  /** The Core Metadata fields `_write_metadata` can emit. */
  datatype Field =
    | MetadataVersionField | NameField | VersionField | SummaryField | KeywordsField | HomePageField
    | AuthorField | AuthorEmailField | MaintainerField | MaintainerEmailField
    | LicenseField | LicenseExpressionField | LicenseFileField | ClassifierField | ProjectUrlField
    | RequiresPythonField | RequiresDistField | ProvidesExtraField | DescriptionContentTypeField | DynamicField

  /** The header name each field is written under. */
  function FieldName(f: Field): string {
    match f
    case MetadataVersionField => "Metadata-Version"
    case NameField => "Name"
    case VersionField => "Version"
    case SummaryField => "Summary"
    case KeywordsField => "Keywords"
    case HomePageField => "Home-page"
    case AuthorField => "Author"
    case AuthorEmailField => "Author-Email"
    case MaintainerField => "Maintainer"
    case MaintainerEmailField => "Maintainer-Email"
    case LicenseField => "License"
    case LicenseExpressionField => "License-Expression"
    case LicenseFileField => "License-File"
    case ClassifierField => "Classifier"
    case ProjectUrlField => "Project-URL"
    case RequiresPythonField => "Requires-Python"
    case RequiresDistField => "Requires-Dist"
    case ProvidesExtraField => "Provides-Extra"
    case DescriptionContentTypeField => "Description-Content-Type"
    case DynamicField => "Dynamic"
  }

  /** Every name `_write_metadata` writes is a known metadata field, so the header policy accepts it. */
  lemma FieldNamesKnown(f: Field)
    ensures Text.Lower(FieldName(f)) in Constants.KnownMetadataFields
  {
    match f
    case MetadataVersionField =>
      assert Text.Lower("Metadata-Version") == "metadata-version";
    case HomePageField =>
      assert Text.Lower("Home-page") == "home-page";
    case DynamicField =>
      assert Text.Lower("Dynamic") == "dynamic";
    case _ =>
      assert FieldName(f) in Constants.MetadataNames;
      Constants.LowerMetadataName(FieldName(f));
  }

  /** One assignment to the setter: a field (whose value may be `None`), or the message body. */
  datatype Emission = Header(field: Field, value: Option<string>) | Payload(text: string)

  /** What `_write_metadata` does: refuses with the errors it raises, or emits in order. */
  datatype Written = Refused(errors: seq<ConfigError>) | Emitted(items: seq<Emission>)

  /** The values emitted under one field, in order (`None` values are not values). */
  function ValuesOf(items: seq<Emission>, f: Field): seq<string> {
    if |items| == 0 then [] else ValueOf(items[0], f) + ValuesOf(items[1..], f)
  }

  /** The value one emission gives field `f`, if any. */
  function ValueOf(e: Emission, f: Field): seq<string> {
    if e.Header? && e.field == f && e.value.Some? then [e.value.value] else []
  }

  lemma {:induction false} ValuesOfAppend(a: seq<Emission>, b: seq<Emission>, f: Field)
    ensures ValuesOf(a + b, f) == ValuesOf(a, f) + ValuesOf(b, f)
  {
    if |a| == 0 {
      assert a + b == b;
    } else {
      var v := ValueOf(a[0], f);
      assert (a + b)[0] == a[0] && (a + b)[1..] == a[1..] + b;
      calc {
        ValuesOf(a + b, f);
        v + ValuesOf(a[1..] + b, f);
        { ValuesOfAppend(a[1..], b, f); }
        v + (ValuesOf(a[1..], f) + ValuesOf(b, f));
        (v + ValuesOf(a[1..], f)) + ValuesOf(b, f);
      }
    }
  }

  /** No emission of `items` is under field `f`. */
  predicate Without(items: seq<Emission>, f: Field) {
    forall i :: 0 <= i < |items| ==> !(items[i].Header? && items[i].field == f)
  }

  lemma WithoutAppend(a: seq<Emission>, b: seq<Emission>, f: Field)
    requires Without(a, f) && Without(b, f)
    ensures Without(a + b, f)
  {
    forall i | 0 <= i < |a + b|
      ensures !((a + b)[i].Header? && (a + b)[i].field == f)
    {
      if i >= |a| {
        assert (a + b)[i] == b[i - |a|];
      }
    }
  }

  lemma {:induction false} ValuesOfWithout(items: seq<Emission>, f: Field)
    requires Without(items, f)
    ensures ValuesOf(items, f) == []
  {
    if |items| > 0 {
      ValuesOfWithout(items[1..], f);
    }
  }

  /** One emission per value, all under the same field. */
  function HeadersOf(f: Field, values: seq<string>): (r: seq<Emission>)
    ensures |r| == |values|
    ensures forall i :: 0 <= i < |values| ==> r[i] == Header(f, Some(values[i]))
  {
    seq(|values|, i requires 0 <= i < |values| => Header(f, Some(values[i])))
  }

  lemma {:induction false} ValuesOfHeaders(f: Field, values: seq<string>)
    ensures ValuesOf(HeadersOf(f, values), f) == values
  {
    if |values| > 0 {
      ValuesOfHeaders(f, values[1..]);
      assert HeadersOf(f, values)[1..] == HeadersOf(f, values[1..]);
    }
  }

  /** Python truthiness of an optional string. */
  predicate Truthy(v: Option<string>) {
    v.Some? && v.value != ""
  }

  /** `x or None` for a string. */
  function OrNone(s: string): (r: Option<string>)
    ensures r.None? <==> s == ""
    ensures r.Some? ==> r.value == s
  {
    if s == "" then None else Some(s)
  }

  /** The names of the people given without an e-mail address, in order. */
  function NamesWithoutEmail(people: seq<Person>): (r: seq<string>)
    ensures |r| <= |people|
    ensures forall n :: n in r <==> exists p :: p in people && !Truthy(p.email) && p.name == n
  {
    if |people| == 0 then []
    else
      var rest := NamesWithoutEmail(people[1..]);
      assert forall p :: p in people <==> p == people[0] || p in people[1..];
      (if Truthy(people[0].email) then [] else [people[0].name]) + rest
  }

  /** The people given with an e-mail address, as `formataddr` renders them, in order. */
  function AddressesWithEmail(people: seq<Person>, formataddr: (string, string) -> string): (r: seq<string>)
    ensures |r| <= |people|
    ensures forall a :: a in r <==>
      exists p :: p in people && Truthy(p.email) && a == formataddr(p.name, p.email.value)
  {
    if |people| == 0 then []
    else
      var rest := AddressesWithEmail(people[1..], formataddr);
      assert forall p :: p in people <==> p == people[0] || p in people[1..];
      (if Truthy(people[0].email) then [formataddr(people[0].name, people[0].email.value)] else []) + rest
  }

  /** Every person lands in exactly one of the two lists. */
  lemma {:induction false} PeoplePartition(people: seq<Person>, formataddr: (string, string) -> string)
    ensures |NamesWithoutEmail(people)| + |AddressesWithEmail(people, formataddr)| == |people|
  {
    if |people| > 0 {
      PeoplePartition(people[1..], formataddr);
    }
  }

  /** The names of two lists of people are those of the first followed by those of the second. */
  lemma {:induction false} NamesWithoutEmailAppend(a: seq<Person>, b: seq<Person>)
    ensures NamesWithoutEmail(a + b) == NamesWithoutEmail(a) + NamesWithoutEmail(b)
  {
    if |a| > 0 {
      NamesWithoutEmailAppend(a[1..], b);
      assert (a + b)[1..] == a[1..] + b;
    } else {
      assert a + b == b;
    }
  }

  /** One person contributes their name exactly when they have no e-mail address. */
  lemma NamesWithoutEmailOne(p: Person)
    ensures NamesWithoutEmail([p]) == if Truthy(p.email) then [] else [p.name]
  {
  }

  /** The addresses of two lists of people are those of the first followed by those of the second. */
  lemma {:induction false} AddressesWithEmailAppend(a: seq<Person>, b: seq<Person>, formataddr: (string, string) -> string)
    ensures AddressesWithEmail(a + b, formataddr) == AddressesWithEmail(a, formataddr) + AddressesWithEmail(b, formataddr)
  {
    if |a| > 0 {
      AddressesWithEmailAppend(a[1..], b, formataddr);
      assert (a + b)[1..] == a[1..] + b;
    } else {
      assert a + b == b;
    }
  }

  /** One person contributes their address exactly when they have an e-mail address. */
  lemma AddressesWithEmailOne(p: Person, formataddr: (string, string) -> string)
    ensures AddressesWithEmail([p], formataddr) == if Truthy(p.email) then [formataddr(p.name, p.email.value)] else []
  {
  }

  /**
   * `_name_list`: the names of the people without an e-mail address joined by `", "`,
   * or nothing when that string is empty.
   */
  function NameList(people: seq<Person>): (r: Option<string>)
    ensures r.None? <==> (|NamesWithoutEmail(people)| == 0
                          || (|NamesWithoutEmail(people)| == 1 && NamesWithoutEmail(people)[0] == ""))
    ensures r.Some? ==> r.value == Text.Join(NamesWithoutEmail(people), ", ")
  {
    JoinEmpty(NamesWithoutEmail(people), ", ");
    OrNone(Text.Join(NamesWithoutEmail(people), ", "))
  }

  /**
   * `_email_list`: the addresses of the people with an e-mail address joined by `", "`,
   * or nothing when that string is empty.
   */
  function EmailList(people: seq<Person>, formataddr: (string, string) -> string): (r: Option<string>)
    ensures r.None? <==> (|AddressesWithEmail(people, formataddr)| == 0
                          || (|AddressesWithEmail(people, formataddr)| == 1 && AddressesWithEmail(people, formataddr)[0] == ""))
    ensures r.Some? ==> r.value == Text.Join(AddressesWithEmail(people, formataddr), ", ")
  {
    JoinEmpty(AddressesWithEmail(people, formataddr), ", ");
    OrNone(Text.Join(AddressesWithEmail(people, formataddr), ", "))
  }

  /** A joined list is empty exactly when it has no piece, or one empty piece. */
  lemma JoinEmpty(parts: seq<string>, sep: string)
    requires sep != ""
    ensures Text.Join(parts, sep) == "" <==> |parts| == 0 || (|parts| == 1 && parts[0] == "")
  {
    if |parts| > 1 {
      assert |Text.Join(parts, sep)| >= |sep|;
    }
  }

  /** When every person has an e-mail address there is no `Author`/`Maintainer` value; when none has, no address list. */
  lemma PeopleListsAbsent(people: seq<Person>, formataddr: (string, string) -> string)
    ensures (forall i :: 0 <= i < |people| ==> Truthy(people[i].email)) ==> NameList(people).None?
    ensures (forall i :: 0 <= i < |people| ==> !Truthy(people[i].email)) ==> EmailList(people, formataddr).None?
  {
    if forall i :: 0 <= i < |people| ==> Truthy(people[i].email) {
      NoNamesWithoutEmail(people);
    }
    if forall i :: 0 <= i < |people| ==> !Truthy(people[i].email) {
      NoAddresses(people, formataddr);
    }
  }

  lemma {:induction false} NoNamesWithoutEmail(people: seq<Person>)
    requires forall i :: 0 <= i < |people| ==> Truthy(people[i].email)
    ensures NamesWithoutEmail(people) == []
  {
    if |people| > 0 {
      NoNamesWithoutEmail(people[1..]);
    }
  }

  lemma {:induction false} NoAddresses(people: seq<Person>, formataddr: (string, string) -> string)
    requires forall i :: 0 <= i < |people| ==> !Truthy(people[i].email)
    ensures AddressesWithEmail(people, formataddr) == []
  {
    if |people| > 0 {
      NoAddresses(people[1..], formataddr);
    }
  }

  /** The extra name as written to `Provides-Extra`: `.` and `_` become `-`, then lower case. */
  function NormExtra(extra: string): (r: string)
    ensures |r| == |extra|
    ensures forall i :: 0 <= i < |r| ==> r[i] != '.' && r[i] != '_' && !Text.IsUpper(r[i])
  {
    Text.Lower(Text.Replace(Text.Replace(extra, '.', '-'), '_', '-'))
  }

  /** Normalising a normalised extra name changes nothing. */
  lemma NormExtraIdempotent(extra: string)
    ensures NormExtra(NormExtra(extra)) == NormExtra(extra)
  {
    var n := NormExtra(extra);
    assert Text.Replace(n, '.', '-') == n;
    assert Text.Replace(Text.Replace(n, '.', '-'), '_', '-') == n;
    assert Text.Lower(n) == n;
  }

  /** `Metadata-Version` and `Name`, written before the version check. */
  function Preamble(md: Metadata): seq<Emission> {
    [Header(MetadataVersionField, Some(AutoMetadataVersion(md))), Header(NameField, Some(md.name))]
  }

  /** One emission gives the value it assigns, if any. */
  lemma ValuesOfOne(e: Emission, f: Field)
    ensures ValuesOf([e], f) == ValueOf(e, f)
  {
    assert [e][1..] == [];
  }

  /** The values of four runs of emissions are those of each run in turn. */
  lemma ValuesOfAppend4(a: seq<Emission>, b: seq<Emission>, c: seq<Emission>, d: seq<Emission>, f: Field)
    ensures ValuesOf(a + b + c + d, f) == ValuesOf(a, f) + ValuesOf(b, f) + ValuesOf(c, f) + ValuesOf(d, f)
  {
    ValuesOfAppend(a, b, f);
    ValuesOfAppend(a + b, c, f);
    ValuesOfAppend(a + b + c, d, f);
  }

  /** `Version`, `Summary`, `Keywords` and `Home-page`. */
  function IdentitySection(md: Metadata): (r: seq<Emission>)
    requires md.version.Some?
    ensures |r| >= 2 && r[0] == Header(VersionField, Some(md.version.value.text))
    ensures Without(r, LicenseFileField) && Without(r, DynamicField)
  {
    IdentityItems(md.version.value.text, md.description, OrNone(Text.Join(md.keywords, ",")),
      Toml.Get(md.urls, "homepage"))
  }

  /** The identity section from its four values. */
  function IdentityItems(version: string, description: Option<string>, keywords: Option<string>,
                         homepage: Option<string>): seq<Emission>
  {
    [Header(VersionField, Some(version))]
    + (if Truthy(description) then [Header(SummaryField, description)] else [])
    + [Header(KeywordsField, keywords)]
    + (if homepage.Some? then [Header(HomePageField, homepage)] else [])
  }

  /** The values the identity items assign to one field, item by item. */
  lemma IdentityItemsField(version: string, description: Option<string>, keywords: Option<string>,
                           homepage: Option<string>, f: Field)
    ensures ValuesOf(IdentityItems(version, description, keywords, homepage), f) ==
      ValueOf(Header(VersionField, Some(version)), f)
      + (if Truthy(description) then ValueOf(Header(SummaryField, description), f) else [])
      + ValueOf(Header(KeywordsField, keywords), f)
      + (if homepage.Some? then ValueOf(Header(HomePageField, homepage), f) else [])
  {
    var v := [Header(VersionField, Some(version))];
    var s := if Truthy(description) then [Header(SummaryField, description)] else [];
    var k := [Header(KeywordsField, keywords)];
    var h := if homepage.Some? then [Header(HomePageField, homepage)] else [];
    ValuesOfAppend4(v, s, k, h, f);
    ValuesOfOne(v[0], f);
    ValuesOfOne(k[0], f);
    if Truthy(description) {
      ValuesOfOne(s[0], f);
    }
    if homepage.Some? {
      ValuesOfOne(h[0], f);
    }
  }

  /** Each of the four values lands under its own field, the summary only when truthy. */
  lemma IdentityItemsValues(version: string, description: Option<string>, keywords: Option<string>,
                            homepage: Option<string>)
    ensures var r := IdentityItems(version, description, keywords, homepage);
      && ValuesOf(r, VersionField) == [version]
      && ValuesOf(r, SummaryField) == (if Truthy(description) then [description.value] else [])
      && Header(KeywordsField, keywords) in r
      && ValuesOf(r, KeywordsField) == (if keywords.Some? then [keywords.value] else [])
      && ValuesOf(r, HomePageField) == (if homepage.Some? then [homepage.value] else [])
  {
    var r := IdentityItems(version, description, keywords, homepage);
    assert ValuesOf(r, VersionField) == [version] by {
      IdentityItemsField(version, description, keywords, homepage, VersionField);
    }
    assert ValuesOf(r, SummaryField) == (if Truthy(description) then [description.value] else []) by {
      IdentityItemsField(version, description, keywords, homepage, SummaryField);
    }
    assert ValuesOf(r, KeywordsField) == (if keywords.Some? then [keywords.value] else []) by {
      IdentityItemsField(version, description, keywords, homepage, KeywordsField);
    }
    assert ValuesOf(r, HomePageField) == (if homepage.Some? then [homepage.value] else []) by {
      IdentityItemsField(version, description, keywords, homepage, HomePageField);
    }
    assert Header(KeywordsField, keywords) in r by {
      var n := if Truthy(description) then 2 else 1;
      assert r[n] == Header(KeywordsField, keywords);
    }
  }

  /**
   * What the identity section assigns: the version always; the summary only for a
   * non-empty description; the keywords joined by `,` always, as `None` when that
   * text is empty; the home page only when the URLs name one.
   */
  lemma IdentitySectionValues(md: Metadata)
    requires md.version.Some?
    ensures ValuesOf(IdentitySection(md), VersionField) == [md.version.value.text]
    ensures ValuesOf(IdentitySection(md), SummaryField) ==
      (if Truthy(md.description) then [md.description.value] else [])
    ensures Header(KeywordsField, OrNone(Text.Join(md.keywords, ","))) in IdentitySection(md)
    ensures ValuesOf(IdentitySection(md), KeywordsField) ==
      (if Text.Join(md.keywords, ",") == "" then [] else [Text.Join(md.keywords, ",")])
    ensures ValuesOf(IdentitySection(md), HomePageField) ==
      (if "homepage" in Toml.Keys(md.urls) then [Toml.Get(md.urls, "homepage").value] else [])
  {
    IdentityItemsValues(md.version.value.text, md.description, OrNone(Text.Join(md.keywords, ",")),
      Toml.Get(md.urls, "homepage"));
  }

  /** `Author`, `Author-Email`, `Maintainer`, `Maintainer-Email`. */
  function PeopleSection(md: Metadata, formataddr: (string, string) -> string): (r: seq<Emission>)
    ensures Without(r, LicenseFileField) && Without(r, DynamicField)
  {
    [ Header(AuthorField, NameList(md.authors)), Header(AuthorEmailField, EmailList(md.authors, formataddr)),
      Header(MaintainerField, NameList(md.maintainers)), Header(MaintainerEmailField, EmailList(md.maintainers, formataddr))]
  }

  /** `License` for a legacy license, `License-Expression` for an SPDX expression. */
  function LicenseSection(md: Metadata): (r: seq<Emission>)
    ensures Without(r, LicenseFileField) && Without(r, DynamicField)
  {
    match md.license
    case NoLicense => []
    case LegacyLicense(l) => [Header(LicenseField, Some(l.text))]
    case SpdxLicense(e) => [Header(LicenseExpressionField, Some(e))]
  }

  /** The license files as written: sorted, without duplicates, in POSIX form. */
  function LicenseFileValues(files: Option<seq<Path>>): (r: seq<string>)
    ensures files.None? ==> r == []
    ensures files.Some? ==>
      (|r| == |SortedUnique(files.value)| && forall i :: 0 <= i < |r| ==> r[i] == AsPosix(SortedUnique(files.value)[i]))
  {
    if files.None? then []
    else
      var sorted := SortedUnique(files.value);
      seq(|sorted|, i requires 0 <= i < |sorted| => AsPosix(sorted[i]))
  }

  /** `Project-URL` values: the capitalised label, a comma, the URL. */
  function UrlValues(urls: seq<(string, string)>): (r: seq<string>)
    ensures |r| == |urls|
    ensures forall i :: 0 <= i < |urls| ==> r[i] == Text.Capitalize(urls[i].0) + ", " + urls[i].1
  {
    seq(|urls|, i requires 0 <= i < |urls| => Text.Capitalize(urls[i].0) + ", " + urls[i].1)
  }

  /** The requirement strings of one extra, each with the extra's marker added. */
  function ExtraRequirements(extra: string, reqs: seq<Requirement>): (r: seq<string>)
    ensures |r| == |reqs|
    ensures forall j :: 0 <= j < |reqs| ==> r[j] == RequirementString(BuildExtraReq(extra, reqs[j]))
  {
    seq(|reqs|, j requires 0 <= j < |reqs| => RequirementString(BuildExtraReq(extra, reqs[j])))
  }

  /** One extra: its normalised name, then its requirements. */
  function GroupSection(group: (string, seq<Requirement>)): (r: seq<Emission>)
    ensures Without(r, LicenseFileField) && Without(r, DynamicField)
  {
    var norm := NormExtra(group.0);
    [Header(ProvidesExtraField, Some(norm))] + HeadersOf(RequiresDistField, ExtraRequirements(norm, group.1))
  }

  /** Every extra in order. */
  function ExtrasSection(groups: seq<(string, seq<Requirement>)>): (r: seq<Emission>)
    ensures Without(r, LicenseFileField) && Without(r, DynamicField)
    ensures |groups| > 0 ==> |r| > 0 && r[0] == Header(ProvidesExtraField, Some(NormExtra(groups[0].0)))
  {
    if |groups| == 0 then []
    else
      var g, rest := GroupSection(groups[0]), ExtrasSection(groups[1..]);
      WithoutAppend(g, rest, LicenseFileField);
      WithoutAppend(g, rest, DynamicField);
      g + rest
  }

  /** The number of `Requires-Dist` values at the front of `items`. */
  function LeadingRequires(items: seq<Emission>): (n: nat)
    ensures n <= |items|
  {
    if |items| > 0 && items[0].Header? && items[0].field == RequiresDistField && items[0].value.Some? then
      1 + LeadingRequires(items[1..])
    else 0
  }

  /**
   * How a reader groups the extras section: each `Provides-Extra` value with the
   * `Requires-Dist` values that directly follow it.
   */
  function ReadGroups(items: seq<Emission>): seq<(string, seq<string>)>
    decreases |items|
  {
    if |items| == 0 then []
    else if items[0].Header? && items[0].field == ProvidesExtraField && items[0].value.Some? then
      var n := LeadingRequires(items[1..]);
      [(items[0].value.value, ValuesOf(items[1..1 + n], RequiresDistField))] + ReadGroups(items[1 + n..])
    else ReadGroups(items[1..])
  }

  lemma {:induction false} LeadingRequiresHeaders(values: seq<string>, tail: seq<Emission>)
    requires |tail| == 0 || (tail[0].Header? && tail[0].field == ProvidesExtraField)
    ensures LeadingRequires(HeadersOf(RequiresDistField, values) + tail) == |values|
  {
    if |values| == 0 {
      assert HeadersOf(RequiresDistField, values) + tail == tail;
    } else {
      LeadingRequiresHeaders(values[1..], tail);
      assert (HeadersOf(RequiresDistField, values) + tail)[1..] == HeadersOf(RequiresDistField, values[1..]) + tail;
    }
  }

  /** Every extra under its normalised name, with its requirement strings. */
  function ExtrasOf(groups: seq<(string, seq<Requirement>)>): (r: seq<(string, seq<string>)>)
    ensures |r| == |groups|
    ensures forall k :: 0 <= k < |groups| ==>
      r[k] == (NormExtra(groups[k].0), ExtraRequirements(NormExtra(groups[k].0), groups[k].1))
  {
    if |groups| == 0 then []
    else
      var norm := NormExtra(groups[0].0);
      [(norm, ExtraRequirements(norm, groups[0].1))] + ExtrasOf(groups[1..])
  }

  /**
   * Reading the extras section back gives every extra in order, under its normalised
   * name, with exactly its own requirements (each carrying the extra's marker).
   */
  lemma {:induction false} ExtrasReadBack(groups: seq<(string, seq<Requirement>)>)
    ensures ReadGroups(ExtrasSection(groups)) == ExtrasOf(groups)
  {
    if |groups| > 0 {
      var norm := NormExtra(groups[0].0);
      var values := ExtraRequirements(norm, groups[0].1);
      var rest := ExtrasSection(groups[1..]);
      assert ExtrasSection(groups) == [Header(ProvidesExtraField, Some(norm))] + HeadersOf(RequiresDistField, values) + rest;
      GroupReadBack(norm, values, rest);
      ExtrasReadBack(groups[1..]);
    }
  }

  /** One `Provides-Extra` header and its `Requires-Dist` headers read back as one group. */
  lemma GroupReadBack(norm: string, values: seq<string>, rest: seq<Emission>)
    requires |rest| == 0 || (rest[0].Header? && rest[0].field == ProvidesExtraField)
    ensures ReadGroups([Header(ProvidesExtraField, Some(norm))] + HeadersOf(RequiresDistField, values) + rest)
      == [(norm, values)] + ReadGroups(rest)
  {
    LeadingRequiresHeaders(values, rest);
    ValuesOfHeaders(RequiresDistField, values);
    ReadOneGroup(Header(ProvidesExtraField, Some(norm)), HeadersOf(RequiresDistField, values), rest);
  }

  /** A group header followed by exactly `reqs` as its leading requirements reads back as one group. */
  lemma ReadOneGroup(h: Emission, reqs: seq<Emission>, rest: seq<Emission>)
    requires h.Header? && h.field == ProvidesExtraField && h.value.Some?
    requires LeadingRequires(reqs + rest) == |reqs|
    ensures ReadGroups([h] + reqs + rest) == [(h.value.value, ValuesOf(reqs, RequiresDistField))] + ReadGroups(rest)
  {
    var items := [h] + reqs + rest;
    var n := |reqs|;
    assert items[1..] == reqs + rest;
    assert items[1..1 + n] == reqs;
    assert items[1 + n..] == rest;
  }

  /** `Description-Content-Type` when the readme has one, then the readme text as the body. */
  function ReadmeSection(readme: Option<Readme>): (r: seq<Emission>)
    ensures Without(r, LicenseFileField) && Without(r, DynamicField)
  {
    if readme.None? then []
    else
      (if readme.value.contentType != "" then [Header(DescriptionContentTypeField, Some(readme.value.contentType))] else [])
      + [Payload(readme.value.text)]
  }

  /** Everything from `Version` up to the license. */
  function Before(md: Metadata, formataddr: (string, string) -> string): (r: seq<Emission>)
    requires md.version.Some?
    ensures Without(r, LicenseFileField) && Without(r, DynamicField)
  {
    var p0, p1, p2, p3 := Preamble(md), IdentitySection(md), PeopleSection(md, formataddr), LicenseSection(md);
    WithoutAppend(p0, p1, LicenseFileField);
    WithoutAppend(p0 + p1, p2, LicenseFileField);
    WithoutAppend(p0 + p1 + p2, p3, LicenseFileField);
    WithoutAppend(p0, p1, DynamicField);
    WithoutAppend(p0 + p1, p2, DynamicField);
    WithoutAppend(p0 + p1 + p2, p3, DynamicField);
    p0 + p1 + p2 + p3
  }

  /** The `License-File` entries. */
  function Files(md: Metadata): (r: seq<Emission>)
    ensures Without(r, DynamicField)
  {
    HeadersOf(LicenseFileField, LicenseFileValues(md.licenseFiles))
  }

  /** Everything after the license files up to the body. */
  function After(md: Metadata): (r: seq<Emission>)
    ensures Without(r, LicenseFileField) && Without(r, DynamicField)
  {
    var rp := md.requiresPython;
    var p0 := HeadersOf(ClassifierField, md.classifiers);
    var p1 := HeadersOf(ProjectUrlField, UrlValues(md.urls));
    var p2 := if rp.Some? && rp.value.text != "" then [Header(RequiresPythonField, Some(rp.value.text))] else [];
    var p3 := HeadersOf(RequiresDistField, seq(|md.dependencies|, i requires 0 <= i < |md.dependencies| =>
      RequirementString(md.dependencies[i])));
    var p4, p5 := ExtrasSection(md.optionalDependencies), ReadmeSection(md.readme);
    WithoutAppend(p0, p1, LicenseFileField);
    WithoutAppend(p0 + p1, p2, LicenseFileField);
    WithoutAppend(p0 + p1 + p2, p3, LicenseFileField);
    WithoutAppend(p0 + p1 + p2 + p3, p4, LicenseFileField);
    WithoutAppend(p0 + p1 + p2 + p3 + p4, p5, LicenseFileField);
    WithoutAppend(p0, p1, DynamicField);
    WithoutAppend(p0 + p1, p2, DynamicField);
    WithoutAppend(p0 + p1 + p2, p3, DynamicField);
    WithoutAppend(p0 + p1 + p2 + p3, p4, DynamicField);
    WithoutAppend(p0 + p1 + p2 + p3 + p4, p5, DynamicField);
    p0 + p1 + p2 + p3 + p4 + p5
  }

  /** A dynamic metadata field that may be written: not `name`, `version` or `dynamic`, and known. */
  predicate GoodDynamic(field: string) {
    var lower := Text.Lower(field);
    lower !in {"name", "version", "dynamic"} && lower in Constants.KnownMetadataFields
  }

  /** The `Dynamic` entries: none under 2.1; otherwise each field in order, the first bad one refused. */
  function DynamicSection(md: Metadata): (r: Result<seq<Emission>>)
    ensures AutoMetadataVersion(md) == "2.1" ==> r == Success([])
    ensures AutoMetadataVersion(md) != "2.1" ==>
      (r.Success? <==> forall i :: 0 <= i < |md.dynamicMetadata| ==> GoodDynamic(md.dynamicMetadata[i]))
    ensures r.Failure? ==> r.error == Unkeyed
    ensures r.Success? ==> Without(r.value, LicenseFileField)
  {
    if AutoMetadataVersion(md) == "2.1" then Success([])
    else if forall i :: 0 <= i < |md.dynamicMetadata| ==> GoodDynamic(md.dynamicMetadata[i]) then
      Success(HeadersOf(DynamicField, md.dynamicMetadata))
    else Failure(Unkeyed)
  }

  /** The emissions of a write that is not refused, in order. */
  function Layout(md: Metadata, formataddr: (string, string) -> string): seq<Emission>
    requires md.version.Some? && DynamicSection(md).Success?
  {
    Before(md, formataddr) + Files(md) + After(md) + DynamicSection(md).value
  }

  /**
   * `_write_metadata`: validation without warnings first (its errors are raised), then
   * a missing version is refused, then the fields in order, a bad dynamic field
   * refusing the whole.
   */
  function WriteSpec(md: Metadata, formataddr: (string, string) -> string): (r: Written)
    ensures !Validation.Validate(md, false).Ok() ==> r == Refused(Validation.Validate(md, false).errors)
    ensures Validation.Validate(md, false).Ok() && md.version.None? ==> r == Refused([Unkeyed])
    ensures r.Refused? ==> r.errors != []
    ensures r.Emitted? ==>
      (&& Validation.Validate(md, false).Ok() && md.version.Some? && DynamicSection(md).Success?
       && r.items == Layout(md, formataddr))
  {
    var report := Validation.Validate(md, false);
    if !report.Ok() then Refused(report.errors)
    else if md.version.None? then Refused([Unkeyed])
    else
      match DynamicSection(md)
      case Failure(e) => Refused([e])
      case Success(dyn) => Emitted(Layout(md, formataddr))
  }

  /** The values of a field that only the second of four parts carries. */
  lemma {:induction false} ValuesOfSecond(b: seq<Emission>, m: seq<Emission>, a: seq<Emission>, d: seq<Emission>, f: Field)
    requires Without(b, f) && Without(a, f) && Without(d, f)
    ensures ValuesOf(b + m + a + d, f) == ValuesOf(m, f)
  {
    ValuesOfAppend(b + m + a, d, f);
    ValuesOfAppend(b + m, a, f);
    ValuesOfAppend(b, m, f);
    ValuesOfWithout(b, f);
    ValuesOfWithout(a, f);
    ValuesOfWithout(d, f);
  }

  /** The values of a field that only the last of four parts carries. */
  lemma {:induction false} ValuesOfLast(b: seq<Emission>, m: seq<Emission>, a: seq<Emission>, d: seq<Emission>, f: Field)
    requires Without(b, f) && Without(m, f) && Without(a, f)
    ensures ValuesOf(b + m + a + d, f) == ValuesOf(d, f)
  {
    ValuesOfAppend(b + m + a, d, f);
    ValuesOfAppend(b + m, a, f);
    ValuesOfAppend(b, m, f);
    ValuesOfWithout(b, f);
    ValuesOfWithout(m, f);
    ValuesOfWithout(a, f);
  }

  /** The `License-File` values of the output are those of the license files section. */
  lemma LicenseFilesFromSection(md: Metadata, formataddr: (string, string) -> string)
    requires md.version.Some? && DynamicSection(md).Success?
    ensures ValuesOf(Layout(md, formataddr), LicenseFileField) == LicenseFileValues(md.licenseFiles)
  {
    ValuesOfSecond(Before(md, formataddr), Files(md), After(md), DynamicSection(md).value, LicenseFileField);
    ValuesOfHeaders(LicenseFileField, LicenseFileValues(md.licenseFiles));
  }

  /** `License-File` values come out sorted by path, without duplicates, one per listed file. */
  lemma LicenseFilesSorted(md: Metadata, formataddr: (string, string) -> string)
    requires md.version.Some? && DynamicSection(md).Success?
    ensures md.licenseFiles.None? ==> ValuesOf(Layout(md, formataddr), LicenseFileField) == []
    ensures md.licenseFiles.Some? ==>
      var files, sorted := ValuesOf(Layout(md, formataddr), LicenseFileField), SortedUnique(md.licenseFiles.value);
      && StrictlySorted(sorted)
      && (forall p :: p in sorted <==> p in md.licenseFiles.value)
      && |files| == |sorted| && (forall i :: 0 <= i < |sorted| ==> files[i] == AsPosix(sorted[i]))
  {
    LicenseFilesFromSection(md, formataddr);
  }

  /** Only the dynamic section carries `Dynamic` entries. */
  lemma DynamicValuesFromSection(md: Metadata, formataddr: (string, string) -> string)
    requires md.version.Some? && DynamicSection(md).Success?
    ensures ValuesOf(Layout(md, formataddr), DynamicField) == ValuesOf(DynamicSection(md).value, DynamicField)
  {
    ValuesOfLast(Before(md, formataddr), Files(md), After(md), DynamicSection(md).value, DynamicField);
  }

  /** The `Dynamic` values of a section: none under 2.1, otherwise the record's dynamic metadata. */
  lemma SectionDynamicValues(md: Metadata)
    requires DynamicSection(md).Success?
    ensures AutoMetadataVersion(md) == "2.1" ==> ValuesOf(DynamicSection(md).value, DynamicField) == []
    ensures AutoMetadataVersion(md) != "2.1" ==> ValuesOf(DynamicSection(md).value, DynamicField) == md.dynamicMetadata
  {
    if AutoMetadataVersion(md) != "2.1" {
      ValuesOfHeaders(DynamicField, md.dynamicMetadata);
    }
  }

  /** `Dynamic` values: none under 2.1, and otherwise exactly the record's dynamic metadata, all writable. */
  lemma DynamicEntries(md: Metadata, formataddr: (string, string) -> string)
    requires md.version.Some? && DynamicSection(md).Success?
    ensures AutoMetadataVersion(md) == "2.1" ==> ValuesOf(Layout(md, formataddr), DynamicField) == []
    ensures AutoMetadataVersion(md) != "2.1" ==> ValuesOf(Layout(md, formataddr), DynamicField) == md.dynamicMetadata
    ensures forall v :: v in ValuesOf(Layout(md, formataddr), DynamicField) ==> GoodDynamic(v)
  {
    DynamicValuesFromSection(md, formataddr);
    SectionDynamicValues(md);
  }

  /** Outside 2.1, a dynamic field named `name`, `version` or `dynamic`, or unknown, refuses the write. */
  lemma BadDynamicRefused(md: Metadata, formataddr: (string, string) -> string, i: nat)
    requires Validation.Validate(md, false).Ok() && md.version.Some?
    requires AutoMetadataVersion(md) != "2.1"
    requires i < |md.dynamicMetadata| && !GoodDynamic(md.dynamicMetadata[i])
    ensures WriteSpec(md, formataddr) == Refused([Unkeyed])
  {
  }
}
