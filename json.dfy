/**
 * The JSON output: the same emissions as the header output, stored in a map whose keys
 * are the lower-case field names with `-` turned into `_`. Repeatable fields collect
 * their values in a list, and `Keywords` is split back into its words.
 */
module Json {
  import opened Wrappers
  import opened Errors
  import Text
  import Emit
  import Record

  datatype JsonValue = JStr(s: string) | JList(items: seq<string>)

  /** The map key of a field name. */
  function JsonKey(name: string): (r: string)
    ensures |r| == |name|
    ensures forall i :: 0 <= i < |name| ==> r[i] == (if name[i] == '-' then '_' else Text.LowerChar(name[i]))
    ensures forall i :: 0 <= i < |r| ==> r[i] != '-' && !Text.IsUpper(r[i])
  {
    Text.Replace(Text.Lower(name), '-', '_')
  }

  /** The words of a comma-separated keyword value: each stripped, the empty ones dropped. */
  function KeywordTokens(value: string): seq<string> {
    NonEmptyStripped(Text.Split(value, ','))
  }

  function NonEmptyStripped(parts: seq<string>): (r: seq<string>)
    ensures |r| <= |parts|
    ensures forall i :: 0 <= i < |r| ==> r[i] != ""
  {
    if |parts| == 0 then []
    else
      var head := Text.Strip(parts[0]);
      (if head == "" then [] else [head]) + NonEmptyStripped(parts[1..])
  }

  /** Splitting the pieces in two splits the result at the same place. */
  lemma {:induction false} NonEmptyStrippedAppend(a: seq<string>, b: seq<string>)
    ensures NonEmptyStripped(a + b) == NonEmptyStripped(a) + NonEmptyStripped(b)
  {
    if |a| > 0 {
      NonEmptyStrippedAppend(a[1..], b);
      assert (a + b)[1..] == a[1..] + b;
    } else {
      assert a + b == b;
    }
  }

  /** One piece is kept stripped, or dropped when only white space remains. */
  lemma NonEmptyStrippedOne(p: string)
    ensures NonEmptyStripped([p]) == if Text.Strip(p) == "" then [] else [Text.Strip(p)]
  {
  }

  /** A keyword that survives `",".join` followed by the JSON split unchanged. */
  predicate PlainKeyword(k: string) {
    k != "" && ',' !in k && Text.Strip(k) == k
  }

  /** Pieces that are already stripped and non-empty pass through untouched. */
  lemma {:induction false} NonEmptyStrippedPlain(parts: seq<string>)
    requires forall i :: 0 <= i < |parts| ==> parts[i] != "" && Text.Strip(parts[i]) == parts[i]
    ensures NonEmptyStripped(parts) == parts
  {
    if |parts| > 0 {
      NonEmptyStrippedPlain(parts[1..]);
      assert parts == [parts[0]] + parts[1..];
    }
  }

  /**
   * Keywords written as one comma-joined value are read back as the same list, when
   * none is empty, holds a comma or has surrounding white space.
   */
  lemma KeywordsRoundTrip(keywords: seq<string>)
    requires forall i :: 0 <= i < |keywords| ==> PlainKeyword(keywords[i])
    ensures KeywordTokens(Text.Join(keywords, ",")) == keywords
  {
    if |keywords| == 0 {
      assert Text.Split("", ',') == [""];
    } else {
      assert Text.NoSeparator(keywords, ',');
      Text.SplitJoin(keywords, ',');
      assert [','] == ",";
      NonEmptyStrippedPlain(keywords);
    }
  }

  /** A name whose values are collected in a list. */
  predicate Appends(name: string, multiuse: set<string>) {
    Text.Lower(name) != "keywords" && Text.Lower(name) in multiuse
  }

  /** A name whose value replaces the entry. */
  predicate Stores(name: string, multiuse: set<string>) {
    Text.Lower(name) != "keywords" && Text.Lower(name) !in multiuse
  }

  /**
   * The map after one assignment, or `None` where the source's `isinstance` assertion
   * fails: a repeatable name whose key already holds a single string.
   */
  function SetSpec(data: map<string, JsonValue>, name: string, value: Option<string>, multiuse: set<string>)
    : Option<map<string, JsonValue>>
  {
    var key := JsonKey(name);
    if value.None? then Some(data)
    else if Text.Lower(name) == "keywords" then Some(data[key := JList(KeywordTokens(value.value))])
    else if Text.Lower(name) in multiuse then
      if key !in data then Some(data[key := JList([value.value])])
      else match data[key]
        case JList(xs) => Some(data[key := JList(xs + [value.value])])
        case JStr(_) => None
    else Some(data[key := JStr(value.value)])
  }

  /** The name and value one emission assigns; the body goes under `description`. */
  function EmName(e: Emit.Emission): string {
    if e.Header? then Emit.FieldName(e.field) else "description"
  }

  function EmValue(e: Emit.Emission): Option<string> {
    if e.Header? then e.value else Some(e.text)
  }

  /** The map after a sequence of emissions, or `None` if an assertion fails on the way. */
  function Render(items: seq<Emit.Emission>, multiuse: set<string>): Option<map<string, JsonValue>>
  {
    if |items| == 0 then Some(map[])
    else
      match Render(items[..|items| - 1], multiuse)
      case None => None
      case Some(data) => SetSpec(data, EmName(items[|items| - 1]), EmValue(items[|items| - 1]), multiuse)
  }

  /** The values, in order, that the emissions assign under `key`. */
  function ValuesAt(items: seq<Emit.Emission>, key: string): seq<string>
  {
    if |items| == 0 then []
    else
      var e := items[|items| - 1];
      ValuesAt(items[..|items| - 1], key)
        + (if JsonKey(EmName(e)) == key && EmValue(e).Some? then [EmValue(e).value] else [])
  }

  /** The entry under `key` holds exactly `vals`, absent when there are none. */
  predicate HoldsList(data: map<string, JsonValue>, key: string, vals: seq<string>) {
    (vals == [] ==> key !in data) && (vals != [] ==> key in data && data[key] == JList(vals))
  }

  /** One assignment keeps `HoldsList` under `key`, adding the value when it lands there. */
  lemma AppendStep(data: map<string, JsonValue>, name: string, value: Option<string>, multiuse: set<string>,
                   key: string, vals: seq<string>)
    requires HoldsList(data, key, vals)
    requires JsonKey(name) == key ==> Appends(name, multiuse)
    requires SetSpec(data, name, value, multiuse).Some?
    ensures HoldsList(SetSpec(data, name, value, multiuse).value, key,
      vals + (if JsonKey(name) == key && value.Some? then [value.value] else []))
  {
    if JsonKey(name) == key && value.Some? {
      assert [] + [value.value] == [value.value];
    } else {
      assert vals + [] == vals;
    }
  }

  /**
   * A repeatable field collects every value assigned under its key, in order, when no
   * other kind of name shares that key; a key nothing was assigned to stays absent.
   */
  lemma {:induction false} RepeatableCollects(items: seq<Emit.Emission>, multiuse: set<string>, key: string)
    requires Render(items, multiuse).Some?
    requires forall i :: 0 <= i < |items| && JsonKey(EmName(items[i])) == key ==> Appends(EmName(items[i]), multiuse)
    ensures ValuesAt(items, key) == [] ==> key !in Render(items, multiuse).value
    ensures ValuesAt(items, key) != [] ==>
      key in Render(items, multiuse).value && Render(items, multiuse).value[key] == JList(ValuesAt(items, key))
  {
    if |items| > 0 {
      var prefix := items[..|items| - 1];
      assert forall i :: 0 <= i < |prefix| ==> prefix[i] == items[i];
      RepeatableCollects(prefix, multiuse, key);
      var e := items[|items| - 1];
      assert JsonKey(EmName(e)) == key ==> Appends(EmName(e), multiuse);
      AppendStep(Render(prefix, multiuse).value, EmName(e), EmValue(e), multiuse, key, ValuesAt(prefix, key));
    }
  }

  /** The value assigned last under `key`, if any. */
  function LastAt(items: seq<Emit.Emission>, key: string): Option<string>
  {
    if |items| == 0 then None
    else
      var e := items[|items| - 1];
      if JsonKey(EmName(e)) == key && EmValue(e).Some? then EmValue(e)
      else LastAt(items[..|items| - 1], key)
  }

  /** The entry under `key` holds the single string `last`, absent when there is none. */
  predicate HoldsLast(data: map<string, JsonValue>, key: string, last: Option<string>) {
    (last.None? ==> key !in data) && (last.Some? ==> key in data && data[key] == JStr(last.value))
  }

  /** One assignment keeps `HoldsLast` under `key`, replacing the value when it lands there. */
  lemma StoreStep(data: map<string, JsonValue>, name: string, value: Option<string>, multiuse: set<string>,
                  key: string, last: Option<string>)
    requires HoldsLast(data, key, last)
    requires JsonKey(name) == key ==> Stores(name, multiuse)
    requires SetSpec(data, name, value, multiuse).Some?
    ensures HoldsLast(SetSpec(data, name, value, multiuse).value, key,
      if JsonKey(name) == key && value.Some? then value else last)
  {
  }

  /** A single-valued field keeps the value assigned last; `None` assignments are ignored. */
  lemma {:induction false} SingleKeepsLast(items: seq<Emit.Emission>, multiuse: set<string>, key: string)
    requires Render(items, multiuse).Some?
    requires forall i :: 0 <= i < |items| && JsonKey(EmName(items[i])) == key ==> Stores(EmName(items[i]), multiuse)
    ensures LastAt(items, key).None? ==> key !in Render(items, multiuse).value
    ensures LastAt(items, key).Some? ==>
      key in Render(items, multiuse).value && Render(items, multiuse).value[key] == JStr(LastAt(items, key).value)
  {
    if |items| > 0 {
      var prefix := items[..|items| - 1];
      assert forall i :: 0 <= i < |prefix| ==> prefix[i] == items[i];
      SingleKeepsLast(prefix, multiuse, key);
      var e := items[|items| - 1];
      assert JsonKey(EmName(e)) == key ==> Stores(EmName(e), multiuse);
      StoreStep(Render(prefix, multiuse).value, EmName(e), EmValue(e), multiuse, key, LastAt(prefix, key));
    }
  }

  /** Names that share a key never mix a single-valued name with a repeatable one. */
  predicate Consistent(items: seq<Emit.Emission>, multiuse: set<string>) {
    forall i, j :: 0 <= i < |items| && 0 <= j < |items|
      && JsonKey(EmName(items[i])) == JsonKey(EmName(items[j])) && Stores(EmName(items[i]), multiuse)
      ==> !Appends(EmName(items[j]), multiuse)
  }

  /** Every single string in the map was stored by a single-valued name with that key. */
  lemma {:induction false} StringsFromStores(items: seq<Emit.Emission>, multiuse: set<string>)
    requires Render(items, multiuse).Some?
    ensures forall k :: k in Render(items, multiuse).value && Render(items, multiuse).value[k].JStr? ==>
      exists i :: 0 <= i < |items| && JsonKey(EmName(items[i])) == k && Stores(EmName(items[i]), multiuse)
  {
    if |items| > 0 {
      var prefix := items[..|items| - 1];
      StringsFromStores(prefix, multiuse);
      var before := Render(prefix, multiuse).value;
      var e := items[|items| - 1];
      assert Render(items, multiuse) == SetSpec(before, EmName(e), EmValue(e), multiuse);
      var data := Render(items, multiuse).value;
      forall k | k in data && data[k].JStr?
        ensures exists i :: 0 <= i < |items| && JsonKey(EmName(items[i])) == k && Stores(EmName(items[i]), multiuse)
      {
        SetSpecStrings(before, EmName(e), EmValue(e), multiuse, k);
        if JsonKey(EmName(e)) == k && Stores(EmName(e), multiuse) {
          assert items[|items| - 1] == e;
        } else {
          var i :| 0 <= i < |prefix| && JsonKey(EmName(prefix[i])) == k && Stores(EmName(prefix[i]), multiuse);
          assert prefix[i] == items[i];
        }
      }
    }
  }

  /** A single string after one assignment was there before, or was just stored by a single-valued name. */
  lemma SetSpecStrings(data: map<string, JsonValue>, name: string, value: Option<string>, multiuse: set<string>, k: string)
    requires SetSpec(data, name, value, multiuse).Some?
    requires k in SetSpec(data, name, value, multiuse).value && SetSpec(data, name, value, multiuse).value[k].JStr?
    ensures (k in data && data[k].JStr?) || (k == JsonKey(name) && Stores(name, multiuse))
  {
  }

  /** The `isinstance` assertion holds whenever names sharing a key agree on repeatability. */
  lemma {:induction false} ConsistentRenders(items: seq<Emit.Emission>, multiuse: set<string>)
    requires Consistent(items, multiuse)
    ensures Render(items, multiuse).Some?
  {
    if |items| > 0 {
      var prefix := items[..|items| - 1];
      assert forall i :: 0 <= i < |prefix| ==> prefix[i] == items[i];
      ConsistentRenders(prefix, multiuse);
      StringsFromStores(prefix, multiuse);
      var data := Render(prefix, multiuse).value;
    }
  }

  /** No name the writer assigns contains `_`. */
  lemma EmNameNoUnderscore(e: Emit.Emission)
    ensures '_' !in EmName(e)
  {
    if e.Header? {
      match e.field
      case MetadataVersionField | NameField | VersionField | SummaryField | KeywordsField => IdentityNamesNoUnderscore(e.field);
      case HomePageField | AuthorField | AuthorEmailField | MaintainerField | MaintainerEmailField => PeopleNamesNoUnderscore(e.field);
      case LicenseField | LicenseExpressionField | LicenseFileField | ClassifierField | ProjectUrlField => LicenseNamesNoUnderscore(e.field);
      case RequiresPythonField | RequiresDistField | ProvidesExtraField | DescriptionContentTypeField | DynamicField => RequirementNamesNoUnderscore(e.field);
    }
  }

  /** The names of the version, name and description fields hold no `_`. */
  lemma IdentityNamesNoUnderscore(f: Emit.Field)
    requires f.MetadataVersionField? || f.NameField? || f.VersionField? || f.SummaryField? || f.KeywordsField?
    ensures '_' !in Emit.FieldName(f)
  {
  }

  /** The names of the people and home-page fields hold no `_`. */
  lemma PeopleNamesNoUnderscore(f: Emit.Field)
    requires f.HomePageField? || f.AuthorField? || f.AuthorEmailField? || f.MaintainerField? || f.MaintainerEmailField?
    ensures '_' !in Emit.FieldName(f)
  {
  }

  /** The names of the license and classifier fields hold no `_`. */
  lemma LicenseNamesNoUnderscore(f: Emit.Field)
    requires f.LicenseField? || f.LicenseExpressionField? || f.LicenseFileField? || f.ClassifierField? || f.ProjectUrlField?
    ensures '_' !in Emit.FieldName(f)
  {
  }

  /** The names of the requirement, extra and dynamic fields hold no `_`. */
  lemma RequirementNamesNoUnderscore(f: Emit.Field)
    requires f.RequiresPythonField? || f.RequiresDistField? || f.ProvidesExtraField? || f.DescriptionContentTypeField? || f.DynamicField?
    ensures '_' !in Emit.FieldName(f)
  {
  }

  /** For a name without `_`, the key gives back the lower-case name. */
  lemma KeyGivesLower(name: string)
    requires '_' !in name
    ensures Text.Replace(JsonKey(name), '_', '-') == Text.Lower(name)
  {
  }

  /** Two names without `_` share a key exactly when their lower-case forms agree. */
  lemma SameKeySameLower(n1: string, n2: string)
    requires '_' !in n1 && '_' !in n2
    ensures JsonKey(n1) == JsonKey(n2) <==> Text.Lower(n1) == Text.Lower(n2)
  {
  }

  /** The writer's names never put a single-valued name and a repeatable one under one key. */
  lemma AlwaysConsistent(items: seq<Emit.Emission>, multiuse: set<string>)
    ensures Consistent(items, multiuse)
  {
    forall i, j | 0 <= i < |items| && 0 <= j < |items|
        && JsonKey(EmName(items[i])) == JsonKey(EmName(items[j])) && Stores(EmName(items[i]), multiuse)
      ensures !Appends(EmName(items[j]), multiuse)
    {
      EmNameNoUnderscore(items[i]);
      EmNameNoUnderscore(items[j]);
      SameKeySameLower(EmName(items[i]), EmName(items[j]));
    }
  }

  /** The `isinstance` assertion never fails on what the writer emits, whatever `multiuse` holds. */
  lemma RenderAlwaysSucceeds(items: seq<Emit.Emission>, multiuse: set<string>)
    ensures Render(items, multiuse).Some?
  {
    AlwaysConsistent(items, multiuse);
    ConsistentRenders(items, multiuse);
  }

  /** `_JSonMessageSetter` over the dictionary it fills. */
  class JsonMessage {
    var data: map<string, JsonValue>

    constructor ()
      ensures data == map[]
    {
      data := map[];
    }

    /**
     * `__setitem__`: `None` is ignored; `keywords` is split into words; a repeatable
     * name appends to the list under its key; any other name replaces the entry.
     * `ok` is false, and nothing changes, where the `isinstance` assertion fails.
     */
    method Set(name: string, value: Option<string>, multiuse: set<string>) returns (ok: bool)
      modifies this
      ensures value.None? ==> ok && data == old(data)
      ensures value.Some? && Text.Lower(name) == "keywords" ==>
        ok && data == old(data)[JsonKey(name) := JList(KeywordTokens(value.value))]
      ensures value.Some? && Appends(name, multiuse) && JsonKey(name) !in old(data) ==>
        ok && data == old(data)[JsonKey(name) := JList([value.value])]
      ensures value.Some? && Appends(name, multiuse) && JsonKey(name) in old(data) ==>
        match old(data)[JsonKey(name)]
        case JList(xs) => ok && data == old(data)[JsonKey(name) := JList(xs + [value.value])]
        case JStr(_) => !ok && data == old(data)
      ensures value.Some? && Stores(name, multiuse) ==> ok && data == old(data)[JsonKey(name) := JStr(value.value)]
      ensures SetSpec(old(data), name, value, multiuse) == (if ok then Some(data) else None)
    {
      var key := JsonKey(name);
      var lower := Text.Lower(name);
      if value.None? {
        return true;
      }
      if lower == "keywords" {
        data := data[key := JList(KeywordTokens(value.value))];
      } else if lower in multiuse {
        var entry := if key in data then data[key] else JList([]);
        if entry.JStr? {
          return false;
        }
        assert key !in data ==> entry.items + [value.value] == [value.value];
        data := data[key := JList(entry.items + [value.value])];
      } else {
        data := data[key := JStr(value.value)];
      }
      return true;
    }

    /** `set_payload`: the body is stored under `description`. */
    method SetPayload(text: string, multiuse: set<string>) returns (ok: bool)
      modifies this
      ensures SetSpec(old(data), "description", Some(text), multiuse) == (if ok then Some(data) else None)
      ensures !ok ==> data == old(data)
    {
      ok := Set("description", Some(text), multiuse);
    }
  }

  /** One emission through the setter: a header by its name, the body by `set_payload`. */
  method Assign(msg: JsonMessage, e: Emit.Emission, multiuse: set<string>) returns (ok: bool)
    modifies msg
    ensures SetSpec(old(msg.data), EmName(e), EmValue(e), multiuse) == (if ok then Some(msg.data) else None)
  {
    if e.Header? {
      ok := msg.Set(Emit.FieldName(e.field), e.value, multiuse);
    } else {
      ok := msg.SetPayload(e.text, multiuse);
    }
  }

  /** Feeds the emissions to a fresh dictionary in order; a failed assertion stops it. */
  method Fill(items: seq<Emit.Emission>, multiuse: set<string>) returns (msg: JsonMessage, ok: bool)
    ensures fresh(msg)
    ensures ok <==> Render(items, multiuse).Some?
    ensures ok ==> Render(items, multiuse) == Some(msg.data)
  {
    msg := new JsonMessage();
    var i := 0;
    while i < |items|
      invariant 0 <= i <= |items|
      invariant Render(items[..i], multiuse) == Some(msg.data)
      modifies msg
      decreases |items| - i
    {
      RenderStep(items, i, multiuse);
      ok := Assign(msg, items[i], multiuse);
      if !ok {
        RenderFailurePersists(items, i + 1, multiuse);
        return;
      }
      i := i + 1;
    }
    assert items[..i] == items;
    ok := true;
  }

  /** Rendering one more emission applies it to the map rendered so far. */
  lemma RenderStep(items: seq<Emit.Emission>, i: nat, multiuse: set<string>)
    requires i < |items| && Render(items[..i], multiuse).Some?
    ensures Render(items[..i + 1], multiuse) ==
      SetSpec(Render(items[..i], multiuse).value, EmName(items[i]), EmValue(items[i]), multiuse)
  {
    assert items[..i + 1][..i] == items[..i];
  }

  /** Once a prefix fails, the whole fails. */
  lemma {:induction false} RenderFailurePersists(items: seq<Emit.Emission>, k: nat, multiuse: set<string>)
    requires k <= |items| && Render(items[..k], multiuse).None?
    ensures Render(items, multiuse).None?
    decreases |items| - k
  {
    if k < |items| {
      assert items[..k + 1][..k] == items[..k];
      RenderFailurePersists(items, k + 1, multiuse);
    } else {
      assert items[..k] == items;
    }
  }

  /**
   * `as_json`: the emissions of `_write_metadata` stored into a fresh dictionary. A
   * refused write yields its errors; a failed assertion yields neither map nor errors.
   */
  method AsJson(record: Record.StandardMetadata, formataddr: (string, string) -> string, multiuse: set<string>)
    returns (data: Option<map<string, JsonValue>>, errors: seq<ConfigError>)
    ensures Emit.WriteSpec(record.fields, formataddr).Refused? ==> data.None? && errors == Emit.WriteSpec(record.fields, formataddr).errors
    ensures Emit.WriteSpec(record.fields, formataddr).Emitted? ==>
      errors == [] && data == Render(Emit.WriteSpec(record.fields, formataddr).items, multiuse)
    ensures Emit.WriteSpec(record.fields, formataddr).Emitted? ==> data.Some?
  {
    var written := Emit.WriteSpec(record.fields, formataddr);
    if written.Refused? {
      return None, written.errors;
    }
    RenderAlwaysSucceeds(written.items, multiuse);
    var msg, ok := Fill(written.items, multiuse);
    if ok {
      data := Some(msg.data);
    } else {
      data := None;
    }
    errors := [];
  }
}
