/**
 * The header output: the policy that checks and folds each header, the message that
 * collects them, and the setter that skips empty values.
 */
module Rfc822 {
  import opened Wrappers
  import opened Errors
  import Text
  import Constants
  import Emit
  import Record

  /** `n` spaces. */
  function Spaces(n: nat): (r: string)
    ensures |r| == n && forall i :: 0 <= i < n ==> r[i] == ' '
  {
    seq(n, _ => ' ')
  }

  /**
   * Every line break of `value` followed by `width` spaces, so that each continuation
   * line starts with white space, as header folding (section 2.2.3 of RFC 5322) requires.
   */
  function Fold(value: string, width: nat): (r: string)
    ensures |value| == 0 ==> r == ""
    ensures |value| > 0 && value[0] != '\n' ==> |r| > 0 && r[0] == value[0]
  {
    if |value| == 0 then ""
    else (if value[0] == '\n' then "\n" + Spaces(width) else [value[0]]) + Fold(value[1..], width)
  }

  /** Removes the `width` spaces after each line break, where they are present. */
  function Unfold(folded: string, width: nat): string
    decreases |folded|
  {
    if |folded| == 0 then ""
    else if folded[0] == '\n' && 1 + width <= |folded| && folded[1..1 + width] == Spaces(width) then
      "\n" + Unfold(folded[1 + width..], width)
    else [folded[0]] + Unfold(folded[1..], width)
  }

  /** Folding loses nothing: unfolding recovers the value. */
  lemma {:induction false} UnfoldFold(value: string, width: nat)
    ensures Unfold(Fold(value, width), width) == value
  {
    if |value| > 0 {
      var rest := Fold(value[1..], width);
      UnfoldFold(value[1..], width);
      if value[0] == '\n' {
        var f := "\n" + Spaces(width) + rest;
        assert Fold(value, width) == f;
        assert f[1..1 + width] == Spaces(width);
        assert f[1 + width..] == rest;
      } else {
        var f := [value[0]] + rest;
        assert Fold(value, width) == f;
        assert f[1..] == rest;
      }
      assert value == [value[0]] + value[1..];
    }
  }

  /**
   * Folding is `value.replace("\n", "\n" + " " * width)`: the pieces between line breaks
   * are kept and rejoined with a line break and `width` spaces.
   */
  lemma {:induction false} FoldIsJoin(value: string, width: nat)
    ensures Fold(value, width) == Text.Join(Text.Split(value, '\n'), "\n" + Spaces(width))
  {
    if |value| > 0 {
      var sep := "\n" + Spaces(width);
      var rest := Text.Split(value[1..], '\n');
      FoldIsJoin(value[1..], width);
      if value[0] == '\n' {
        Text.JoinEmptyHead(rest, sep);
      } else {
        Text.JoinPrefixHead(rest, [value[0]], sep);
      }
    }
  }

  /** A value without line breaks is stored as it is. */
  lemma {:induction false} FoldSingleLine(value: string, width: nat)
    requires '\n' !in value
    ensures Fold(value, width) == value
  {
    if |value| > 0 {
      FoldSingleLine(value[1..], width);
      assert value == [value[0]] + value[1..];
    }
  }

  /**
   * `header_store_parse`: a name whose lower-case form is not a known metadata field
   * is refused with the name as key; otherwise the value is folded by the width of
   * the name and the `: ` after it.
   */
  function HeaderStoreParse(name: string, value: string): (r: Result<(string, string)>)
    ensures r.Failure? <==> Text.Lower(name) !in Constants.KnownMetadataFields
    ensures r.Failure? ==> r.error == KeyedError(name)
    ensures r.Success? ==> r.value.0 == name && Unfold(r.value.1, |name| + 2) == value
    ensures r.Success? ==> r.value.1 == Text.Join(Text.Split(value, '\n'), "\n" + Spaces(|name| + 2))
  {
    if Text.Lower(name) !in Constants.KnownMetadataFields then Failure(KeyedError(name))
    else
      UnfoldFold(value, |name| + 2);
      FoldIsJoin(value, |name| + 2);
      Success((name, Fold(value, |name| + 2)))
  }

  /** What a message holds: its headers in order and its body. */
  datatype Content = Content(headers: seq<(string, string)>, payload: Option<string>)

  /** One assignment through the setter: empty values are skipped, the body is replaced. */
  function Step(c: Content, e: Emit.Emission): (r: Result<Content>)
    ensures e.Header? && !Emit.Truthy(e.value) ==> r == Success(c)
    ensures r.Success? && e.Header? && Emit.Truthy(e.value) ==>
      && r.value.payload == c.payload
      && |r.value.headers| == |c.headers| + 1 && r.value.headers[..|c.headers|] == c.headers
      && r.value.headers[|c.headers|].0 == Emit.FieldName(e.field)
      && Unfold(r.value.headers[|c.headers|].1, |Emit.FieldName(e.field)| + 2) == e.value.value
    ensures e.Payload? ==> r == Success(Content(c.headers, Some(e.text)))
  {
    match e
    case Payload(text) => Success(Content(c.headers, Some(text)))
    case Header(f, v) =>
      if !Emit.Truthy(v) then Success(c)
      else
        match HeaderStoreParse(Emit.FieldName(f), v.value)
        case Failure(err) => Failure(err)
        case Success(h) => Success(Content(c.headers + [h], c.payload))
  }

  /** The message after a sequence of assignments, or the first refusal. */
  function Render(items: seq<Emit.Emission>): Result<Content>
  {
    if |items| == 0 then Success(Content([], None))
    else
      match Render(items[..|items| - 1])
      case Failure(e) => Failure(e)
      case Success(c) => Step(c, items[|items| - 1])
  }

  /** The fields `_write_metadata` emits are all known, so rendering them never fails. */
  lemma {:induction false} RenderSucceeds(items: seq<Emit.Emission>)
    ensures Render(items).Success?
  {
    if |items| > 0 {
      RenderSucceeds(items[..|items| - 1]);
      var e := items[|items| - 1];
      if e.Header? {
        Emit.FieldNamesKnown(e.field);
      }
    }
  }

  /** The number of assignments that write a header: those with a non-empty value. */
  function Written(items: seq<Emit.Emission>): nat
  {
    if |items| == 0 then 0
    else Written(items[..|items| - 1]) + (if items[|items| - 1].Header? && Emit.Truthy(items[|items| - 1].value) then 1 else 0)
  }

  /** Rendering keeps one header per non-empty value, and skips every empty one. */
  lemma {:induction false} RenderCount(items: seq<Emit.Emission>)
    requires Render(items).Success?
    ensures |Render(items).value.headers| == Written(items)
  {
    if |items| > 0 {
      RenderCount(items[..|items| - 1]);
    }
  }

  /** `RFC822Message` with `_SmartMessageSetter` in front of it. */
  class Message {
    var headers: seq<(string, string)>
    var payload: Option<string>

    constructor ()
      ensures headers == [] && payload.None?
    {
      headers := [];
      payload := None;
    }

    /** `_SmartMessageSetter.__setitem__`: a falsy value does nothing; otherwise the policy stores the header. */
    method Set(name: string, value: Option<string>) returns (err: Option<ConfigError>)
      modifies this
      ensures !Emit.Truthy(value) ==> err.None? && headers == old(headers)
      ensures Emit.Truthy(value) ==> match HeaderStoreParse(name, value.value)
        case Failure(e) => err == Some(e) && headers == old(headers)
        case Success(h) => err.None? && headers == old(headers) + [h]
      ensures payload == old(payload)
    {
      if !Emit.Truthy(value) {
        return None;
      }
      match HeaderStoreParse(name, value.value)
      case Failure(e) =>
        return Some(e);
      case Success(h) =>
        headers := headers + [h];
        return None;
    }

    /** `set_payload` */
    method SetPayload(text: string)
      modifies this
      ensures payload == Some(text) && headers == old(headers)
    {
      payload := Some(text);
    }
  }

  /** Feeds the emissions to a fresh message in order; the first refusal stops it. */
  method Fill(items: seq<Emit.Emission>) returns (msg: Message, err: Option<ConfigError>)
    ensures fresh(msg)
    ensures err.None? <==> Render(items).Success?
    ensures err.None? ==> Render(items).value == Content(msg.headers, msg.payload)
    ensures err.Some? ==> Render(items) == Failure(err.value)
  {
    msg := new Message();
    err := None;
    var i := 0;
    while i < |items|
      invariant 0 <= i <= |items|
      invariant Render(items[..i]) == Success(Content(msg.headers, msg.payload))
      invariant err.None?
      modifies msg
      decreases |items| - i
    {
      assert items[..i + 1][..i] == items[..i];
      match items[i] {
        case Payload(text) =>
          msg.SetPayload(text);
        case Header(f, v) =>
          err := msg.Set(Emit.FieldName(f), v);
          if err.Some? {
            assert Render(items[..i + 1]) == Failure(err.value);
            RenderFailurePersists(items, i + 1);
            return;
          }
      }
      i := i + 1;
    }
    assert items[..i] == items;
  }

  /** Once rendering a prefix fails, rendering the whole fails with the same error. */
  lemma {:induction false} RenderFailurePersists(items: seq<Emit.Emission>, k: nat)
    requires k <= |items| && Render(items[..k]).Failure?
    ensures Render(items) == Render(items[..k])
    decreases |items| - k
  {
    if k < |items| {
      assert items[..k + 1][..k] == items[..k];
      RenderFailurePersists(items, k + 1);
    } else {
      assert items[..k] == items;
    }
  }

  /**
   * `as_rfc822`: the emissions of `_write_metadata` written through the setter into a
   * fresh message; a refused write yields no message.
   */
  method AsRfc822(record: Record.StandardMetadata, formataddr: (string, string) -> string)
    returns (msg: Message?, errors: seq<ConfigError>)
    ensures msg == null <==> Emit.WriteSpec(record.fields, formataddr).Refused?
    ensures msg == null ==> errors == Emit.WriteSpec(record.fields, formataddr).errors
    ensures msg != null ==> fresh(msg) && errors == []
    ensures msg != null ==>
      Render(Emit.WriteSpec(record.fields, formataddr).items) == Success(Content(msg.headers, msg.payload))
  {
    var written := Emit.WriteSpec(record.fields, formataddr);
    if written.Refused? {
      return null, written.errors;
    }
    RenderSucceeds(written.items);
    var m, err := Fill(written.items);
    return m, [];
  }
}
