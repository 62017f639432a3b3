/**
 * Environment markers as the requirement parser leaves them, and the combination of a
 * requirement's marker with the `extra == "<name>"` condition of an optional-dependency
 * group (the "Environment Markers" grammar of PEP 508).
 *
 * A marker is its top-level list of items: operands (a comparison, or a parenthesised
 * sub-marker) separated by `and` / `or`. In the grammar `and` binds tighter than `or`.
 */
module Markers {
  import opened Wrappers

  datatype Marker = Marker(items: seq<MarkerItem>)

  datatype MarkerItem =
    | Atom(text: string)      // a comparison such as `python_version < "3.8"`, as text
    | Group(inner: Marker)    // `( ... )`
    | And
    | Or

  predicate IsOperand(it: MarkerItem) { it.Atom? || it.Group? }

  /**
   * What the parser produces: operands and operators alternate, beginning and ending
   * with an operand, and every parenthesised sub-marker is again of that form.
   */
  predicate WellFormed(m: Marker)
    decreases m
  {
    && |m.items| % 2 == 1
    && (forall i :: 0 <= i < |m.items| ==> (IsOperand(m.items[i]) <==> i % 2 == 0))
    && (forall i :: 0 <= i < |m.items| && m.items[i].Group? ==> WellFormed(m.items[i].inner))
  }

  /** `'or' in marker._markers`: an `or` at the outermost level. */
  predicate HasTopLevelOr(m: Marker) {
    Or in m.items
  }

  /**
   * `str(marker)`, as the `packaging` library formats it: the items separated by single
   * spaces, each sub-marker in parentheses. A marker whose only item is an operand is
   * printed as that operand, without parentheses, at any depth: `(a or b)` prints as
   * `a or b`.
   */
  function Render(m: Marker): string
    decreases m, 3
  {
    Format(m, true)
  }

  /** The formatting of `m`; `outermost` is false for a sub-marker, which gets parentheses. */
  function Format(m: Marker, outermost: bool): string
    decreases m, 2
  {
    if |m.items| == 1 && m.items[0].Atom? then m.items[0].text
    else if |m.items| == 1 && m.items[0].Group? then Format(m.items[0].inner, true)
    else if outermost then RenderFrom(m, 0)
    else "(" + RenderFrom(m, 0) + ")"
  }

  function RenderItem(m: Marker, i: nat): string
    requires i < |m.items|
    decreases m, 0
  {
    match m.items[i]
    case Atom(t) => t
    case Group(inner) => Format(inner, false)
    case And => "and"
    case Or => "or"
  }

  /** The rendering of the items from position `i` on. */
  function RenderFrom(m: Marker, i: nat): string
    requires i <= |m.items|
    decreases m, 1, |m.items| - i
  {
    if i == |m.items| then ""
    else if i + 1 == |m.items| then RenderItem(m, i)
    else RenderItem(m, i) + " " + RenderFrom(m, i + 1)
  }

  /**
   * The truth value of a marker in an environment that decides each comparison.
   * `FoldFrom` walks the items left to right: `done` is the value of the disjuncts
   * already closed by an `or`, `current` that of the conjunction being built.
   */
  function Eval(m: Marker, env: string -> bool): bool
    decreases m, 1
  {
    FoldFrom(m, 0, env, false, true)
  }

  function FoldFrom(m: Marker, i: nat, env: string -> bool, done: bool, current: bool): bool
    requires i <= |m.items|
    decreases m, 0, |m.items| - i
  {
    if i == |m.items| then done || current
    else
      match m.items[i]
      case And => FoldFrom(m, i + 1, env, done, current)
      case Or => FoldFrom(m, i + 1, env, done || current, true)
      case Atom(t) => FoldFrom(m, i + 1, env, done, current && env(t))
      case Group(inner) => FoldFrom(m, i + 1, env, done, current && Eval(inner, env))
  }

  /** The condition `extra == "<extra>"`. */
  function ExtraText(extra: string): string {
    "extra == \"" + extra + "\""
  }

  /**
   * A parsed requirement: everything but its marker (name, extras, specifier or URL)
   * kept as its canonical text, and its marker if it has one.
   */
  datatype Requirement = Requirement(text: string, marker: Option<Marker>)

  /** `str(requirement)` */
  function RequirementString(r: Requirement): string {
    match r.marker
    case None => r.text
    case Some(m) => r.text + "; " + Render(m)
  }

  /** The marker inside any number of enclosing parentheses: the part `str` prints. */
  function Unwrap(m: Marker): (u: Marker)
    ensures !(|u.items| == 1 && u.items[0].Group?)
    decreases m
  {
    if |m.items| == 1 && m.items[0].Group? then Unwrap(m.items[0].inner) else m
  }

  /** Removing enclosing parentheses changes neither the text nor the meaning. */
  lemma {:induction false} UnwrapKeeps(m: Marker, env: string -> bool)
    ensures Render(Unwrap(m)) == Render(m)
    ensures Eval(Unwrap(m), env) == Eval(m, env)
    ensures WellFormed(m) ==> WellFormed(Unwrap(m))
    decreases m
  {
    if |m.items| == 1 && m.items[0].Group? {
      var x := m.items[0].inner;
      UnwrapKeeps(x, env);
      assert FoldFrom(m, 1, env, false, Eval(x, env)) == Eval(x, env);
    }
  }

  /**
   * The marker text `_build_extra_req` hands to the parser, as written: the test for
   * `or` looks at the parsed top level, the text is `str(marker)`.
   */
  function ExtraMarkerTextAsWritten(extra: string, marker: Option<Marker>): string {
    match marker
    case None => ExtraText(extra)
    case Some(m) =>
      if HasTopLevelOr(m) then "(" + Render(m) + ") and " + ExtraText(extra)
      else Render(m) + " and " + ExtraText(extra)
  }

  /**
   * `_build_extra_req`: a copy of `req` whose marker also demands `extra == "<extra>"`.
   * A marker whose printed top level has an `or` is parenthesised first; any other
   * marker is extended; a requirement without a marker gets the extra condition alone.
   * The `or` is looked for in the marker as `str` prints it, without its enclosing
   * parentheses.
   */
  function BuildExtraReq(extra: string, req: Requirement): (r: Requirement)
    ensures r.text == req.text
    ensures r.marker.Some?
  {
    var cond := Atom(ExtraText(extra));
    match req.marker
    case None => req.(marker := Some(Marker([cond])))
    case Some(m) =>
      var u := Unwrap(m);
      if HasTopLevelOr(u) then req.(marker := Some(Marker([Group(u), And, cond])))
      else req.(marker := Some(Marker(u.items + [And, cond])))
  }

  /** Appending `and <atom>` to a marker renders as appending the text. */
  lemma {:induction false} RenderAppendAnd(m: Marker, t: string, i: nat)
    requires i < |m.items|
    ensures var m' := Marker(m.items + [And, Atom(t)]);
      RenderFrom(m', i) == RenderFrom(m, i) + " and " + t
    decreases |m.items| - i
  {
    var m' := Marker(m.items + [And, Atom(t)]);
    assert m'.items[i] == m.items[i];
    assert RenderItem(m', i) == RenderItem(m, i);
    if i + 1 < |m.items| {
      RenderAppendAnd(m, t, i + 1);
    } else {
      assert RenderFrom(m', i + 2) == t;
      assert RenderFrom(m', i + 1) == "and " + t;
    }
  }

  /** The marker text `_build_extra_req` produces, in its three cases. */
  lemma ExtraReqRendering(extra: string, req: Requirement)
    requires req.marker.Some? ==> WellFormed(req.marker.value)
    ensures var r := BuildExtraReq(extra, req);
      Render(r.marker.value) ==
        match req.marker
        case None => ExtraText(extra)
        case Some(m) =>
          if HasTopLevelOr(Unwrap(m)) then "(" + Render(m) + ") and " + ExtraText(extra)
          else Render(m) + " and " + ExtraText(extra)
  {
    var r := BuildExtraReq(extra, req);
    var m' := r.marker.value;
    match req.marker
    case None =>
      assert m'.items == [Atom(ExtraText(extra))];
    case Some(m) =>
      var u := Unwrap(m);
      UnwrapKeeps(m, _ => true);
      if HasTopLevelOr(u) {
        assert RenderFrom(m', 2) == ExtraText(extra);
        assert RenderFrom(m', 1) == "and " + ExtraText(extra);
        assert Format(u, false) == "(" + Render(u) + ")";
        assert RenderItem(m', 0) == "(" + Render(u) + ")";
        assert |m'.items| == 3;
        assert Render(m') == Format(m', true) == RenderFrom(m', 0);
        assert RenderFrom(m', 0) == RenderItem(m', 0) + " " + RenderFrom(m', 1);
      } else {
        RenderAppendAnd(u, ExtraText(extra), 0);
        assert |u.items| >= 1 && u.items[0] != Or;
      }
  }

  /**
   * Where the source's test is right, the model writes the text the source writes:
   * the two differ only for a marker that is one parenthesised group.
   */
  lemma ExtraReqAsWritten(extra: string, req: Requirement)
    requires req.marker.Some? ==> WellFormed(req.marker.value)
    requires req.marker.Some? ==> !(|req.marker.value.items| == 1 && req.marker.value.items[0].Group?)
    ensures Render(BuildExtraReq(extra, req).marker.value) == ExtraMarkerTextAsWritten(extra, req.marker)
  {
    ExtraReqRendering(extra, req);
  }

  /** The marker `(a or b)`: one parenthesised group around `a or b`. */
  function GroupedOr(): Marker {
    Marker([Group(Marker([Atom("a"), Or, Atom("b")]))])
  }

  /** What the source's text `a or b and extra == "e"` parses to. */
  function FlatOrAnd(): Marker {
    Marker([Atom("a"), Or, Atom("b"), And, Atom(ExtraText("e"))])
  }

  /** `x or y` prints as it reads. */
  lemma RenderOr(x: string, y: string)
    ensures Render(Marker([Atom(x), Or, Atom(y)])) == x + " or " + y
  {
    var m := Marker([Atom(x), Or, Atom(y)]);
    assert RenderFrom(m, 2) == y;
    assert RenderFrom(m, 1) == "or " + y;
    assert RenderFrom(m, 0) == x + " " + ("or " + y);
    assert Render(m) == Format(m, true) == RenderFrom(m, 0);
  }

  /** `x or y and z` prints as it reads. */
  lemma RenderOrAnd(x: string, y: string, z: string)
    ensures Render(Marker([Atom(x), Or, Atom(y), And, Atom(z)])) == x + " or " + y + " and " + z
  {
    var m := Marker([Atom(x), Or, Atom(y), And, Atom(z)]);
    assert RenderFrom(m, 4) == z;
    assert RenderFrom(m, 3) == "and " + z;
    assert RenderFrom(m, 2) == y + " " + ("and " + z);
    assert RenderFrom(m, 1) == "or " + (y + " " + ("and " + z));
    assert RenderFrom(m, 0) == x + " " + ("or " + (y + " " + ("and " + z)));
    assert Render(m) == Format(m, true) == RenderFrom(m, 0);
  }

  /** Both example markers are ones the parser could produce. */
  lemma ExamplesWellFormed()
    ensures WellFormed(GroupedOr()) && WellFormed(FlatOrAnd())
  {
    assert WellFormed(Marker([Atom("a"), Or, Atom("b")]));
  }

  /**
   * The as-written text for `(a or b)`: the parsed top level is the one group, so no
   * `or` is seen, and `str` drops the parentheses, so the text is the flat
   * `a or b and extra == "e"`.
   */
  lemma GroupedOrTextAsWritten()
    ensures WellFormed(GroupedOr()) && !HasTopLevelOr(GroupedOr()) && WellFormed(FlatOrAnd())
    ensures Render(GroupedOr()) == "a" + " or " + "b"
    ensures ExtraMarkerTextAsWritten("e", Some(GroupedOr())) == Render(FlatOrAnd())
  {
    ExamplesWellFormed();
    RenderOr("a", "b");
    RenderOrAnd("a", "b", ExtraText("e"));
    assert Render(GroupedOr()) == Render(Marker([Atom("a"), Or, Atom("b")]));
  }

  /**
   * The flat reading holds when `a` does whatever the extra, so the requirement is
   * selected for every extra; the intended marker `(a or b) and extra == "e"` is not.
   */
  lemma {:induction false} SingleGroupLosesParentheses()
    ensures var env := (t: string) => t == "a";
      Eval(FlatOrAnd(), env) && !(Eval(GroupedOr(), env) && env(ExtraText("e")))
  {
    var env := (t: string) => t == "a";
    var flat := FlatOrAnd();
    assert ExtraText("e") != "a";
    assert FoldFrom(flat, 3, env, true, false);
    assert FoldFrom(flat, 1, env, false, true);
  }

  /** The corrected marker for `(a or b)` keeps the parentheses. */
  lemma GroupedOrCorrected()
    ensures Render(BuildExtraReq("e", Requirement("x", Some(GroupedOr()))).marker.value)
         == "(" + ("a" + " or " + "b") + ") and " + ExtraText("e")
  {
    GroupedOrTextAsWritten();
    ExtraReqRendering("e", Requirement("x", Some(GroupedOr())));
    assert Unwrap(GroupedOr()) == Marker([Atom("a"), Or, Atom("b")]);
    assert Or in Unwrap(GroupedOr()).items;
  }

  /** With no `or` from position `i` on, appending `and <atom>` conjoins the atom. */
  lemma {:induction false} FoldAppendAnd(m: Marker, t: string, i: nat, env: string -> bool, current: bool)
    requires i <= |m.items|
    requires forall j :: i <= j < |m.items| ==> m.items[j] != Or
    ensures var m' := Marker(m.items + [And, Atom(t)]);
      FoldFrom(m', i, env, false, current) == (FoldFrom(m, i, env, false, current) && env(t))
    decreases |m.items| - i
  {
    var m' := Marker(m.items + [And, Atom(t)]);
    if i == |m.items| {
      assert m'.items[i] == And && m'.items[i + 1] == Atom(t);
      assert FoldFrom(m', i + 2, env, false, current && env(t)) == (current && env(t));
      assert FoldFrom(m', i + 1, env, false, current) == (current && env(t));
    } else {
      assert m'.items[i] == m.items[i];
      match m.items[i]
      case And => FoldAppendAnd(m, t, i + 1, env, current);
      case Atom(a) => FoldAppendAnd(m, t, i + 1, env, current && env(a));
      case Group(inner) => FoldAppendAnd(m, t, i + 1, env, current && Eval(inner, env));
    }
  }

  /**
   * The point of `_build_extra_req`: in every environment the new marker holds exactly
   * when the old one did (or there was none) and the extra is the one selected.
   */
  lemma ExtraReqMeaning(extra: string, req: Requirement, env: string -> bool)
    ensures var r := BuildExtraReq(extra, req);
      Eval(r.marker.value, env) == ((req.marker.None? || Eval(req.marker.value, env)) && env(ExtraText(extra)))
  {
    var r := BuildExtraReq(extra, req);
    var m' := r.marker.value;
    var t := ExtraText(extra);
    match req.marker
    case None =>
      assert FoldFrom(m', 1, env, false, env(t)) == env(t);
    case Some(m) =>
      var u := Unwrap(m);
      UnwrapKeeps(m, env);
      if HasTopLevelOr(u) {
        assert FoldFrom(m', 3, env, false, Eval(u, env) && env(t)) == (Eval(u, env) && env(t));
        assert FoldFrom(m', 2, env, false, Eval(u, env)) == (Eval(u, env) && env(t));
        assert FoldFrom(m', 1, env, false, Eval(u, env)) == (Eval(u, env) && env(t));
      } else {
        FoldAppendAnd(u, t, 0, env, true);
      }
  }

  /** The new marker is again one the parser could have produced. */
  lemma ExtraReqWellFormed(extra: string, req: Requirement)
    requires req.marker.Some? ==> WellFormed(req.marker.value)
    ensures WellFormed(BuildExtraReq(extra, req).marker.value)
  {
    if req.marker.Some? {
      var u := Unwrap(req.marker.value);
      UnwrapKeeps(req.marker.value, _ => true);
      if !HasTopLevelOr(u) {
        var m' := Marker(u.items + [And, Atom(ExtraText(extra))]);
        assert forall i :: 0 <= i < |u.items| ==> m'.items[i] == u.items[i];
      }
    }
  }

  /**
   * Why the parentheses are needed: `a or b` extended without them reads as
   * `a or (b and extra == "e")`, which holds when `a` holds for any extra.
   */
  lemma UnparenthesisedOrIsWrong()
    ensures var m := Marker([Atom("a"), Or, Atom("b")]);
      var env := (t: string) => t == "a";
      Eval(Marker(m.items + [And, Atom(ExtraText("e"))]), env)
      && !(Eval(m, env) && env(ExtraText("e")))
  {
    var m := Marker([Atom("a"), Or, Atom("b")]);
    var env := (t: string) => t == "a";
    assert ExtraText("e") != "a";
    var m' := Marker(m.items + [And, Atom(ExtraText("e"))]);
    assert m'.items == [Atom("a"), Or, Atom("b"), And, Atom(ExtraText("e"))];
    assert FoldFrom(m', 3, env, true, false);
    assert FoldFrom(m', 2, env, true, true);
    assert FoldFrom(m', 1, env, false, true);
    assert Eval(m, env);
  }
}
