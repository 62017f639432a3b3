/**
 * Configuration errors and warnings, and the two modes in which they are collected:
 * fail-fast (the first error aborts) and collect-all (every error is reported
 * together at the end).
 */
module Errors {
  import opened Wrappers
  import opened Toml

  /**
   * What an error is keyed by: normally a field path such as `project.name`; one
   * extractor passes the offending value itself as the key.
   */
  datatype ErrorKey = Field(name: string) | Offending(value: Value)

  /** A `ConfigurationError`; its message text is not modelled, only its key. */
  datatype ConfigError = ConfigError(key: Option<ErrorKey>)

  function KeyedError(name: string): ConfigError {
    ConfigError(Some(Field(name)))
  }

  const Unkeyed := ConfigError(None)

  /** The value a check returns, or the error it raises. */
  datatype Result<+T> = Success(value: T) | Failure(error: ConfigError) {
    predicate IsFailure() { Failure? }
    function PropagateFailure<U>(): Result<U> requires Failure? { Failure(error) }
    function Extract(): T requires Success? { value }
  }

  /** The input scopes whose unknown keys may be reported. */
  datatype Scope = TopLevelScope | BuildSystemScope | ProjectScope

  /** A `ConfigurationWarning`. */
  datatype Warning =
    | MultilineSummary
    | PreferSpdxLicense
    | DeprecatedLicenseClassifier
    | ExtraKeys(scope: Scope, keys: set<string>)

  /** One step of a check: an error recorded through the collector, or a warning issued. */
  datatype Event = Raise(error: ConfigError) | Warn(warning: Warning)

  /** What a caller observes: the warnings issued, and the errors of the failure raised (none on success). */
  datatype Report = Report(warnings: seq<Warning>, errors: seq<ConfigError>) {
    predicate Ok() { errors == [] }
  }

  function ErrorsOf(events: seq<Event>): seq<ConfigError>
  {
    if |events| == 0 then []
    else (if events[0].Raise? then [events[0].error] else []) + ErrorsOf(events[1..])
  }

  function WarningsOf(events: seq<Event>): seq<Warning>
  {
    if |events| == 0 then []
    else (if events[0].Warn? then [events[0].warning] else []) + WarningsOf(events[1..])
  }

  /** The position of the first error, or `|events|` when there is none. */
  function FirstError(events: seq<Event>): (i: nat)
    ensures i <= |events|
    ensures forall j :: 0 <= j < i ==> events[j].Warn?
    ensures i < |events| ==> events[i].Raise?
  {
    if |events| == 0 then 0
    else if events[0].Raise? then 0
    else 1 + FirstError(events[1..])
  }

  lemma {:induction false} ErrorsOfAppend(a: seq<Event>, b: seq<Event>)
    ensures ErrorsOf(a + b) == ErrorsOf(a) + ErrorsOf(b)
  {
    if |a| > 0 {
      ErrorsOfAppend(a[1..], b);
      assert (a + b)[1..] == a[1..] + b;
    } else {
      assert a + b == b;
    }
  }

  lemma {:induction false} WarningsOfAppend(a: seq<Event>, b: seq<Event>)
    ensures WarningsOf(a + b) == WarningsOf(a) + WarningsOf(b)
  {
    if |a| > 0 {
      WarningsOfAppend(a[1..], b);
      assert (a + b)[1..] == a[1..] + b;
    } else {
      assert a + b == b;
    }
  }

  /** A run of warnings records no error. */
  lemma {:induction false} NoErrorsBeforeFirst(events: seq<Event>)
    requires forall j :: 0 <= j < |events| ==> events[j].Warn?
    ensures ErrorsOf(events) == []
  {
    if |events| > 0 {
      NoErrorsBeforeFirst(events[1..]);
    }
  }

  /** The errors of an event list are empty exactly when it has no first error. */
  lemma ErrorsAtFirst(events: seq<Event>)
    ensures var i := FirstError(events);
      if i == |events| then ErrorsOf(events) == []
      else ErrorsOf(events) != [] && ErrorsOf(events)[0] == events[i].error
  {
    var i := FirstError(events);
    assert events == events[..i] + events[i..];
    ErrorsOfAppend(events[..i], events[i..]);
    NoErrorsBeforeFirst(events[..i]);
    if i < |events| {
      assert events[i..] == [events[i]] + events[i + 1..];
      ErrorsOfAppend([events[i]], events[i + 1..]);
    }
  }

  /**
   * The collector. In collect-all mode every warning is issued and every error is
   * raised together at the end; in fail-fast mode the first error is raised at once,
   * so only the warnings before it are issued.
   */
  function Collect(events: seq<Event>, allErrors: bool): (r: Report)
    ensures allErrors ==> r.errors == ErrorsOf(events) && r.warnings == WarningsOf(events)
    ensures !allErrors ==> r.errors == if ErrorsOf(events) == [] then [] else [ErrorsOf(events)[0]]
    ensures r.Ok() <==> ErrorsOf(events) == []
  {
    if allErrors then Report(WarningsOf(events), ErrorsOf(events))
    else
      var i := FirstError(events);
      ErrorsAtFirst(events);
      if i == |events| then Report(WarningsOf(events), [])
      else Report(WarningsOf(events[..i]), [events[i].error])
  }

  /** Fail-fast mode reports a prefix of what collect-all mode reports. */
  lemma FailFastIsPrefix(events: seq<Event>)
    ensures Collect(events, false).errors <= Collect(events, true).errors
    ensures Collect(events, false).warnings <= Collect(events, true).warnings
  {
    var i := FirstError(events);
    assert events == events[..i] + events[i..];
    WarningsOfAppend(events[..i], events[i..]);
  }
}
