/** The `useFilterOptions` hook: the colour choices of the search filters,
    read from the filters API and, only when that fails, from the colour
    service, together with a loading flag and an error message. Both
    sources are inputs: the outcome each one would give. */
module FilterOptions {
  import opened Wrappers
  import opened JsStrings
  import Colors
  import ApiClient

  /** A select option `{ value, label }`, the shape the filters API returns
      (`label` is a reserved word here, hence `labelText`). */
  datatype SelectOption = SelectOption(value: string, labelText: string)

  /** What `fetchColorOptions` gives: the response data (`None` when it is
      not an array), or what it threw. */
  type PrimaryOutcome = Result<Option<seq<SelectOption>>, Thrown>

  /** What the colour service gives, or the error it threw. */
  type FallbackOutcome = Result<seq<Colors.ColorOption>, ApiClient.ApiError>

  /** Lower-casing keeps a string blank or not blank. */
  lemma BlankLower(s: string)
    ensures Blank(ToLower(s)) <==> Blank(s)
  {
    forall i | 0 <= i < |s| ensures IsSpace(ToLower(s)[i]) == IsSpace(s[i]) {
      LowerCharSpace(s[i]);
    }
  }

  /** `mapToColorOption(name)`: the label is the name as given; the value is
      the name trimmed and lower-cased, or the name itself when that leaves
      nothing. */
  function MapToColorOption(name: string): (o: SelectOption)
    ensures o.labelText == name
    ensures Blank(name) ==> o.value == name
    ensures !Blank(name) ==> o.value == ToLower(Trim(name)) && o.value != []
  {
    var value := Trim(ToLower(name));
    TrimLowerCommute(name);
    BlankLower(name);
    TrimEmptyIffBlank(ToLower(name));
    SelectOption(if value != [] then value else name, name)
  }

  /** A mapped value maps to itself: the normalisation is idempotent. */
  lemma MapToColorOptionStable(name: string)
    ensures var v := MapToColorOption(name).value;
            MapToColorOption(v) == SelectOption(v, v)
  {
    var v := MapToColorOption(name).value;
    if !Blank(name) {
      var t := Trim(name);
      TrimEdges(name);
      TrimEmptyIffBlank(name);
      LowerCharSpace(t[0]);
      LowerCharSpace(t[|t| - 1]);
      assert !IsSpace(v[0]);
      assert !Blank(v);
      TrimNoop(v);
      ToLowerIdempotent(t);
    }
  }

  /** Names that differ only in case and surrounding white space give one
      value. */
  lemma MapToColorOptionCaseInsensitive(a: string, b: string)
    requires !Blank(a) && !Blank(b) && ToLower(Trim(a)) == ToLower(Trim(b))
    ensures MapToColorOption(a).value == MapToColorOption(b).value
    ensures MapToColorOption(a).labelText == a && MapToColorOption(b).labelText == b
  {
  }

  /** `err instanceof Error ? err.message : 'Failed to fetch filter options'`. */
  function PrimaryMessage(err: Thrown): string {
    match err
    case ErrorMessage(m) => m
    case NotAnError => "Failed to fetch filter options"
  }

  /** The state a fetch leaves behind. */
  datatype Outcome = Outcome(options: seq<SelectOption>, error: Option<string>)

  /** The options and error after a fetch settles. The primary's data is
      taken when it arrives; the fallback matters only once the primary has
      thrown; an error is reported only when both fail, and it is the
      primary's. */
  function Settled(primary: PrimaryOutcome, fallback: FallbackOutcome): (o: Outcome)
    ensures o.error.None? <==> primary.Success? || fallback.Success?
    ensures o.error.Some? ==> o.options == [] && o.error.value == PrimaryMessage(primary.error)
    ensures primary.Success? ==> o.options == (if primary.value.Some? then primary.value.value else [])
    ensures primary.Failure? && fallback.Success? ==>
              |o.options| == |fallback.value|
              && forall i :: 0 <= i < |o.options| ==> o.options[i] == MapToColorOption(fallback.value[i].name)
  {
    match primary
    case Success(data) => Outcome(data.GetOr([]), None)
    case Failure(err) =>
      match fallback
      case Success(colors) =>
        Outcome(seq(|colors|, i requires 0 <= i < |colors| => MapToColorOption(colors[i].name)), None)
      case Failure(_) => Outcome([], Some(PrimaryMessage(err)))
  }

  /** Once the primary answers, the fallback is never consulted: any two
      fallbacks give the same state. */
  lemma PrimaryAnswerIgnoresFallback(primary: PrimaryOutcome, f1: FallbackOutcome, f2: FallbackOutcome)
    requires primary.Success?
    ensures Settled(primary, f1) == Settled(primary, f2)
    ensures Settled(primary, f1).error.None?
  {
    var o1, o2 := Settled(primary, f1), Settled(primary, f2);
    assert o1.options == o2.options;
  }

  /** When both fail, the reported error is the primary's whatever the
      fallback threw. */
  lemma BothFailReportPrimary(err: Thrown, e1: ApiClient.ApiError, e2: ApiClient.ApiError)
    ensures Settled(Failure(err), Failure(e1)) == Settled(Failure(err), Failure(e2))
    ensures Settled(Failure(err), Failure(e1)).error == Some(PrimaryMessage(err))
  {
    var o1, o2 := Settled(Failure(err), Failure(e1)), Settled(Failure(err), Failure(e2));
    assert o1.options == o2.options == [];
  }

  class FilterOptionsHook {
    var colorOptions: seq<SelectOption>
    var isLoading: bool
    var error: Option<string>

    /** The initial state: no options, loading, no error. */
    constructor ()
      ensures colorOptions == [] && isLoading && error.None?
    {
      colorOptions, isLoading, error := [], true, None;
    }

    /** The start of `fetchOptions`: loading, the error cleared, the options
        kept while the request is in flight. */
    method Begin()
      modifies this
      ensures isLoading && error.None? && colorOptions == old(colorOptions)
    {
      isLoading := true;
      error := None;
    }

    /** The rest of `fetchOptions`: the primary's answer, else the
        fallback's, else the primary's error; loading ends on every path.
        `calledFallback` says whether the fallback was asked. The error was
        cleared by `Begin`, and the primary's path leaves it so. */
    method Finish(primary: PrimaryOutcome, fallback: FallbackOutcome) returns (calledFallback: bool)
      requires error.None?
      modifies this
      ensures calledFallback <==> primary.Failure?
      ensures colorOptions == Settled(primary, fallback).options
      ensures error == Settled(primary, fallback).error
      ensures !isLoading
    {
      calledFallback := false;
      if primary.Success? {
        colorOptions := if primary.value.Some? then primary.value.value else [];
      } else {
        calledFallback := true;
        if fallback.Success? {
          var colors := fallback.value;
          colorOptions := seq(|colors|, i requires 0 <= i < |colors| => MapToColorOption(colors[i].name));
          error := None;
        } else {
          error := Some(PrimaryMessage(primary.error));
          colorOptions := [];
        }
      }
      isLoading := false;
    }

    /** `fetchOptions` (also the hook's `refetch`), from any state. */
    method FetchOptions(primary: PrimaryOutcome, fallback: FallbackOutcome) returns (calledFallback: bool)
      modifies this
      ensures calledFallback <==> primary.Failure?
      ensures colorOptions == Settled(primary, fallback).options
      ensures error == Settled(primary, fallback).error
      ensures !isLoading
    {
      Begin();
      calledFallback := Finish(primary, fallback);
    }
  }
}
