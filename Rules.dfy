/**
 * The FluentValidation built-ins the validators use, with the library's meanings:
 * a rule chain keeps evaluating after a failed rule, so one property can report
 * several failures, and a validation result is valid when it holds no failure.
 */
module Rules {
  import opened Primitives
  import opened Failures

  /** `char.IsWhiteSpace`: the Unicode separators plus the ASCII and Latin-1 controls .NET counts. */
  predicate IsWhiteSpace(c: char)
  {
    ('\t' <= c <= '\r') || c == ' ' || c == '\U{85}' || c == '\U{A0}' || c == '\U{1680}'
    || ('\U{2000}' <= c <= '\U{200A}') || c == '\U{2028}' || c == '\U{2029}'
    || c == '\U{202F}' || c == '\U{205F}' || c == '\U{3000}'
  }

  /** `string.IsNullOrWhiteSpace`. */
  predicate IsNullOrWhiteSpace(s: Option<string>)
  {
    s.None? || forall i :: 0 <= i < |s.value| ==> IsWhiteSpace(s.value[i])
  }

  /** `NotEmpty()` on a string: null, empty and whitespace-only values fail. */
  predicate NotEmptyString(s: Option<string>)
  {
    !IsNullOrWhiteSpace(s)
  }

  /** `NotEmpty()` on an `int`: the default value 0 fails. */
  predicate NotEmptyInt(x: Int32)
  {
    x != 0
  }

  /** `MaximumLength(max)`: a null value passes; otherwise the UTF-16 length is bounded. */
  predicate MaximumLength(s: Option<string>, max: nat)
  {
    s.None? || Utf16Length(s.value) <= max
  }

  /** `GreaterThan(bound)` on an `int`. */
  predicate GreaterThan(x: Int32, bound: int)
  {
    x as int > bound
  }

  /** One rule with its `WithMessage`: no failure when it passes, its failure otherwise. */
  function Rule(passes: bool, failure: ValidationFailure): seq<ValidationFailure>
  {
    if passes then [] else [failure]
  }

  /** A string that passes `NotEmpty().MaximumLength(max)`. */
  predicate ValidText(s: Option<string>, max: nat)
  {
    !IsNullOrWhiteSpace(s) && Utf16Length(s.value) <= max
  }

  /**
   * The chain `RuleFor(x => s).NotEmpty().WithMessage(..).MaximumLength(max).WithMessage(..)`.
   * Both rules are evaluated; a null string fails only the first.
   */
  function TextChain(s: Option<string>, max: nat, blank: ValidationFailure, tooLong: ValidationFailure)
    : (errors: seq<ValidationFailure>)
    ensures forall f :: f in errors <==>
      || (f == blank && IsNullOrWhiteSpace(s))
      || (f == tooLong && s.Some? && Utf16Length(s.value) > max)
  {
    Rule(NotEmptyString(s), blank) + Rule(MaximumLength(s, max), tooLong)
  }

  /**
   * The chain `RuleFor(x => id).NotEmpty().WithMessage(..).GreaterThan(0).WithMessage(..)`.
   * Both rules are evaluated, so an id of 0 fails both.
   */
  function IdChain(id: Int32, required: ValidationFailure, notPositive: ValidationFailure)
    : (errors: seq<ValidationFailure>)
    ensures forall f :: f in errors <==> (f == required && id == 0) || (f == notPositive && id <= 0)
  {
    Rule(NotEmptyInt(id), required) + Rule(GreaterThan(id, 0), notPositive)
  }
}
