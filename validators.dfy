/** The class-validator decorators used by the request DTOs, applied to one field
    of a JSON request body. */
module Validators {

  /** A body field as the validator sees it: a string, absent (`undefined` or
      `null`), or a JSON value of another type. */
  datatype Field = Str(text: string) | Missing | NonString

  /** `@IsString()` */
  predicate IsString(f: Field) { f.Str? }

  /** `@IsNotEmpty()`: neither `''`, `null` nor `undefined`. */
  predicate IsNotEmpty(f: Field) { f != Missing && f != Str("") }

  /** A variation selector (U+FE0E or U+FE0F), which the length checks skip. */
  predicate IsVariationSelector(c: char) { c == '\U{FE0E}' || c == '\U{FE0F}' }

  /** The length the length checks use: the code points of `s` other than
      variation selectors (a surrogate pair counts once). */
  function CountedLength(s: string): (n: nat)
    ensures n <= |s|
    ensures (forall i :: 0 <= i < |s| ==> !IsVariationSelector(s[i])) ==> n == |s|
  {
    if s == [] then 0
    else (if IsVariationSelector(s[0]) then 0 else 1) + CountedLength(s[1..])
  }

  /** A string of variation selectors alone has length 0. */
  lemma {:induction false} SelectorsCountNothing(s: string)
    requires forall i :: 0 <= i < |s| ==> IsVariationSelector(s[i])
    ensures CountedLength(s) == 0
  {
    if s != [] {
      SelectorsCountNothing(s[1..]);
    }
  }

  /** `@Length(min, max)`: a string whose counted length lies in [min, max]. */
  predicate Length(f: Field, min: nat, max: nat) { f.Str? && min <= CountedLength(f.text) <= max }

  /** `@MinLength(min)` */
  predicate MinLength(f: Field, min: nat) { f.Str? && min <= CountedLength(f.text) }

  /** `@IsEmail()`; the address grammar is the library's and stays abstract. */
  predicate IsEmail(f: Field, emailFormat: string -> bool) { f.Str? && emailFormat(f.text) }
}
