/**
 * What the validation attributes the entity and the form carry accept, for the
 * values the model can hold (strings are never null here).
 */
module DataAnnotations {

  /** The characters .NET's char.IsWhiteSpace accepts: the control characters
      TAB..CR, NEL, and the Unicode space, line and paragraph separators. */
  predicate IsWhiteSpace(c: char) {
    || c == ' '
    || ('\t' <= c <= '\r')
    || c == '\U{0085}'
    || c == '\U{00A0}'
    || c == '\U{1680}'
    || ('\U{2000}' <= c <= '\U{200A}')
    || c == '\U{2028}'
    || c == '\U{2029}'
    || c == '\U{202F}'
    || c == '\U{205F}'
    || c == '\U{3000}'
  }

  /** string.IsNullOrWhiteSpace, for a non-null string. */
  predicate IsBlank(s: string) {
    forall i :: 0 <= i < |s| ==> IsWhiteSpace(s[i])
  }

  /** [Required] on a string: empty and whitespace-only strings are rejected. */
  predicate Required(s: string) {
    !IsBlank(s)
  }

  /** [MaxLength(max)]. */
  predicate MaxLength(s: string, max: int) {
    |s| <= max
  }

  /** [StringLength(max, MinimumLength = min)], both ends inclusive. */
  predicate StringLength(s: string, max: int, min: int) {
    min <= |s| <= max
  }

  /** [Range(lo, hi)] on an integer, both ends inclusive. */
  predicate InRange(x: int, lo: int, hi: int) {
    lo <= x <= hi
  }
}
