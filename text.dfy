/**
 * Python `str` restricted to ASCII, the `str` methods the validators call
 * (`isalnum`, `upper`, `lower`, `isspace`, `strip`) in their ASCII meaning,
 * and the outcome of a validator: the (possibly normalised) value, or the
 * `ValueError` it raises.
 *
 * The restriction to ASCII is deliberate: for other characters Python's
 * `upper`/`lower` may change the length of a string (`'ß'.upper() == 'SS'`)
 * and `isalnum` accepts letters of every script, none of which is modelled.
 */
module Text {

  /** A character in the ASCII range 0..127. */
  type AsciiChar = c: char | c as int < 0x80 witness 'a'

  /** A Python `str` whose characters are all ASCII. */
  type Str = seq<AsciiChar>

  /** Why a validator rejected its input. */
  datatype Failure =
    | ValueError(message: Str)
      /** The `ValueError` whose message lists the valid status ids. */
    | InvalidStatus(validStatuses: seq<Str>)

  /** A validator either returns a value or raises. */
  datatype Result<+T> = Ok(value: T) | Err(error: Failure)

  datatype Option<+T> = None | Some(value: T)

  /** A `uuid.UUID`, as its 128 bits. */
  type Uuid = bv128

  predicate IsUpperLetter(c: char) { 'A' <= c <= 'Z' }

  predicate IsLowerLetter(c: char) { 'a' <= c <= 'z' }

  predicate IsLetter(c: char) { IsUpperLetter(c) || IsLowerLetter(c) }

  predicate IsDigit(c: char) { '0' <= c <= '9' }

  predicate IsAlnumChar(c: char) { IsLetter(c) || IsDigit(c) }

  /** `str.isalnum()`: false for the empty string. */
  predicate IsAlnum(s: Str) {
    |s| > 0 && forall i :: 0 <= i < |s| ==> IsAlnumChar(s[i])
  }

  /**
   * `str.isspace()` on one ASCII character: tab, line feed, vertical tab,
   * form feed, carriage return (9..13), the four separators 0x1c..0x1f and
   * the space (0x20).
   */
  predicate IsSpace(c: char) {
    9 <= c as int <= 13 || 0x1c <= c as int <= 0x20
  }

  function UpperChar(c: AsciiChar): AsciiChar {
    if IsLowerLetter(c) then (c as int - 32) as char else c
  }

  function LowerChar(c: AsciiChar): AsciiChar {
    if IsUpperLetter(c) then (c as int + 32) as char else c
  }

  /** `str.upper()` on ASCII. */
  function Upper(s: Str): Str {
    seq(|s|, i requires 0 <= i < |s| => UpperChar(s[i]))
  }

  /** `str.lower()` on ASCII. */
  function Lower(s: Str): Str {
    seq(|s|, i requires 0 <= i < |s| => LowerChar(s[i]))
  }

  /** No lower-case letter occurs in `s`. */
  predicate IsUpperCased(s: Str) {
    forall i :: 0 <= i < |s| ==> !IsLowerLetter(s[i])
  }

  /** No upper-case letter occurs in `s`. */
  predicate IsLowerCased(s: Str) {
    forall i :: 0 <= i < |s| ==> !IsUpperLetter(s[i])
  }

  /** `a` and `b` spell the same word up to the case of their letters. */
  predicate SameIgnoringCase(a: Str, b: Str) {
    |a| == |b| && forall i :: 0 <= i < |a| ==> LowerChar(a[i]) == LowerChar(b[i])
  }

  /** Every character of `s` is whitespace (vacuously so for ""). */
  predicate IsBlank(s: Str) {
    forall i :: 0 <= i < |s| ==> IsSpace(s[i])
  }

  /** `str.lstrip()` on ASCII. */
  function StripLeading(s: Str): Str {
    if |s| > 0 && IsSpace(s[0]) then StripLeading(s[1..]) else s
  }

  /** `str.rstrip()` on ASCII. */
  function StripTrailing(s: Str): Str {
    if |s| > 0 && IsSpace(s[|s| - 1]) then StripTrailing(s[..|s| - 1]) else s
  }

  /** `str.strip()` on ASCII. */
  function Strip(s: Str): Str {
    StripTrailing(StripLeading(s))
  }

  /** For ASCII, upper-casing keeps the length, leaves no lower-case letter and changes only case. */
  lemma UpperNormalises(s: Str)
    ensures |Upper(s)| == |s|
    ensures IsUpperCased(Upper(s))
    ensures SameIgnoringCase(Upper(s), s)
    ensures Upper(Upper(s)) == Upper(s)
    ensures IsAlnum(Upper(s)) <==> IsAlnum(s)
  {
  }

  /** For ASCII, lower-casing keeps the length, leaves no upper-case letter and changes only case. */
  lemma LowerNormalises(s: Str)
    ensures |Lower(s)| == |s|
    ensures IsLowerCased(Lower(s))
    ensures SameIgnoringCase(Lower(s), s)
    ensures Lower(Lower(s)) == Lower(s)
    ensures IsAlnum(Lower(s)) <==> IsAlnum(s)
  {
  }

  /** Left-stripping yields "" exactly for an all-whitespace string. */
  lemma {:induction false} StripLeadingEmpty(s: Str)
    ensures StripLeading(s) == [] <==> IsBlank(s)
    ensures StripLeading(s) != [] ==> !IsSpace(StripLeading(s)[0])
  {
    if |s| > 0 && IsSpace(s[0]) {
      StripLeadingEmpty(s[1..]);
      if IsBlank(s[1..]) {
        assert forall i :: 0 <= i < |s| ==> IsSpace(s[i]) by {
          forall i | 0 < i < |s| ensures IsSpace(s[i]) { assert s[i] == s[1..][i - 1]; }
        }
      }
      if IsBlank(s) {
        assert forall i :: 0 <= i < |s[1..]| ==> IsSpace(s[1..][i]) by {
          forall i | 0 <= i < |s[1..]| ensures IsSpace(s[1..][i]) { assert s[1..][i] == s[i + 1]; }
        }
      }
    } else if |s| > 0 {
      assert !IsSpace(s[0]);
    }
  }

  /** Right-stripping yields "" exactly for an all-whitespace string. */
  lemma {:induction false} StripTrailingEmpty(s: Str)
    ensures StripTrailing(s) == [] <==> IsBlank(s)
  {
    if |s| > 0 && IsSpace(s[|s| - 1]) {
      var init := s[..|s| - 1];
      StripTrailingEmpty(init);
      if IsBlank(init) {
        assert forall i :: 0 <= i < |s| ==> IsSpace(s[i]) by {
          forall i | 0 <= i < |s| - 1 ensures IsSpace(s[i]) { assert s[i] == init[i]; }
        }
      }
      if IsBlank(s) {
        assert forall i :: 0 <= i < |init| ==> IsSpace(init[i]) by {
          forall i | 0 <= i < |init| ensures IsSpace(init[i]) { assert init[i] == s[i]; }
        }
      }
    } else if |s| > 0 {
      assert !IsSpace(s[|s| - 1]);
    }
  }

  /** `len(s.strip()) == 0` holds exactly when `s` is empty or all whitespace. */
  lemma StripEmptyIffBlank(s: Str)
    ensures |Strip(s)| == 0 <==> IsBlank(s)
  {
    StripLeadingEmpty(s);
    var t := StripLeading(s);
    StripTrailingEmpty(t);
    if t != [] {
      assert !IsBlank(t) by { assert !IsSpace(t[0]); }
    }
  }
}
