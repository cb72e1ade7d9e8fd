/**
 * The user table's email check: `re.match` of the pattern
 * `^[A-Za-z0-9._+%-]+@[A-Za-z0-9.-]+\.[A-Za-z]{2,}$`, and the address stored
 * lower-cased.
 *
 * The pattern's meaning is stated once as a language (`InPattern`, by the
 * positions of the `@` and of the dot before the final letters), and decided
 * by a left-to-right scan (`ScanPattern`) that is proved to agree with it.
 */
module UserModel {
  import opened Text

  /** `[A-Za-z0-9._+%-]`, the characters of the local part. */
  predicate IsLocalChar(c: char) {
    IsAlnumChar(c) || c == '.' || c == '_' || c == '+' || c == '%' || c == '-'
  }

  /** `[A-Za-z0-9.-]`, the characters of the domain. */
  predicate IsDomainChar(c: char) {
    IsAlnumChar(c) || c == '.' || c == '-'
  }

  predicate AllLocal(s: Str) { forall i :: 0 <= i < |s| ==> IsLocalChar(s[i]) }

  predicate AllDomain(s: Str) { forall i :: 0 <= i < |s| ==> IsDomainChar(s[i]) }

  predicate AllLetters(s: Str) { forall i :: 0 <= i < |s| ==> IsLetter(s[i]) }

  /**
   * `s` splits as local part `s[..at]`, `@`, domain prefix `s[at+1..dot]`,
   * `.`, and top-level part `s[dot+1..]`, each part non-empty and drawn from
   * its character class, the last one at least 2 letters long.
   */
  predicate Split(s: Str, at: int, dot: int) {
    0 < at && at + 1 < dot && dot + 3 <= |s|
    && AllLocal(s[..at]) && s[at] == '@'
    && AllDomain(s[at + 1..dot]) && s[dot] == '.'
    && AllLetters(s[dot + 1..])
  }

  /** `s` is a word of the pattern between `^` and `$`. */
  ghost predicate InPattern(s: Str) {
    exists at, dot :: Split(s, at, dot)
  }

  /**
   * `re.match(pattern, s)` succeeds: without MULTILINE, `$` matches at the
   * end of the string or just before a final line feed.
   */
  ghost predicate MatchesPattern(s: Str) {
    InPattern(s) || (|s| > 0 && s[|s| - 1] == '\n' && InPattern(s[..|s| - 1]))
  }

  /** Position of the first `c` in `s`, or `|s|` if there is none. */
  function FirstIndex(s: Str, c: char): (k: nat)
    ensures k <= |s|
    ensures k < |s| ==> s[k] == c
    ensures forall i :: 0 <= i < k ==> s[i] != c
  {
    if s == [] then 0
    else if s[0] == c then 0
    else 1 + FirstIndex(s[1..], c)
  }

  /** Position of the last `c` in `s`, or -1 if there is none. */
  function LastIndex(s: Str, c: char): (k: int)
    ensures -1 <= k < |s|
    ensures k >= 0 ==> s[k] == c
    ensures forall i :: k < i < |s| ==> s[i] != c
  {
    if s == [] then -1
    else if s[|s| - 1] == c then |s| - 1
    else LastIndex(s[..|s| - 1], c)
  }

  /**
   * Decides `InPattern` in one pass: the `@` must be the first one, since no
   * class admits `@`; the dot must be the last one, since the final part is
   * letters only.
   */
  function ScanPattern(s: Str): bool {
    var at := FirstIndex(s, '@');
    if at == |s| then false
    else
      var dot := LastIndex(s, '.');
      Split(s, at, dot)
  }

  /** The scan accepts exactly the words of the pattern. */
  lemma ScanPatternCorrect(s: Str)
    ensures ScanPattern(s) <==> InPattern(s)
  {
    if InPattern(s) {
      var at, dot :| Split(s, at, dot);
      // No `@` precedes position `at`, so it is the first one.
      forall i | 0 <= i < at ensures s[i] != '@' {
        assert IsLocalChar(s[..at][i]);
      }
      // No dot follows position `dot`, so it is the last one.
      forall i | dot < i < |s| ensures s[i] != '.' {
        assert IsLetter(s[dot + 1..][i - dot - 1]);
      }
      assert FirstIndex(s, '@') == at && LastIndex(s, '.') == dot;
    }
  }

  /** Decides whether `re.match` of the pattern succeeds on `s`. */
  function Matches(s: Str): (b: bool)
    ensures b <==> MatchesPattern(s)
  {
    ScanPatternCorrect(s);
    if |s| > 0 && s[|s| - 1] == '\n' then
      ScanPatternCorrect(s[..|s| - 1]);
      ScanPattern(s) || ScanPattern(s[..|s| - 1])
    else
      ScanPattern(s)
  }

  /** `User.validate_email`: a matching address is returned lower-cased. */
  function ValidateEmail(email: Str): (r: Result<Str>)
    ensures r.Ok? <==> MatchesPattern(email)
    ensures r.Err? ==> r.error == ValueError("Invalid email format")
    ensures r.Ok? ==> IsLowerCased(r.value) && SameIgnoringCase(r.value, email)
  {
    LowerNormalises(email);
    if !Matches(email) then Err(ValueError("Invalid email format")) else Ok(Lower(email))
  }

  /** Lower-casing a slice is slicing the lower-cased string. */
  lemma LowerSlice(s: Str, a: int, b: int)
    requires 0 <= a <= b <= |s|
    ensures Lower(s)[a..b] == Lower(s[a..b])
  {
  }

  /** Lower-casing one character keeps it in or out of each class. */
  lemma LowerCharKeepsClass(c: AsciiChar)
    ensures IsLocalChar(LowerChar(c)) <==> IsLocalChar(c)
    ensures IsDomainChar(LowerChar(c)) <==> IsDomainChar(c)
    ensures IsLetter(LowerChar(c)) <==> IsLetter(c)
  {
  }

  /** Lower-casing keeps every character in its class. */
  lemma LowerKeepsClasses(s: Str)
    ensures AllLocal(Lower(s)) <==> AllLocal(s)
    ensures AllDomain(Lower(s)) <==> AllDomain(s)
    ensures AllLetters(Lower(s)) <==> AllLetters(s)
  {
    forall i | 0 <= i < |s|
      ensures IsLocalChar(Lower(s)[i]) <==> IsLocalChar(s[i])
      ensures IsDomainChar(Lower(s)[i]) <==> IsDomainChar(s[i])
      ensures IsLetter(Lower(s)[i]) <==> IsLetter(s[i])
    {
      LowerCharKeepsClass(s[i]);
    }
  }

  /** Lower-casing keeps every character in its class and moves no `@` or dot. */
  lemma LowerKeepsSplit(s: Str, at: int, dot: int)
    ensures Split(Lower(s), at, dot) <==> Split(s, at, dot)
  {
    if 0 < at && at + 1 < dot && dot + 3 <= |s| {
      LowerSlice(s, 0, at);
      LowerSlice(s, at + 1, dot);
      LowerSlice(s, dot + 1, |s|);
      LowerKeepsClasses(s[..at]);
      LowerKeepsClasses(s[at + 1..dot]);
      LowerKeepsClasses(s[dot + 1..]);
      assert Lower(s)[at] == '@' <==> s[at] == '@';
      assert Lower(s)[dot] == '.' <==> s[dot] == '.';
      assert Lower(s)[dot + 1..] == Lower(s)[dot + 1..|s|] && s[dot + 1..] == s[dot + 1..|s|];
    }
  }

  /** An address matches exactly when its lower-cased form does. */
  lemma LowerKeepsMatch(s: Str)
    ensures MatchesPattern(Lower(s)) <==> MatchesPattern(s)
  {
    var t := Lower(s);
    if InPattern(s) {
      var at, dot :| Split(s, at, dot);
      LowerKeepsSplit(s, at, dot);
    }
    if InPattern(t) {
      var at, dot :| Split(t, at, dot);
      LowerKeepsSplit(s, at, dot);
    }
    if |s| > 0 {
      var init := s[..|s| - 1];
      assert t[..|t| - 1] == Lower(init);
      if InPattern(init) {
        var at, dot :| Split(init, at, dot);
        LowerKeepsSplit(init, at, dot);
      }
      if InPattern(Lower(init)) {
        var at, dot :| Split(Lower(init), at, dot);
        LowerKeepsSplit(init, at, dot);
      }
    }
  }

  /** Validating a stored (accepted) address again returns it unchanged. */
  lemma ValidateEmailIdempotent(email: Str)
    requires ValidateEmail(email).Ok?
    ensures ValidateEmail(ValidateEmail(email).value) == ValidateEmail(email)
  {
    LowerKeepsMatch(email);
    LowerNormalises(email);
  }

  /** A word of the pattern holds exactly one `@`. */
  lemma {:induction false} InPatternOneAt(s: Str)
    requires InPattern(s)
    ensures multiset(s)['@'] == 1
  {
    var at, dot :| Split(s, at, dot);
    var local, domain, top := s[..at], s[at + 1..dot], s[dot + 1..];
    assert s == local + [s[at]] + domain + [s[dot]] + top;
    forall i | 0 <= i < |local| ensures local[i] != '@' { assert IsLocalChar(local[i]); }
    forall i | 0 <= i < |domain| ensures domain[i] != '@' { assert IsDomainChar(domain[i]); }
    forall i | 0 <= i < |top| ensures top[i] != '@' { assert IsLetter(top[i]); }
    assert '@' !in local && '@' !in domain && '@' !in top;
  }

  /** A stored address contains exactly one `@`. */
  lemma AcceptedHasOneAt(email: Str)
    requires ValidateEmail(email).Ok?
    ensures multiset(ValidateEmail(email).value)['@'] == 1
  {
    var r := Lower(email);
    LowerKeepsMatch(email);
    if InPattern(r) {
      InPatternOneAt(r);
    } else {
      var init := r[..|r| - 1];
      InPatternOneAt(init);
      assert r == init + ['\n'];
    }
  }

  /** A string ending in a line feed is not a word of the pattern. */
  lemma NewlineEndNotInPattern(s: Str)
    requires |s| > 0 && s[|s| - 1] == '\n'
    ensures !InPattern(s)
  {
    forall k | 1 <= k && k + 2 <= |s| ensures !AllLetters(s[k..]) {
      assert s[k..][|s| - k - 1] == '\n';
    }
  }

  /**
   * One trailing line feed is tolerated and kept in the stored address; a
   * second one is not.
   */
  lemma TrailingNewlineKept(s: Str)
    requires InPattern(s)
    ensures ValidateEmail(s + ['\n']) == Ok(Lower(s) + ['\n'])
    ensures ValidateEmail(s + ['\n', '\n']).Err?
  {
    var t := s + ['\n'];
    assert t[..|t| - 1] == s;
    assert Lower(t) == Lower(s) + ['\n'];
    var u := s + ['\n', '\n'];
    assert u[..|u| - 1] == t;
    NewlineEndNotInPattern(t);
    NewlineEndNotInPattern(u);
  }

  /** Two example addresses: one as the pattern requires, one with a one-letter top-level part. */
  lemma Examples()
    ensures ValidateEmail("Ann@Mail.IO") == Ok("ann@mail.io")
    ensures ValidateEmail("a@b.c").Err?
  {
    var s: Str := "Ann@Mail.IO";
    assert Split(s, 3, 8);
    assert Lower(s) == "ann@mail.io";
  }
}
