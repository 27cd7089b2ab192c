/**
 * What the login and registration forms share: the e-mail shape they check
 * locally, their first-failure validation pipeline and the messages they show.
 */
module AuthCommon {
  import opened Wrappers
  import opened Text

  const FillAllFields := "Please fill in all fields"
  const InvalidEmail := "Please enter a valid email address"
  const InvalidInput := "Invalid input. Please check your data."
  const ServerError := "Server error. Please try again later."
  const CannotConnect := "Cannot connect to server. Please check your connection."
  const Unexpected := "An unexpected error occurred. Please try again."

  /** The class `[^\s@]` of the e-mail pattern, for every character of `s`. */
  predicate NoSpaceOrAt(s: string) {
    forall k | 0 <= k < |s| :: s[k] != '@' && !IsWhitespace(s[k])
  }

  /**
   * `/^[^\s@]+@[^\s@]+\.[^\s@]+$/.test(s)`: `s` splits as
   * local `@` domain `.` suffix, each of the three parts non-empty and
   * without white space or `@`.
   */
  predicate MatchesEmailPattern(s: string) {
    exists i, j | 0 < i < |s| && i + 1 < j < |s| - 1 ::
      && s[i] == '@' && s[j] == '.'
      && NoSpaceOrAt(s[..i]) && NoSpaceOrAt(s[i + 1..j]) && NoSpaceOrAt(s[j + 1..])
  }

  /**
   * The same shape said plainly: no white space anywhere, one `@` with a
   * non-empty part before it, and after it a `.` that is neither the first
   * nor the last character.
   */
  ghost predicate PlainEmailShape(s: string) {
    && (forall k | 0 <= k < |s| :: !IsWhitespace(s[k]))
    && exists a | 0 < a < |s| ::
         && s[a] == '@'
         && (forall k | 0 <= k < |s| && k != a :: s[k] != '@')
         && (exists d | a + 1 < d < |s| - 1 :: s[d] == '.')
  }

  lemma NoSpaceOrAtAt(s: string, lo: int, hi: int, k: int)
    requires 0 <= lo <= k < hi <= |s| && NoSpaceOrAt(s[lo..hi])
    ensures s[k] != '@' && !IsWhitespace(s[k])
  {
    assert s[k] == s[lo..hi][k - lo];
  }

  /** A string the regular expression accepts has the plain shape. */
  lemma MatchHasPlainShape(s: string)
    requires MatchesEmailPattern(s)
    ensures PlainEmailShape(s)
  {
    var i, j :| 0 < i < |s| && i + 1 < j < |s| - 1 && s[i] == '@' && s[j] == '.'
      && NoSpaceOrAt(s[..i]) && NoSpaceOrAt(s[i + 1..j]) && NoSpaceOrAt(s[j + 1..]);
    forall k | 0 <= k < |s| && k != i && k != j ensures s[k] != '@' && !IsWhitespace(s[k]) {
      if k < i { NoSpaceOrAtAt(s, 0, i, k); }
      else if k < j { NoSpaceOrAtAt(s, i + 1, j, k); }
      else { NoSpaceOrAtAt(s, j + 1, |s|, k); }
    }
    assert !IsWhitespace('@') && !IsWhitespace('.');
    assert exists d | i + 1 < d < |s| - 1 :: s[d] == '.' by { assert s[j] == '.'; }
  }

  /** A range of `s` without white space or `@` is a slice in the class `[^\s@]`. */
  lemma NoSpaceOrAtSlice(s: string, lo: int, hi: int)
    requires 0 <= lo <= hi <= |s|
    requires forall k | lo <= k < hi :: s[k] != '@' && !IsWhitespace(s[k])
    ensures NoSpaceOrAt(s[lo..hi])
  {
    forall k | 0 <= k < hi - lo ensures s[lo..hi][k] != '@' && !IsWhitespace(s[lo..hi][k]) {
      assert s[lo..hi][k] == s[lo + k];
    }
  }

  /** A string of the plain shape is accepted by the regular expression. */
  lemma PlainShapeMatches(s: string)
    requires PlainEmailShape(s)
    ensures MatchesEmailPattern(s)
  {
    var a :| 0 < a < |s| && s[a] == '@' && (forall k | 0 <= k < |s| && k != a :: s[k] != '@')
      && (exists d | a + 1 < d < |s| - 1 :: s[d] == '.');
    var d :| a + 1 < d < |s| - 1 && s[d] == '.';
    NoSpaceOrAtSlice(s, 0, a);
    NoSpaceOrAtSlice(s, a + 1, d);
    NoSpaceOrAtSlice(s, d + 1, |s|);
    assert s[..a] == s[0..a] && s[d + 1..] == s[d + 1..|s|];
  }

  /** The regular expression accepts exactly the strings of the plain shape. */
  lemma EmailPatternCharacterized(s: string)
    ensures MatchesEmailPattern(s) <==> PlainEmailShape(s)
  {
    if MatchesEmailPattern(s) { MatchHasPlainShape(s); }
    if PlainEmailShape(s) { PlainShapeMatches(s); }
  }

  /** Printable ASCII other than space and `@` is in the class `[^\s@]`. */
  lemma VisibleAsciiHasNoSpaceOrAt(s: string)
    requires forall k | 0 <= k < |s| :: '!' <= s[k] <= '~' && s[k] != '@'
    ensures NoSpaceOrAt(s)
  {
  }

  /** A plain address is accepted. */
  lemma PlainAddressAccepted()
    ensures MatchesEmailPattern("test@example.com")
  {
    var s := "test@example.com";
    assert s[4] == '@' && s[12] == '.';
    var local, domain, suffix := s[..4], s[5..12], s[13..];
    assert local == "test" && domain == "example" && suffix == "com";
    VisibleAsciiHasNoSpaceOrAt(local);
    VisibleAsciiHasNoSpaceOrAt(domain);
    VisibleAsciiHasNoSpaceOrAt(suffix);
  }

  /** A dot in the local part is accepted. */
  lemma DottedLocalPartAccepted()
    ensures MatchesEmailPattern("user.name@example.com")
  {
    var s := "user.name@example.com";
    assert s[9] == '@' && s[17] == '.';
    var local, domain, suffix := s[..9], s[10..17], s[18..];
    assert local == "user.name" && domain == "example" && suffix == "com";
    VisibleAsciiHasNoSpaceOrAt(local);
    VisibleAsciiHasNoSpaceOrAt(domain);
    VisibleAsciiHasNoSpaceOrAt(suffix);
  }

  /** A `+` tag in the local part and a two-level domain are accepted. */
  lemma TaggedAddressAccepted()
    ensures MatchesEmailPattern("user+tag@example.co.uk")
  {
    var s := "user+tag@example.co.uk";
    assert s[8] == '@' && s[16] == '.';
    var local, domain, suffix := s[..8], s[9..16], s[17..];
    assert local == "user+tag" && domain == "example" && suffix == "co.uk";
    VisibleAsciiHasNoSpaceOrAt(local);
    VisibleAsciiHasNoSpaceOrAt(domain);
    VisibleAsciiHasNoSpaceOrAt(suffix);
  }

  /** Digits in the local part and a hyphen in the domain are accepted. */
  lemma HyphenatedDomainAccepted()
    ensures MatchesEmailPattern("user123@test-domain.com")
  {
    var s := "user123@test-domain.com";
    assert s[7] == '@' && s[19] == '.';
    var local, domain, suffix := s[..7], s[8..19], s[20..];
    assert local == "user123" && domain == "test-domain" && suffix == "com";
    VisibleAsciiHasNoSpaceOrAt(local);
    VisibleAsciiHasNoSpaceOrAt(domain);
    VisibleAsciiHasNoSpaceOrAt(suffix);
  }

  /** An address without `@` is refused. */
  lemma AddressWithoutAtRefused()
    ensures !MatchesEmailPattern("invalid-email")
  {
    var s := "invalid-email";
    assert forall k | 0 <= k < |s| :: s[k] != '@';
  }

  /** One step of a validation pipeline: whether it passes, and the message shown when it does not. */
  datatype Check = Check(passes: bool, message: string)

  /**
   * The reference for an ordered validation pipeline: the message of the
   * first check that fails, or `None` when all pass.
   */
  function FirstFailing(checks: seq<Check>): (r: Option<string>)
    ensures r.None? <==> forall k | 0 <= k < |checks| :: checks[k].passes
    ensures r.Some? ==>
              exists k | 0 <= k < |checks| ::
                && !checks[k].passes && r.value == checks[k].message
                && forall m | 0 <= m < k :: checks[m].passes
  {
    if checks == [] then None
    else if !checks[0].passes then Some(checks[0].message)
    else
      var r := FirstFailing(checks[1..]);
      assert forall k | 0 <= k < |checks| - 1 :: checks[1..][k] == checks[k + 1];
      r
  }
}
