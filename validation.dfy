/** Validators of `src/utils/validation.ts`: a phone number must carry exactly thirteen digits,
    and an email must match `^[^\s@]+@[^\s@]+\.[^\s@]+$`. */
module Validation {
  import opened Wrappers
  import opened JsString
  import opened General

  const ValidPhoneLength: nat := 13

  /** `isValidPhoneNumber`: false for the empty string, otherwise whether the sanitized number
      has exactly `ValidPhoneLength` digits. The empty-string guard is subsumed: a phone number
      is valid exactly when it contains thirteen digits, whatever else it contains. */
  function IsValidPhoneNumber(phone: string): (ok: bool)
    ensures ok <==> |KeepDigits(phone)| == ValidPhoneLength
    ensures phone == "" ==> !ok
  {
    phone != "" && |SanitizeString(phone)| == ValidPhoneLength
  }

  /** Inserting (or removing) a non-digit anywhere never changes the verdict. */
  lemma NonDigitIrrelevant(a: string, b: string, c: char)
    requires !IsDigit(c)
    ensures IsValidPhoneNumber(a + [c] + b) == IsValidPhoneNumber(a + b)
  {
    KeepDigitsConcat(a + [c], b);
    KeepDigitsConcat(a, [c]);
    KeepDigitsConcat(a, b);
    KeepDigitsOfNonDigits([c]);
  }

  /** A formatted number passes the validator exactly when at least eleven national digits were
      given: the output then carries `55` and eleven more digits, thirteen in all. */
  lemma FormattedPhoneValidIff(value: string)
    ensures IsValidPhoneNumber(FormatPhoneNumber(value)) <==> |PhoneDigits(value)| >= 11
  {
    var d := PhoneDigits(value);
    var r := FormatPhoneNumber(value);
    if |d| < 3 {
      PhoneDigitsCount(value);
    } else {
      assert |KeepDigits(r)| == 2 + Min(11, |d|);
    }
  }

  /** The character class `[^\s@]`. */
  predicate IsPlainEmailChar(c: char) {
    !IsWhitespace(c) && c != '@'
  }

  predicate AllPlain(s: string) {
    forall k :: 0 <= k < |s| ==> IsPlainEmailChar(s[k])
  }

  /** `s` matches `^[^\s@]+@[^\s@]+\.[^\s@]+$` with the `@` at index `i` and the literal `.` at
      index `j`. */
  predicate EmailMatchAt(s: string, i: int, j: int) {
    && 0 < i && i + 1 < j && j + 1 < |s|
    && s[i] == '@' && s[j] == '.'
    && AllPlain(s[..i]) && AllPlain(s[i + 1..j]) && AllPlain(s[j + 1..])
  }

  /** What the regular expression accepts: some way of splitting `s` into the five pieces. */
  ghost predicate MatchesEmailRegex(s: string) {
    exists i, j :: EmailMatchAt(s, i, j)
  }

  /** The domain part holds a `.` that is neither its first nor its last character. */
  predicate HasInnerDot(domain: string) {
    |domain| >= 3 && '.' in domain[1..|domain| - 1]
  }

  /** Every character other than the `@` at index `i` lies in `[^\s@]`. */
  lemma PlainOutsideAt(s: string, i: int, j: int)
    requires EmailMatchAt(s, i, j)
    ensures forall k :: 0 <= k < |s| && k != i ==> IsPlainEmailChar(s[k])
  {
    forall k | 0 <= k < |s| && k != i ensures IsPlainEmailChar(s[k]) {
      if k < i {
        assert s[..i][k] == s[k];
      } else if k < j {
        assert s[i + 1..j][k - i - 1] == s[k];
      } else if k > j {
        assert s[j + 1..][k - j - 1] == s[k];
      }
    }
  }

  /** The condition `IsValidEmail` evaluates: the first `@` has a non-empty part before it,
      both parts lie in `[^\s@]` and the part after it has an inner `.`. */
  predicate SplitAtFirstAt(email: string) {
    match IndexOf(email, "@")
    case None => false
    case Some(i) =>
      email[..i] != "" && AllPlain(email[..i]) && AllPlain(email[i + 1..])
      && HasInnerDot(email[i + 1..])
  }

  /** A match puts its `@` at the first `@` of the string. */
  lemma MatchIsAtFirstAt(email: string, i: int, j: int)
    requires EmailMatchAt(email, i, j)
    ensures IndexOf(email, "@") == Some(i)
  {
    PlainOutsideAt(email, i, j);
    assert OccursAt(email, "@", i);
    forall k: nat | k < i ensures !OccursAt(email, "@", k) {
      assert email[k..k + 1][0] == email[k];
    }
  }

  lemma RegexImpliesSplit(email: string)
    requires MatchesEmailRegex(email)
    ensures SplitAtFirstAt(email)
  {
    var i, j :| EmailMatchAt(email, i, j);
    MatchIsAtFirstAt(email, i, j);
    PlainOutsideAt(email, i, j);
    var domain := email[i + 1..];
    assert AllPlain(domain) by {
      forall k | 0 <= k < |domain| ensures IsPlainEmailChar(domain[k]) {
        assert domain[k] == email[i + 1 + k];
      }
    }
    var inner := domain[1..|domain| - 1];
    assert inner[j - i - 2] == '.';
  }

  lemma SplitImpliesRegex(email: string)
    requires SplitAtFirstAt(email)
    ensures MatchesEmailRegex(email)
  {
    var i := IndexOf(email, "@").value;
    var domain := email[i + 1..];
    var inner := domain[1..|domain| - 1];
    var k :| 0 <= k < |inner| && inner[k] == '.';
    var j := i + 2 + k;
    assert email[i..i + 1] == "@";
    var left, right := domain[..k + 1], domain[k + 2..];
    assert email[i + 1..j] == left;
    assert email[j + 1..] == right;
    assert AllPlain(left) by {
      forall m | 0 <= m < |left| ensures IsPlainEmailChar(left[m]) {
        assert left[m] == domain[m];
      }
    }
    assert AllPlain(right) by {
      forall m | 0 <= m < |right| ensures IsPlainEmailChar(right[m]) {
        assert right[m] == domain[k + 2 + m];
      }
    }
    assert email[..i] != "" && AllPlain(email[..i]);
    assert email[i] == '@';
    assert email[j] == domain[k + 1] == inner[k];
    assert 0 < i && i + 1 < j && j + 1 < |email|;
    assert EmailMatchAt(email, i, j);
  }

  lemma SplitDecidesRegex(email: string)
    ensures SplitAtFirstAt(email) <==> MatchesEmailRegex(email)
  {
    if MatchesEmailRegex(email) { RegexImpliesSplit(email); }
    if SplitAtFirstAt(email) { SplitImpliesRegex(email); }
  }

  /** `isValidEmail`: the regular-expression test, decided by locating the first `@` and
      checking the parts around it. It holds exactly when the regular expression matches. */
  function IsValidEmail(email: string): (ok: bool)
    ensures ok <==> MatchesEmailRegex(email)
  {
    SplitDecidesRegex(email);
    SplitAtFirstAt(email)
  }

  /** A string containing whitespace is never a valid email. */
  lemma EmailWithWhitespaceInvalid(email: string, k: int)
    requires 0 <= k < |email| && IsWhitespace(email[k])
    ensures !IsValidEmail(email)
  {
    if IsValidEmail(email) {
      var i, j :| EmailMatchAt(email, i, j);
      PlainOutsideAt(email, i, j);
    }
  }

  /** A string without `@` is never a valid email. */
  lemma EmailWithoutAtInvalid(email: string)
    requires '@' !in email
    ensures !IsValidEmail(email)
  {
    assert IndexOf(email, "@").None? by {
      forall k: nat ensures !OccursAt(email, "@", k) {
        if k + 1 <= |email| { assert email[k..k + 1][0] == email[k]; }
      }
    }
  }

  /** A string with two `@` is never a valid email. */
  lemma EmailWithTwoAtsInvalid(email: string, k1: int, k2: int)
    requires 0 <= k1 < k2 < |email| && email[k1] == '@' && email[k2] == '@'
    ensures !IsValidEmail(email)
  {
    if IsValidEmail(email) {
      var i, j :| EmailMatchAt(email, i, j);
      PlainOutsideAt(email, i, j);
    }
  }
}
