/** String helpers of `src/utils/general.ts`: stripping a string to its digits and formatting a
    Brazilian phone number as `+55 (AA) NNNNN-NNNN`. */
module General {
  import opened Wrappers
  import opened JsString

  /** The regular-expression class `\d`: the ASCII digits only. */
  predicate IsDigit(c: char) {
    '0' <= c <= '9'
  }

  predicate AllDigits(s: string) {
    forall i :: 0 <= i < |s| ==> IsDigit(s[i])
  }

  /** `s.replace(/[^\d]/g, '')`, equivalently `s.replace(/\D/g, '')`: every non-digit removed.
      The result holds only digits, and every digit as often as `s` does. */
  function KeepDigits(s: string): (r: string)
    ensures |r| <= |s|
    ensures AllDigits(r)
  {
    if s == [] then [] else (if IsDigit(s[0]) then [s[0]] else []) + KeepDigits(s[1..])
  }

  /** Every digit is kept as often as it occurs, and nothing else is. */
  lemma {:induction false} KeepDigitsCounts(s: string, c: char)
    ensures multiset(KeepDigits(s))[c] == if IsDigit(c) then multiset(s)[c] else 0
  {
    if s != [] {
      assert s == [s[0]] + s[1..];
      KeepDigitsCounts(s[1..], c);
    }
  }

  lemma KeepDigitsCountsAll(s: string)
    ensures forall c :: IsDigit(c) ==> multiset(KeepDigits(s))[c] == multiset(s)[c]
  {
    forall c | IsDigit(c) ensures multiset(KeepDigits(s))[c] == multiset(s)[c] {
      KeepDigitsCounts(s, c);
    }
  }

  /** Removing non-digits distributes over concatenation, so the digits keep their order. */
  lemma {:induction false} KeepDigitsConcat(a: string, b: string)
    ensures KeepDigits(a + b) == KeepDigits(a) + KeepDigits(b)
  {
    if a == [] {
      assert a + b == b;
    } else {
      var head := if IsDigit(a[0]) then [a[0]] else [];
      assert (a + b)[0] == a[0] && (a + b)[1..] == a[1..] + b;
      assert KeepDigits(a + b) == head + KeepDigits(a[1..] + b);
      assert KeepDigits(a) == head + KeepDigits(a[1..]);
      KeepDigitsConcat(a[1..], b);
    }
  }

  /** A string of digits only is left unchanged. */
  lemma {:induction false} KeepDigitsOfDigits(s: string)
    requires AllDigits(s)
    ensures KeepDigits(s) == s
  {
    if s != [] {
      assert AllDigits(s[1..]) by {
        forall i | 0 <= i < |s| - 1 ensures IsDigit(s[1..][i]) {
          assert s[1..][i] == s[i + 1];
        }
      }
      KeepDigitsOfDigits(s[1..]);
    }
  }

  /** A string without digits contributes nothing. */
  lemma {:induction false} KeepDigitsOfNonDigits(s: string)
    requires forall i :: 0 <= i < |s| ==> !IsDigit(s[i])
    ensures KeepDigits(s) == []
  {
    if s != [] {
      KeepDigitsOfNonDigits(s[1..]);
    }
  }

  /** `sanitizeString`: `''` for an empty input, otherwise the input with every non-digit
      removed. The result consists of digits only and keeps every digit of the input. */
  function SanitizeString(s: string): (r: string)
    ensures s == "" ==> r == ""
    ensures AllDigits(r)
    ensures forall c :: IsDigit(c) ==> multiset(r)[c] == multiset(s)[c]
  {
    if s == "" then "" else KeepDigitsCountsAll(s); KeepDigits(s)
  }

  /** The digits come out in their original order: sanitizing distributes over concatenation. */
  lemma SanitizeStringConcat(a: string, b: string)
    ensures SanitizeString(a + b) == SanitizeString(a) + SanitizeString(b)
  {
    KeepDigitsConcat(a, b);
    if a == "" { assert a + b == b; }
    if b == "" { assert a + b == a; }
  }

  /** Sanitizing a sanitized string changes nothing. */
  lemma SanitizeStringIdempotent(s: string)
    ensures SanitizeString(SanitizeString(s)) == SanitizeString(s)
  {
    KeepDigitsOfDigits(SanitizeString(s));
  }

  /** The country code that `formatPhoneNumber` strips and re-adds. */
  const CountryCode: string := "+55"

  function Min(a: int, b: int): int {
    if a < b then a else b
  }

  /** `value.replace('+55', '').replace(/\D/g, '')`: the national digits of a phone number. Only
      the first occurrence of `+55` is removed. */
  function PhoneDigits(value: string): (d: string)
    ensures AllDigits(d)
  {
    KeepDigits(ReplaceFirst(value, CountryCode, ""))
  }

  /** The digits of a slice of a digit string are the slice itself. */
  lemma DigitSlice(d: string, i: nat, j: nat)
    requires AllDigits(d) && i <= j <= |d|
    ensures KeepDigits(d[i..j]) == d[i..j]
  {
    assert AllDigits(d[i..j]) by {
      forall k | 0 <= k < j - i ensures IsDigit(d[i..j][k]) {
        assert d[i..j][k] == d[i + k];
      }
    }
    KeepDigitsOfDigits(d[i..j]);
  }

  /** The fixed text around the digits contributes just the country code's `55`. */
  lemma TemplateDigits()
    ensures KeepDigits("+55 (") == "55"
    ensures KeepDigits(") ") == ""
    ensures KeepDigits("-") == ""
  {
    assert "+55 (" == ['+'] + "55" + " (";
    KeepDigitsConcat(['+'] + "55", " (");
    KeepDigitsConcat(['+'], "55");
    KeepDigitsOfDigits("55");
    KeepDigitsOfNonDigits(" (");
    KeepDigitsOfNonDigits(['+']);
    KeepDigitsOfNonDigits(") ");
    KeepDigitsOfNonDigits("-");
  }

  /** Digits of the formatted number with three to seven national digits. */
  lemma ShortFormattedDigits(d: string)
    requires 3 <= |d| < 8 && AllDigits(d)
    ensures KeepDigits("+55 (" + d[..2] + ") " + d[2..]) == "55" + d
  {
    var a, b, c, x := "+55 (", d[..2], ") ", d[2..];
    assert KeepDigits(a) == "55" && KeepDigits(c) == "" by { TemplateDigits(); }
    assert KeepDigits(b) == b by { DigitSlice(d, 0, 2); }
    assert KeepDigits(x) == x by { DigitSlice(d, 2, |d|); assert d[2..|d|] == x; }
    assert KeepDigits(a + b) == "55" + b by { KeepDigitsConcat(a, b); }
    assert KeepDigits(a + b + c) == "55" + b by { KeepDigitsConcat(a + b, c); }
    assert KeepDigits(a + b + c + x) == "55" + b + x by { KeepDigitsConcat(a + b + c, x); }
    assert b + x == d;
  }

  /** Digits of the formatted number with eight or more national digits. */
  lemma LongFormattedDigits(d: string)
    requires |d| >= 8 && AllDigits(d)
    ensures var e := Min(11, |d|);
      KeepDigits("+55 (" + d[..2] + ") " + d[2..7] + "-" + d[7..e]) == "55" + d[..e]
  {
    var e := Min(11, |d|);
    var d7, y := d[..7], d[7..e];
    assert AllDigits(d7) by { DigitSlice(d, 0, 7); assert d[0..7] == d7; }
    var p := "+55 (" + d[..2] + ") " + d[2..7];
    assert KeepDigits(p) == "55" + d7 by {
      ShortFormattedDigits(d7);
      assert d7[..2] == d[..2] && d7[2..] == d[2..7];
    }
    assert KeepDigits(y) == y by { DigitSlice(d, 7, e); }
    assert KeepDigits(p + "-") == "55" + d7 by {
      KeepDigitsConcat(p, "-");
      TemplateDigits();
    }
    assert KeepDigits(p + "-" + y) == "55" + d7 + y by { KeepDigitsConcat(p + "-", y); }
    assert d7 + y == d[..e];
  }

  /** `formatPhoneNumber`. With fewer than three national digits the input comes back unchanged;
      otherwise the result is `+55 (`, the first two digits, `) `, then the remaining digits
      (at most nine) with a `-` after the fifth of them; digits beyond the eleventh are
      dropped. The result then carries the country code's digits followed by the first eleven
      national digits. */
  function FormatPhoneNumber(value: string): (r: string)
    ensures |PhoneDigits(value)| < 3 ==> r == value
    ensures var d := PhoneDigits(value);
      |d| >= 3 ==> |r| >= 9 && r[..9] == "+55 (" + d[..2] + ") "
    ensures var d := PhoneDigits(value);
      3 <= |d| < 8 ==> r[9..] == d[2..]
    ensures var d := PhoneDigits(value);
      |d| >= 8 ==> r[9..] == d[2..7] + "-" + d[7..Min(11, |d|)]
    ensures var d := PhoneDigits(value);
      |d| >= 3 ==> KeepDigits(r) == "55" + d[..Min(11, |d|)]
  {
    var d := PhoneDigits(value);
    if |d| < 3 then
      value
    else
      var head := "+55 (" + d[..2] + ") ";
      assert |head| == 9;
      if |d| < 8 then
        ShortFormattedDigits(d);
        var r := head + d[2..];
        assert r[..9] == head && r[9..] == d[2..];
        r
      else
        LongFormattedDigits(d);
        var tail := d[2..7] + "-" + d[7..Min(11, |d|)];
        var r := head + tail;
        assert r[..9] == head && r[9..] == tail;
        assert r == "+55 (" + d[..2] + ") " + d[2..7] + "-" + d[7..Min(11, |d|)];
        r
  }

  /** Only the first `+55` is dropped: in a number that starts with it, a later `+55`
      contributes the digits 5 and 5. */
  lemma CountryCodeRemovedOnce(rest: string)
    ensures PhoneDigits(CountryCode + rest) == KeepDigits(rest)
  {
    var s := CountryCode + rest;
    assert s[..3] == CountryCode;
    assert IndexOf(s, CountryCode) == Some(0);
    assert ReplaceFirst(s, CountryCode, "") == rest;
  }

  /** A second `+55` right after the first is kept as digits: `+55+55` followed by one to five
      digits `x` formats as `+55 (55) x`. */
  lemma FormatKeepsLaterCountryCode(x: string)
    requires AllDigits(x) && 1 <= |x| <= 5
    ensures FormatPhoneNumber(CountryCode + CountryCode + x) == "+55 (55) " + x
  {
    var value := CountryCode + CountryCode + x;
    assert value == CountryCode + (CountryCode + x);
    CountryCodeRemovedOnce(CountryCode + x);
    KeepDigitsConcat(CountryCode, x);
    assert CountryCode == ['+'] + "55";
    KeepDigitsConcat(['+'], "55");
    KeepDigitsOfDigits("55");
    KeepDigitsOfDigits(x);
    var d := PhoneDigits(value);
    assert d == "55" + x;
    assert d[..2] == "55" && d[2..] == x;
    var r := FormatPhoneNumber(value);
    assert r == r[..9] + r[9..];
  }

  /** The national digits are the digits of the whole input, less the two digits of the first
      `+55` when there is one. */
  lemma PhoneDigitsCount(value: string)
    ensures |KeepDigits(value)| == |PhoneDigits(value)| + (if IndexOf(value, CountryCode).Some? then 2 else 0)
  {
    match IndexOf(value, CountryCode)
    case None =>
    case Some(i) =>
      var pre, post := value[..i], value[i + 3..];
      assert value == pre + CountryCode + post;
      assert ReplaceFirst(value, CountryCode, "") == pre + post;
      KeepDigitsConcat(pre, post);
      KeepDigitsConcat(pre + CountryCode, post);
      KeepDigitsConcat(pre, CountryCode);
      assert CountryCode == ['+'] + "55";
      KeepDigitsConcat(['+'], "55");
      KeepDigitsOfDigits("55");
  }

  /** The national digits of a formatted number are the first eleven national digits of the
      input. */
  lemma FormattedPhoneDigits(value: string)
    requires |PhoneDigits(value)| >= 3
    ensures PhoneDigits(FormatPhoneNumber(value)) == PhoneDigits(value)[..Min(11, |PhoneDigits(value)|)]
  {
    var d := PhoneDigits(value);
    var r := FormatPhoneNumber(value);
    var rest := r[3..];
    assert r == CountryCode + rest;
    assert PhoneDigits(r) == KeepDigits(rest) by { CountryCodeRemovedOnce(rest); }
    assert KeepDigits(r) == "55" + KeepDigits(rest) by {
      KeepDigitsConcat(CountryCode, rest);
      assert CountryCode == ['+'] + "55";
      KeepDigitsConcat(['+'], "55");
      KeepDigitsOfDigits("55");
    }
    assert KeepDigits(r) == "55" + d[..Min(11, |d|)];
    assert KeepDigits(rest) == ("55" + KeepDigits(rest))[2..];
  }

  /** Formatting a formatted number changes nothing. */
  lemma FormatPhoneNumberIdempotent(value: string)
    ensures FormatPhoneNumber(FormatPhoneNumber(value)) == FormatPhoneNumber(value)
  {
    var d := PhoneDigits(value);
    if |d| >= 3 {
      var r := FormatPhoneNumber(value);
      var e := Min(11, |d|);
      FormattedPhoneDigits(value);
      var d' := PhoneDigits(r);
      assert d' == d[..e];
      assert d'[..2] == d[..2];
      if |d| >= 8 {
        assert d'[2..7] == d[2..7];
        assert d'[7..Min(11, |d'|)] == d[7..e];
      } else {
        assert d' == d;
      }
    }
  }
}
