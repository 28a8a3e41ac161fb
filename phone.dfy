/**
 * Phone-number handling of the admin panel: normalisation to the
 * international form of ITU-T Recommendation E.164 (`+91` followed by the
 * ten-digit national number), validation of Indian mobile numbers, and the
 * `+91 XXXXX XXXXX` display form.
 */
module Phone {
  import opened Strings

  predicate IsDigit(c: char) { '0' <= c <= '9' }

  /** The characters kept by `/[^\d+]/g`: digits and the plus sign. */
  predicate IsDigitOrPlus(c: char) { IsDigit(c) || c == '+' }

  /** A first digit that Indian mobile numbers may have (`[6-9]`). */
  predicate IsMobileLead(c: char) { '6' <= c <= '9' }

  predicate AllDigits(s: string) { forall i :: 0 <= i < |s| ==> IsDigit(s[i]) }

  /** `phone.replace(/\D/g, "")`. */
  function DigitsOnly(phone: string): (d: string)
    ensures AllDigits(d)
  {
    Filter(phone, IsDigit)
  }

  /** `phone.replace(/[^\d+]/g, "")`. */
  function DigitsAndPlus(phone: string): (d: string)
    ensures forall i :: 0 <= i < |d| ==> IsDigitOrPlus(d[i])
  {
    Filter(phone, IsDigitOrPlus)
  }

  /** `+91` followed by ten digits: the E.164 form of an Indian number. */
  predicate IsIndianE164(s: string)
  {
    |s| == 13 && s[..3] == "+91" && AllDigits(s[3..])
  }

  /** The digit strings that `formatPhoneNumber` knows how to normalise. */
  predicate Normalisable(d: string)
  {
    (|d| == 12 && d[..2] == "91") || |d| == 10 || (|d| == 11 && d[0] == '0')
  }

  /** The ten-digit national number of a normalisable digit string: its last ten digits. */
  function NationalNumber(d: string): string
    requires |d| >= 10
  {
    d[|d| - 10..]
  }

  /**
   * `formatPhoneNumber`: "" for "", otherwise the digits are normalised to
   * `+91` and the national number in three accepted cases, and any other
   * input is returned exactly as given (not cleaned).
   */
  function FormatPhoneNumber(phone: string): (r: string)
    ensures r == "" <==> phone == ""
    ensures phone != "" && Normalisable(DigitsOnly(phone)) ==>
      IsIndianE164(r) && r == "+91" + NationalNumber(DigitsOnly(phone))
    ensures phone == "" || !Normalisable(DigitsOnly(phone)) ==> r == phone
  {
    if phone == "" then ""
    else
      var cleaned := DigitsOnly(phone);
      if |cleaned| == 12 && cleaned[..2] == "91" then
        assert cleaned == cleaned[..2] + cleaned[2..];
        "+" + cleaned
      else if |cleaned| == 10 then "+91" + cleaned
      else if |cleaned| == 11 && cleaned[0] == '0' then "+91" + cleaned[1..]
      else phone
  }

  /** `displayPhoneNumber`: groups a cleaned `+91` number of length 13 as `+91 XXXXX XXXXX`. */
  function DisplayPhoneNumber(phone: string): (r: string)
    ensures phone == "" ==> r == ""
    ensures var c := DigitsAndPlus(phone);
      if |c| == 13 && c[..3] == "+91" then
        |r| == 15 && r[3] == ' ' && r[9] == ' ' && r[..3] + r[4..9] + r[10..] == c
      else r == c
  {
    if phone == "" then ""
    else
      var cleaned := DigitsAndPlus(phone);
      if |cleaned| == 13 && cleaned[..3] == "+91" then
        var r := cleaned[..3] + " " + cleaned[3..8] + " " + cleaned[8..];
        assert r[..3] + r[4..9] + r[10..] == cleaned[..3] + cleaned[3..8] + cleaned[8..];
        assert cleaned[..3] + cleaned[3..8] + cleaned[8..] == cleaned;
        r
      else cleaned
  }

  /** `/^[6-9]\d{9}$/`. */
  predicate MatchesTenDigitMobile(s: string)
  {
    |s| == 10 && IsMobileLead(s[0]) && AllDigits(s[1..])
  }

  /** `/^91[6-9]\d{9}$/`. */
  predicate MatchesTwelveDigitMobile(s: string)
  {
    |s| == 12 && s[..2] == "91" && IsMobileLead(s[2]) && AllDigits(s[3..])
  }

  /**
   * `isValidIndianPhone`. A valid number's digits end in a ten-digit
   * national number led by 6-9, preceded by nothing or by the country code.
   */
  predicate IsValidIndianPhone(phone: string)
    ensures IsValidIndianPhone(phone) ==>
      var d := DigitsOnly(phone);
      (|d| == 10 || (|d| == 12 && d[..2] == "91")) && IsMobileLead(d[|d| - 10])
  {
    var cleaned := DigitsOnly(phone);
    (|cleaned| == 10 && MatchesTenDigitMobile(cleaned)) ||
    (|cleaned| == 12 && MatchesTwelveDigitMobile(cleaned))
  }

  // ---------------------------------------------------------------------
  // Properties
  // ---------------------------------------------------------------------

  /** Digit extraction keeps the digits of `phone` in order and nothing else. */
  lemma DigitsOnlyCharacterisation(a: string, b: string, c: char)
    ensures DigitsOnly(a + b) == DigitsOnly(a) + DigitsOnly(b)
    ensures AllDigits(a) ==> DigitsOnly(a) == a
    ensures multiset(DigitsOnly(a))[c] == if IsDigit(c) then multiset(a)[c] else 0
  {
    FilterAppend(a, b, IsDigit);
    if AllDigits(a) {
      FilterKeepsAll(a, IsDigit);
    }
    FilterCounts(a, IsDigit, c);
  }

  /** `isValidIndianPhone` in words: ten digits led by 6-9, or `91` and such ten digits. */
  lemma ValidIndianPhoneCharacterisation(phone: string)
    ensures var d := DigitsOnly(phone);
      IsValidIndianPhone(phone) <==>
        (|d| == 10 && IsMobileLead(d[0])) ||
        (|d| == 12 && d[..2] == "91" && IsMobileLead(d[2]))
  {
    var d := DigitsOnly(phone);
    assert AllDigits(d);
    if |d| == 10 {
      assert AllDigits(d[1..]);
    }
    if |d| == 12 {
      assert AllDigits(d[3..]);
    }
  }

  /** The digits of `+91` followed by ten digits. */
  lemma DigitsOfE164(s: string)
    requires IsIndianE164(s)
    ensures DigitsOnly(s) == "91" + s[3..]
  {
    assert s == "+" + ("91" + s[3..]);
    DigitsOnlyCharacterisation("+", "91" + s[3..], '+');
    DigitsOnlyCharacterisation("91" + s[3..], [], '+');
    assert AllDigits("91" + s[3..]);
    assert DigitsOnly("+") == "";
  }

  /** Normalising twice is normalising once. */
  lemma FormatIdempotent(phone: string)
    ensures FormatPhoneNumber(FormatPhoneNumber(phone)) == FormatPhoneNumber(phone)
  {
    if phone != "" && Normalisable(DigitsOnly(phone)) {
      var r := FormatPhoneNumber(phone);
      DigitsOfE164(r);
      assert Normalisable(DigitsOnly(r));
      assert NationalNumber(DigitsOnly(r)) == r[3..];
      assert r == r[..3] + r[3..];
    }
  }

  /** A valid Indian mobile number normalises to `+91` and ten digits led by 6-9. */
  lemma ValidPhoneFormatsToMobileE164(phone: string)
    requires IsValidIndianPhone(phone)
    ensures var r := FormatPhoneNumber(phone);
      IsIndianE164(r) && IsMobileLead(r[3])
  {
    assert DigitsOnly("") == "";
    assert Normalisable(DigitsOnly(phone));
  }

  /** An E.164 number has nothing for the display cleaner to remove. */
  lemma E164IsClean(s: string)
    requires IsIndianE164(s)
    ensures DigitsAndPlus(s) == s
  {
    forall i | 0 <= i < |s| ensures IsDigitOrPlus(s[i]) {
      if i >= 3 {
        assert s[i] == s[3..][i - 3];
      } else {
        assert s[i] == s[..3][i];
      }
    }
    FilterKeepsAll(s, IsDigitOrPlus);
  }

  /** Every normalised number is shown in the grouped `+91 XXXXX XXXXX` form. */
  lemma FormattedDisplaysGrouped(phone: string)
    requires phone != "" && Normalisable(DigitsOnly(phone))
    ensures var r := FormatPhoneNumber(phone);
      DisplayPhoneNumber(r) == "+91 " + r[3..8] + " " + r[8..]
  {
    var r := FormatPhoneNumber(phone);
    E164IsClean(r);
  }
}
