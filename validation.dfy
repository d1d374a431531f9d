/**
 * The three syntactic checks of the location finder form
 * (LocationFinderForm::validateForm). Each check looks at one field only,
 * and all three are always evaluated.
 */
module Validation {
  import opened PhpBytes

  /** The form fields that can carry a validation error. */
  datatype Field = CountryCode | PostalCode | City

  /** The submitted values, as the raw octets the browser sent. */
  datatype SearchCriteria = SearchCriteria(countryCode: seq<byte>, city: seq<byte>, postalCode: seq<byte>)

  /** The country code must be exactly two octets long; its characters are not looked at. */
  predicate CountryCodeAccepted(code: seq<byte>) {
    |code| == 2
  }

  /** The postal code must be five to nine octets long. */
  predicate PostalCodeAccepted(code: seq<byte>) {
    !(|code| < 5 || |code| > 9)
  }

  /** The class `[a-zA-Z\s]`. */
  predicate IsCityByte(b: byte) {
    IsAsciiLetter(b) || IsSpace(b)
  }

  predicate AllCityBytes(s: seq<byte>) {
    forall i :: 0 <= i < |s| ==> IsCityByte(s[i])
  }

  /**
   * `/^[a-zA-Z\s]+$/`: the run `[a-zA-Z\s]+` starts at the first octet and
   * ends at some position `j >= 1`; without the D modifier, `$` then matches
   * either at the very end of the subject or just before a final line feed.
   */
  predicate CityPatternMatchesAt(s: seq<byte>, j: nat) {
    1 <= j <= |s| && AllCityBytes(s[..j]) &&
    (j == |s| || (j == |s| - 1 && s[j] == LineFeed))
  }

  predicate CityPatternMatches(s: seq<byte>) {
    exists j: nat | 1 <= j <= |s| :: CityPatternMatchesAt(s, j)
  }

  /**
   * Since a line feed is itself in `\s`, the pattern matches exactly the
   * non-empty subjects made only of ASCII letters and white space.
   */
  lemma CityPatternIff(s: seq<byte>)
    ensures CityPatternMatches(s) <==> |s| > 0 && forall i :: 0 <= i < |s| ==> IsCityByte(s[i])
  {
    if |s| > 0 && forall i :: 0 <= i < |s| ==> IsCityByte(s[i]) {
      assert s[..|s|] == s;
      assert CityPatternMatchesAt(s, |s|);
    }
    if CityPatternMatches(s) {
      var j: nat :| 1 <= j <= |s| && CityPatternMatchesAt(s, j);
      forall i | 0 <= i < |s| ensures IsCityByte(s[i]) {
        if i < j {
          assert s[..j][i] == s[i];
        } else {
          assert s[i] == LineFeed;
        }
      }
    }
  }

  /** The fields whose check fails, i.e. the keys validateForm records errors under. */
  function InvalidFields(c: SearchCriteria): (r: set<Field>)
    ensures CountryCode in r <==> |c.countryCode| != 2
    ensures PostalCode in r <==> |c.postalCode| < 5 || |c.postalCode| > 9
    ensures City in r <==> |c.city| == 0 || exists i :: 0 <= i < |c.city| && !IsCityByte(c.city[i])
    ensures r == {} <==> CountryCodeAccepted(c.countryCode) && PostalCodeAccepted(c.postalCode) && CityPatternMatches(c.city)
  {
    CityPatternIff(c.city);
    (if CountryCodeAccepted(c.countryCode) then {} else {CountryCode}) +
    (if PostalCodeAccepted(c.postalCode) then {} else {PostalCode}) +
    (if CityPatternMatches(c.city) then {} else {City})
  }

  /** The message recorded against each field. */
  function ErrorMessage(f: Field): string {
    match f
    case CountryCode => "Please enter a valid country code!"
    case PostalCode => "Please enter a valid postal code!"
    case City => "Please enter a valid city name!"
  }

  /**
   * The inputs of the functional tests: "DE"/"Bonn"/"53313" passes, and
   * "GER", "533" and "Bonn123" each fail their own check and only that one.
   */
  lemma ValidationExamples()
    ensures InvalidFields(SearchCriteria(Ascii("DE"), Ascii("Bonn"), Ascii("53313"))) == {}
    ensures InvalidFields(SearchCriteria(Ascii("GER"), Ascii("Bonn"), Ascii("53313"))) == {CountryCode}
    ensures InvalidFields(SearchCriteria(Ascii("DE"), Ascii("Bonn"), Ascii("533"))) == {PostalCode}
    ensures InvalidFields(SearchCriteria(Ascii("DE"), Ascii("Bonn123"), Ascii("53313"))) == {City}
  {
    var bonn := Ascii("Bonn");
    assert bonn == [66, 111, 110, 110];
    assert AllCityBytes(bonn);
    var bonn123 := Ascii("Bonn123");
    assert bonn123[4] == 49 && !IsCityByte(bonn123[4]);
  }

  /**
   * No character class is checked: putting any two octets, digits included,
   * in the country-code field only clears that field's error and leaves the
   * other fields' errors as they were.
   */
  lemma CountryCodeIgnoresContent(c: SearchCriteria, code: seq<byte>)
    requires |code| == 2
    ensures InvalidFields(c.(countryCode := code)) == InvalidFields(c) - {CountryCode}
  {
  }
}
