/**
 * The two business rules applied to each location record returned by the
 * lookup service (LocationFinderForm::locationWorksOnWeekends and
 * LocationFinderForm::addressHasEvenNumber), the filter that keeps the records
 * passing both, and the three outcomes of a lookup.
 */
module Locations {
  import opened Wrappers
  import opened PhpBytes

  /** One element of a record's `openingHours` array. */
  datatype OpeningHoursEntry = OpeningHoursEntry(dayOfWeek: seq<byte>)

  /**
   * One element of the response's `locations` array: `openingHours` may be
   * absent, `place.address.streetAddress` is taken to be present.
   */
  datatype Location = Location(openingHours: Option<seq<OpeningHoursEntry>>, streetAddress: seq<byte>)

  /** The parsed reply of the lookup service: its HTTP status and its records. */
  datatype Response = Response(status: int, locations: seq<Location>)

  /** What a lookup leaves for display. */
  datatype Outcome = Results(locations: seq<Location>) | NoMatches | UpstreamError

  /** The schema.org DayOfWeek URIs of the weekend days. */
  const Saturday: seq<byte> := Ascii("http://schema.org/Saturday")
  const Sunday: seq<byte> := Ascii("http://schema.org/Sunday")

  /** The weekend test of one opening-hours entry: its day is exactly one of the two weekend URIs. */
  predicate IsWeekendDay(day: seq<byte>) {
    day == Saturday || day == Sunday
  }

  /** Some entry of the opening hours falls on a weekend day. */
  predicate OpenOnWeekends(openingHours: seq<OpeningHoursEntry>) {
    exists i :: 0 <= i < |openingHours| && IsWeekendDay(openingHours[i].dayOfWeek)
  }

  /** A record's opening hours, with an absent member read as the empty list. */
  function HoursOrEmpty(location: Location): seq<OpeningHoursEntry> {
    location.openingHours.GetOr([])
  }

  /** The search loop with early return over the opening-hours entries. */
  method LocationWorksOnWeekends(openingHours: seq<OpeningHoursEntry>) returns (works: bool)
    ensures works <==> OpenOnWeekends(openingHours)
  {
    for i := 0 to |openingHours|
      invariant forall k :: 0 <= k < i ==> !IsWeekendDay(openingHours[k].dayOfWeek)
    {
      if IsWeekendDay(openingHours[i].dayOfWeek) {
        return true;
      }
    }
    return false;
  }

  /** Missing or empty opening hours never count as open on weekends. */
  lemma NoHoursNotOnWeekends(streetAddress: seq<byte>)
    ensures !OpenOnWeekends(HoursOrEmpty(Location(None, streetAddress)))
    ensures !OpenOnWeekends([])
  {
  }

  // ---------------------------------------------------------------------
  // The first run of digits, as the leftmost match of `/\d+/`

  /** The index of the leftmost digit at or after `i`, if there is one. */
  function FirstDigitFrom(s: seq<byte>, i: nat): (r: Option<nat>)
    requires i <= |s|
    ensures r.None? <==> forall k :: i <= k < |s| ==> !IsDigit(s[k])
    ensures r.Some? ==> i <= r.value < |s| && IsDigit(s[r.value])
    ensures r.Some? ==> forall k :: i <= k < r.value ==> !IsDigit(s[k])
    decreases |s| - i
  {
    if i == |s| then None
    else if IsDigit(s[i]) then Some(i)
    else FirstDigitFrom(s, i + 1)
  }

  /** The end of the greedy run of digits that starts at `i`. */
  function RunEnd(s: seq<byte>, i: nat): (r: nat)
    requires i <= |s|
    ensures i <= r <= |s|
    ensures forall k :: i <= k < r ==> IsDigit(s[k])
    ensures r == |s| || !IsDigit(s[r])
    decreases |s| - i
  {
    if i < |s| && IsDigit(s[i]) then RunEnd(s, i + 1) else i
  }

  /** `s[i..j]` is the leftmost maximal run of digits of `s`. */
  ghost predicate IsFirstDigitRun(s: seq<byte>, i: int, j: int) {
    0 <= i < j <= |s| &&
    (forall k :: 0 <= k < i ==> !IsDigit(s[k])) &&
    (forall k :: i <= k < j ==> IsDigit(s[k])) &&
    (j == |s| || !IsDigit(s[j]))
  }

  /** At most one run is the leftmost maximal one. */
  lemma FirstDigitRunUnique(s: seq<byte>, i: int, j: int, i': int, j': int)
    requires IsFirstDigitRun(s, i, j) && IsFirstDigitRun(s, i', j')
    ensures i == i' && j == j'
  {
    assert IsDigit(s[i]) && IsDigit(s[i']);
    assert i == i';
    assert j < |s| ==> !IsDigit(s[j]);
    assert j' < |s| ==> !IsDigit(s[j']);
  }

  /** The text matched by `/\d+/`, or None when the address has no digit. */
  function FirstDigitRun(s: seq<byte>): (r: Option<seq<byte>>)
    ensures r.None? <==> forall k :: 0 <= k < |s| ==> !IsDigit(s[k])
    ensures r.Some? ==> exists i, j :: IsFirstDigitRun(s, i, j) && r.value == s[i..j]
    ensures r.Some? ==> |r.value| > 0 && forall k :: 0 <= k < |r.value| ==> IsDigit(r.value[k])
  {
    match FirstDigitFrom(s, 0)
    case None => None
    case Some(i) =>
      var j := RunEnd(s, i);
      assert IsFirstDigitRun(s, i, j);
      Some(s[i..j])
  }

  // ---------------------------------------------------------------------
  // The integer value of a run of digits

  function Pow10(n: nat): (p: nat)
    ensures p >= 1
  {
    if n == 0 then 1 else 10 * Pow10(n - 1)
  }

  predicate AllDigits(d: seq<byte>) {
    forall k :: 0 <= k < |d| ==> IsDigit(d[k])
  }

  /** The base-10 value of a string of digits, read most significant digit first. */
  function DecimalValue(d: seq<byte>): (v: nat)
    requires AllDigits(d)
    ensures v < Pow10(|d|)
  {
    if d == [] then 0 else 10 * DecimalValue(d[..|d| - 1]) + DigitValue(d[|d| - 1])
  }

  /** The parity of a decimal number is the parity of its last digit. */
  lemma DecimalValueParity(d: seq<byte>)
    requires AllDigits(d) && |d| > 0
    ensures DecimalValue(d) % 2 == DigitValue(d[|d| - 1]) % 2
  {
  }

  /** Leading zeros do not change the value. */
  lemma {:induction false} LeadingZeroIgnored(d: seq<byte>)
    requires AllDigits(d)
    ensures AllDigits([48 as byte] + d) && DecimalValue([48 as byte] + d) == DecimalValue(d)
  {
    var z := [48 as byte] + d;
    if d != [] {
      assert z[..|z| - 1] == [48 as byte] + d[..|d| - 1];
      LeadingZeroIgnored(d[..|d| - 1]);
    }
  }

  /** PHP's largest integer on a 64-bit build. */
  const PhpIntMax: int := 9223372036854775807

  /** A run of at most eighteen digits converts without hitting PHP's integer bound. */
  lemma ShortRunFitsPhpInt(d: seq<byte>)
    requires AllDigits(d) && |d| <= 18
    ensures DecimalValue(d) <= PhpIntMax
  {
    Pow10Monotone(|d|, 18);
    assert Pow10(6) == 1000000;
    assert Pow10(12) == 1000000000000;
    assert Pow10(18) == 1000000000000000000;
  }

  lemma {:induction false} Pow10Monotone(m: nat, n: nat)
    requires m <= n
    ensures Pow10(m) <= Pow10(n)
  {
    if m < n {
      Pow10Monotone(m, n - 1);
    }
  }

  /**
   * The even-number rule: the address has a digit, and the value of its first
   * run of digits is even. That is decided by the run's last digit alone.
   */
  function AddressHasEvenNumber(streetAddress: seq<byte>): (r: bool)
    ensures (forall k :: 0 <= k < |streetAddress| ==> !IsDigit(streetAddress[k])) ==> !r
    ensures r <==>
      exists i, j :: IsFirstDigitRun(streetAddress, i, j) && DigitValue(streetAddress[j - 1]) % 2 == 0
  {
    match FirstDigitRun(streetAddress)
    case None => false
    case Some(run) => DecimalValue(run) % 2 == 0
  }

  /** "12 Main St" has an even number. */
  lemma EvenAddressExample()
    ensures AddressHasEvenNumber(Ascii("12 Main St"))
  {
    var a := Ascii("12 Main St");
    assert a[0] == 49 && a[1] == 50 && a[2] == 32;
    assert FirstDigitFrom(a, 0) == Some(0);
    assert RunEnd(a, 0) == 2;
    assert a[0..2] == [49, 50];
    assert DecimalValue([49, 50]) == 12;
  }

  /** "13 Main St" has an odd number. */
  lemma OddAddressExample()
    ensures !AddressHasEvenNumber(Ascii("13 Main St"))
  {
    var b := Ascii("13 Main St");
    assert b[0] == 49 && b[1] == 51 && b[2] == 32;
    assert FirstDigitFrom(b, 0) == Some(0);
    assert RunEnd(b, 0) == 2;
    assert b[0..2] == [49, 51];
    assert DecimalValue([49, 51]) == 13;
  }

  /** "Main St" has no number at all. */
  lemma NoNumberAddressExample()
    ensures !AddressHasEvenNumber(Ascii("Main St"))
  {
    assert Ascii("Main St") == [77, 97, 105, 110, 32, 83, 116];
  }

  // ---------------------------------------------------------------------
  // The filter of submitForm

  /**
   * The keep condition of the filter: the record is open on a weekend, with
   * absent opening hours read as none, and its address number is even.
   */
  predicate Qualifies(location: Location): (r: bool)
    ensures location.openingHours.None? ==> !r
    ensures r <==>
      (exists k :: 0 <= k < |HoursOrEmpty(location)| && IsWeekendDay(HoursOrEmpty(location)[k].dayOfWeek)) &&
      (exists i, j :: IsFirstDigitRun(location.streetAddress, i, j) &&
         DigitValue(location.streetAddress[j - 1]) % 2 == 0)
  {
    OpenOnWeekends(HoursOrEmpty(location)) && AddressHasEvenNumber(location.streetAddress)
  }

  /** The records that are kept, in their original order. */
  function Kept(locations: seq<Location>): (r: seq<Location>)
    ensures |r| <= |locations|
  {
    if locations == [] then []
    else (if Qualifies(locations[0]) then [locations[0]] else []) + Kept(locations[1..])
  }

  /** Every kept record comes from the input and passes both rules. */
  lemma {:induction false} KeptSound(locations: seq<Location>, x: Location)
    requires x in Kept(locations)
    ensures x in locations && Qualifies(x)
  {
    if !Qualifies(locations[0]) || x != locations[0] {
      KeptSound(locations[1..], x);
    }
  }

  /** `a` can be obtained from `b` by deleting elements, keeping the order of the rest. */
  ghost predicate SubsequenceOf<T>(a: seq<T>, b: seq<T>)
    decreases |b|
  {
    if a == [] then true
    else if b == [] then false
    else (a[0] == b[0] && SubsequenceOf(a[1..], b[1..])) || SubsequenceOf(a, b[1..])
  }

  /** The filter preserves the relative order of the records it keeps. */
  lemma {:induction false} KeptIsSubsequence(locations: seq<Location>)
    ensures SubsequenceOf(Kept(locations), locations)
  {
    if locations != [] {
      var rest := Kept(locations[1..]);
      KeptIsSubsequence(locations[1..]);
      if Qualifies(locations[0]) {
        assert Kept(locations) == [locations[0]] + rest;
        assert Kept(locations)[1..] == rest;
      } else {
        assert Kept(locations) == rest;
      }
    }
  }

  /**
   * Every qualifying record is kept as often as it occurs, and no other
   * record is kept at all.
   */
  lemma {:induction false} KeptCounts(locations: seq<Location>, x: Location)
    ensures multiset(Kept(locations))[x] == if Qualifies(x) then multiset(locations)[x] else 0
  {
    if locations != [] {
      KeptCounts(locations[1..], x);
      assert locations == [locations[0]] + locations[1..];
    }
  }

  /** Filtering a concatenation filters each part. */
  lemma {:induction false} KeptAppend(a: seq<Location>, b: seq<Location>)
    ensures Kept(a + b) == Kept(a) + Kept(b)
  {
    if a != [] {
      assert (a + b)[1..] == a[1..] + b;
      KeptAppend(a[1..], b);
    } else {
      assert a + b == b;
    }
  }

  /** One iteration of the filter: the records from `i` on are the record at `i` and those after it. */
  lemma KeptStep(locations: seq<Location>, i: nat)
    requires i < |locations|
    ensures Kept(locations[i..]) ==
      (if Qualifies(locations[i]) then [locations[i]] else []) + Kept(locations[i + 1..])
  {
    assert locations[i..][1..] == locations[i + 1..];
  }

  /** The loop over the reply's records that appends each qualifying record to the kept list. */
  method FilterLocations(locations: seq<Location>) returns (filtered: seq<Location>)
    ensures filtered == Kept(locations)
  {
    filtered := [];
    for i := 0 to |locations|
      invariant filtered + Kept(locations[i..]) == Kept(locations)
    {
      var location := locations[i];
      var worksOnWeekends := LocationWorksOnWeekends(HoursOrEmpty(location));
      var hasEvenNumberInAddress := AddressHasEvenNumber(location.streetAddress);
      var keep := worksOnWeekends && hasEvenNumberInAddress;
      assert keep == Qualifies(location);
      KeptStep(locations, i);
      if keep {
        assert (filtered + [location]) + Kept(locations[i + 1..]) == filtered + Kept(locations[i..]);
        filtered := filtered + [location];
      }
    }
  }
}
