# Location finder form — Dafny model

This project models the logic of the location finder form of a Drupal site
(`LocationFinderForm`). A visitor submits a country code, a city and a postal
code. The form checks the three values, asks a remote location-lookup service
for matching locations, keeps the locations that are open on a weekend and
whose street address carries an even number. For a reply that reaches the
status test it shows either the kept locations, "No locations found that meet
the criteria." or "Error fetching data. Please try again later.". A reply with
status 400 or above never reaches that test (see "## Findings").

Layout:

- `php_bytes.dfy` (module `PhpBytes`): PHP strings as octet sequences, and the
  PCRE character classes `\d`, `[a-zA-Z]` and `\s`.
- `validation.dfy` (module `Validation`): the three field checks of
  `validateForm`, including the exact meaning of `/^[a-zA-Z\s]+$/`.
- `locations.dfy` (module `Locations`): the weekend rule, the even-number rule
  (first run of digits, its decimal value), the order-preserving filter and
  the three outcomes.
- `location_finder_form.dfy` (module `LocationFinderForm`): the form state
  as a class, and the two handlers `ValidateForm` and `SubmitForm`, which
  update it in place.
- `wrappers.dfy` (module `Wrappers`): an `Option` type.

Modelling decisions:

- PHP strings are byte strings. `strlen` counts octets, and `preg_match`
  without the `u` modifier matches octet by octet. So every text value is a
  `seq<byte>`. A non-ASCII character of two UTF-8 octets alone therefore
  passes the country-code check, as it does in PHP.
- The city pattern uses `\s`. In PCRE's default tables this class holds space,
  tab, line feed, vertical tab, form feed and carriage return, not only the
  space character. The model follows the code. The pattern's `$` may also
  match before a final line feed. `Validation.CityPatternIff` shows that this
  changes nothing, because a line feed is itself in `\s`.
- The framework's `setErrorByName` records an error only when the field has
  none yet. `FormState.SetErrorByName` does the same. The framework class is
  not part of this model beyond that behaviour.
- The reply of the lookup service is an input: a `Response` holding the HTTP
  status and the parsed `locations` records. A record whose `openingHours`
  member is absent has `openingHours == None`, which `?? []` turns into the
  empty list.
- The `yaml_output` slot holds an `Outcome`. For the results case that is the
  list of kept records rather than its YAML text. The two messages are the
  `NoMatches` and `UpstreamError` constructors.

## Model

| member | source | states |
|---|---|---|
| `Validation.InvalidFields` | web/modules/custom/location_finder/src/Form/LocationFinderForm.php:131-143 | Each field's error depends only on that field. The country code is flagged iff its byte length is not 2. The postal code is flagged iff its length is below 5 or above 9. The city is flagged iff it is empty or holds a byte outside `[a-zA-Z\s]`. The set is empty iff all three checks pass. |
| `Validation.CityPatternIff` | web/modules/custom/location_finder/src/Form/LocationFinderForm.php:139-142 | `/^[a-zA-Z\s]+$/` matches, with `$` allowed before a final line feed, iff the subject is non-empty and made only of ASCII letters and white space. |
| `Validation.CountryCodeIgnoresContent` | web/modules/custom/location_finder/src/Form/LocationFinderForm.php:133-135 | Replacing the country code by any two octets, digits included, clears only the country-code error and leaves the other fields' errors unchanged. |
| `Validation.ValidationExamples` | web/modules/custom/location_finder/tests/src/Functional/LocationLookupTest.php:74-99 | "DE"/"Bonn"/"53313" is valid. "GER" flags only the country code, "533" only the postal code, "Bonn123" only the city. |
| `LocationFinderForm.ValidateForm` | web/modules/custom/location_finder/src/Form/LocationFinderForm.php:131-143 | After validation the error bag's keys are the earlier keys plus exactly the invalid fields. Earlier errors are unchanged. Each newly flagged field carries its own message. |
| `LocationFinderForm.ValidateFreshForm` | web/modules/custom/location_finder/src/Form/LocationFinderForm.php:131-143 | On a form without earlier errors, errors are recorded for exactly the invalid fields, and the input is valid iff none is recorded. |
| `Locations.LocationWorksOnWeekends` | web/modules/custom/location_finder/src/Form/LocationFinderForm.php:218-227 | The search loop returns true iff some entry's `dayOfWeek` equals `http://schema.org/Saturday` or `http://schema.org/Sunday`. |
| `Locations.NoHoursNotOnWeekends` | web/modules/custom/location_finder/src/Form/LocationFinderForm.php:181 | A record without `openingHours`, and an empty list, are not open on weekends. |
| `Locations.FirstDigitFrom` | web/modules/custom/location_finder/src/Form/LocationFinderForm.php:240 | The result is the leftmost digit position at or after the start, or None iff no digit follows the start. |
| `Locations.RunEnd` | web/modules/custom/location_finder/src/Form/LocationFinderForm.php:240 | The greedy `\d+` run from a position ends at the first non-digit or at the end of the subject. |
| `Locations.FirstDigitRun` | web/modules/custom/location_finder/src/Form/LocationFinderForm.php:240 | `$matches[0]` is absent iff the address has no digit. Otherwise it is a non-empty all-digit slice that is the leftmost maximal run of digits. |
| `Locations.FirstDigitRunUnique` | web/modules/custom/location_finder/src/Form/LocationFinderForm.php:240 | The leftmost maximal run of digits is unique, so the characterisation above determines the match. |
| `Locations.DecimalValue` | web/modules/custom/location_finder/src/Form/LocationFinderForm.php:241 | The value of an n-digit run is below 10^n. |
| `Locations.DecimalValueParity` | web/modules/custom/location_finder/src/Form/LocationFinderForm.php:241-242 | The parity of the run's value is the parity of its last digit. |
| `Locations.LeadingZeroIgnored` | web/modules/custom/location_finder/src/Form/LocationFinderForm.php:241 | A leading zero does not change the value of the run. |
| `Locations.ShortRunFitsPhpInt` | web/modules/custom/location_finder/src/Form/LocationFinderForm.php:241 | A run of at most 18 digits has a value no larger than PHP's 64-bit `PHP_INT_MAX`, so the unbounded model agrees with the cast there. |
| `Locations.AddressHasEvenNumber` | web/modules/custom/location_finder/src/Form/LocationFinderForm.php:238-245 | The rule holds iff the address has a leftmost maximal run of digits whose last digit is even, so iff the value of its first digit run is even. It is false for an address without digits. |
| `Locations.EvenAddressExample` | web/modules/custom/location_finder/src/Form/LocationFinderForm.php:238-245 | "12 Main St" satisfies the even-number rule. |
| `Locations.OddAddressExample` | web/modules/custom/location_finder/src/Form/LocationFinderForm.php:238-245 | "13 Main St" does not satisfy the even-number rule. |
| `Locations.NoNumberAddressExample` | web/modules/custom/location_finder/src/Form/LocationFinderForm.php:238-245 | "Main St", which has no digit, does not satisfy the even-number rule. |
| `Locations.Kept` | web/modules/custom/location_finder/src/Form/LocationFinderForm.php:178-190 | The kept list is never longer than the input. |
| `Locations.KeptSound` | web/modules/custom/location_finder/src/Form/LocationFinderForm.php:186-189 | Every kept record comes from the reply, is open on a weekend and has an even address number. |
| `Locations.Qualifies` | web/modules/custom/location_finder/src/Form/LocationFinderForm.php:181-187 | A record is kept iff some opening-hours entry is a weekend URI, with absent hours read as none, and its address number is even. A record without opening hours is never kept. |
| `Locations.KeptIsSubsequence` | web/modules/custom/location_finder/src/Form/LocationFinderForm.php:178-190 | The kept records appear in the same relative order as in the reply. |
| `Locations.KeptCounts` | web/modules/custom/location_finder/src/Form/LocationFinderForm.php:178-190 | Each qualifying record is kept as many times as it occurs. No other record is kept. |
| `Locations.KeptAppend` | web/modules/custom/location_finder/src/Form/LocationFinderForm.php:179-190 | Filtering a concatenation of two record lists gives the concatenation of their filtered lists. |
| `Locations.FilterLocations` | web/modules/custom/location_finder/src/Form/LocationFinderForm.php:178-190 | The foreach loop that appends to `$filteredLocations` produces exactly `Kept` of the records. |
| `LocationFinderForm.SubmitForm` | web/modules/custom/location_finder/src/Form/LocationFinderForm.php:174-203 | A status other than 200 stores the error outcome, whatever the records. Status 200 with nothing kept stores "no matches". Status 200 with records kept stores exactly those records. The rebuild flag is set. |
| `LocationFinderForm.Lookup` | web/modules/custom/location_finder/src/Form/LocationFinderForm.php:174-203 | For a reply that reaches the status test, each of the three outcomes happens iff its own condition holds. The conditions are disjoint and cover every such reply, so exactly one outcome results. A results outcome is never empty. |
| `LocationFinderForm.SubmitFormAsWritten` | web/modules/custom/location_finder/src/Form/LocationFinderForm.php:160-206 | A reply with status 400 or above raises out of the handler and leaves the stored output and the rebuild flag untouched. Every other reply is handled as `SubmitForm` states. |
| `LocationFinderForm.ServerErrorShowsNothing` | web/modules/custom/location_finder/src/Form/LocationFinderForm.php:160-202 | On a fresh form, a status-500 reply raises and nothing is stored for display. |
| `LocationFinderForm.ServerErrorReported` | web/modules/custom/location_finder/src/Form/LocationFinderForm.php:201-202 | Once every reply reaches the status test, a status-500 reply shows the error outcome. |

## Findings

| source | as written | input that shows it | evidently intended | confidence | as-written member | corrected member |
|---|---|---|---|---|---|---|
| web/modules/custom/location_finder/src/Form/LocationFinderForm.php:160-202 | The GET uses the HTTP client's default options, which raise an exception for status 400 and above. The `else` branch that stores "Error fetching data" is then reached only for non-200 statuses below 400. | A reply with status 500: the handler raises, nothing is stored and no rebuild happens. | Every non-200 reply, 500 included, shows "Error fetching data. Please try again later." | medium, not executed; relies on the client library's documented default | `LocationFinderForm.SubmitFormAsWritten`, `LocationFinderForm.ServerErrorShowsNothing` | `LocationFinderForm.Lookup`, `LocationFinderForm.ServerErrorReported` |

## Left out

- The HTTP GET, its query parameters and the credential header (LocationFinderForm.php:155-172): network I/O through the Guzzle client. The reply enters as a `Response` value. With the client's default options, Guzzle raises an exception for every reply with status 400 or above, and for transport failures such as a refused connection or a timeout. The exception leaves `submitForm` before the status test at :174, so nothing is stored and `setRebuild` at :206 does not run. `SubmitForm` and `Lookup` therefore describe only replies that reach the status test: status 200, and the non-200 statuses below 400 that the client returns. `SubmitFormAsWritten` models the raising for status 400 and above. `LocationFinderForm.Send` encodes this client default by definition. Transport failures are not modelled.
- `json_decode` and `Yaml::encode`: foreign serialisers. The records enter already parsed, and the results outcome carries the records instead of YAML text.
- A reply without a `locations` member, or a record without `place.address.streetAddress`: the PHP code does not guard these, so the model takes them as present by construction of `Response` and `Location`. PHP itself does not fail on them. A body that is not JSON, or one without `locations`, makes the `foreach` at :179 run over null; that only raises a warning, so the outcome is "No locations found" (:192-199). A missing `streetAddress` gives `preg_match` a null subject, which has no match, so the record is dropped (:184, :240-244).
- The other members of a location record and of an opening-hours entry (names, opening and closing times, coordinates and so on): `Location` holds only `openingHours[].dayOfWeek` and `place.address.streetAddress`, the only members the filter reads. In the source the kept records are the whole decoded arrays (:188), and all their members are YAML-encoded (:194). `Results` and `SubmitForm`'s "exactly those records" therefore speak of the records cut down to these two members.
- Non-string `dayOfWeek` values: `in_array` compares loosely, so for example a JSON `true` would match a weekend URI in PHP. The model types `dayOfWeek` as a string, and for strings the comparison is exact.
- Locations.AddressHasEvenNumber: uses the unbounded value of the digit run. PHP's `(int)` cast saturates at `PHP_INT_MAX` (an odd number) for runs beyond 64 bits. `Locations.ShortRunFitsPhpInt` bounds where the two agree.
- The form lifecycle: `buildForm`, `ajaxSubmitCallback`, `create` and the constructor, `getFormId`, translated strings. This is framework plumbing with no logic of its own.
- The framework's required-field checks, which run before `validateForm` and may already have put an error in the bag: the model takes the bag as given, and `ValidateForm` leaves existing entries alone.
- The settings form (LocationFinderSettingsForm.php): it stores three configuration strings and has no logic to model.
