# Credential verification core, modelled in Dafny

The system verifies contractors' credentials against government registry
websites. The model covers three parts of it.

- **North Carolina adapter** (`NorthCarolina`). It models the NCLBGC board. A lookup makes three requests:
  - a search by account number, after the `L`/`l`/`.` prefix is stripped;
  - the account detail page for the opaque key taken from the `ShowAccountDetails('…')` call in the search answer;
  - the public-matters page, which is best-effort.

  The adapter parses the detail page into a label → value dictionary plus a list of classifications. It normalises the free-text status with an ordered four-way rule. It also does a name search over table rows.
- **Virginia adapter** (`Virginia`). It models the DPOR. A lookup is one request. The answer has a details tab, whose `<strong>` labels are read into a dictionary, or it fails with the alert text or a generic message. The status is taken verbatim, and is `ACTIVE` when absent. A name search reads a results table.
- **Verification engine** (`Engine`). A `Store` class holds the providers, licenses, insurance, bond and verification-log tables.
  - `VerifyLicense` looks the license up and rewrites its snapshot columns on success. Either way it appends one log entry.
  - The insurance and bond checks classify the stored `YYYY-MM-DD` expiry against today and append one log entry.
  - `VerifyProvider` runs the three checks.
  - `VerifyAll` runs every provider. It catches a provider's failure and keeps going.

Supporting modules:
- `Common`: `Option`, and a `Fetch` outcome, `Ok(body) | Err(message)`, that stands for one HTTP request.
- `Text`: the Python string semantics the code relies on: `isspace`, `strip`, `upper`, `in`, `<` on strings, `[:n]` and `join`.
- `Fields`: filling a dictionary from label/value pairs, where the last one wins.
- `Canonical`: the lookup-result record shared by both adapters.
- `Dates`: proves that on `YYYY-MM-DD` texts, the string `<` the engine uses is calendar order.

How the model is built:
- HTTP requests and HTML parsing are inputs. Each adapter takes a `Registry` value of functions, one per endpoint, plus the parser, which yields the parsed shapes.
- The loops of the source are methods: the detail parse, the field map and the search scans. Each is proved equal to a pure function, and the properties are lemmas about those functions.
- Each engine method is specified by a pure step function on the store's contents (`Tables`).

Three behaviours of the code worth knowing:
- The engine always calls the Virginia lookup, whatever the license's `state` column says (`src/verification/engine.py:7,21`).
- The insurance and bond checks never write the records' `verified` flag. They only append to the log.
- The Virginia status is not normalised. It is the `Status` text verbatim, or `ACTIVE` when there is none.

## Model

| member | source | states |
|---|---|---|
| `Text.Strip` | src/verification/north_carolina_nclbgc.py:132 | `str.strip()`: the result has no surrounding whitespace (Python's `isspace` set), is no longer than the input, and an already stripped text is unchanged |
| `Text.StripBlank` | src/verification/north_carolina_nclbgc.py:132 | a text strips to "" exactly when it is all whitespace |
| `Text.StripIsCore` | src/verification/north_carolina_nclbgc.py:132 | the result is one contiguous part of the input, with only whitespace before and after it |
| `Text.StripPadded` | src/verification/north_carolina_nclbgc.py:132 | stripping removes exactly the whitespace padding around a stripped, non-empty text |
| `Text.Upper` | src/verification/north_carolina_nclbgc.py:140 | `str.upper()`: each character is upper-cased in place (`a`–`z` to `A`–`Z`, every other character kept), so the length is kept, no lower-case letter is left and a text without lower-case letters is unchanged |
| `Text.UpperKeepsStripped` | src/verification/north_carolina_nclbgc.py:140 | upper-casing a stripped text leaves it stripped |
| `Text.ContainsAt` | src/verification/north_carolina_nclbgc.py:133-137 | an occurrence of the pattern at any offset makes `p in s` true |
| `Text.Contains` | src/verification/north_carolina_nclbgc.py:133-137 | Python's `p in s`: the empty pattern is in every text, and a pattern longer than the text never is |
| `Text.ContainsIffOccurs` | src/verification/north_carolina_nclbgc.py:133-137 | `p in s` holds exactly when `p` occurs at some offset of `s` (both directions) |
| `Text.ContainsChar` | src/verification/north_carolina_nclbgc.py:133-137 | every character of a pattern that is `in` a text occurs in that text |
| `Text.NoLowerExcludes` | src/verification/north_carolina_nclbgc.py:133-137 | a pattern containing a lower-case letter never occurs in an upper-case text |
| `Text.LexLessAsymmetric` | src/verification/engine.py:64 | string `<` is irreflexive and asymmetric |
| `Text.LexLess` | src/verification/engine.py:64 | Python's `<` on strings: a text is never less than itself, and a proper prefix is less than the longer text |
| `Text.SliceTo` | src/verification/north_carolina_nclbgc.py:208 | `rows[:limit]` is a prefix of length `min(limit, len)`, and for a negative limit `len + limit` clamped at 0 |
| `Text.Join` | src/verification/north_carolina_nclbgc.py:168 | `", ".join(parts)`: empty for no parts, the part itself for one part, starts with the first part, and its length is the parts' lengths plus one separator between each pair |
| `Text.JoinAppend` | src/verification/north_carolina_nclbgc.py:168 | joining one more part appends the separator and that part, so the parts and separators alternate in order |
| `Fields.FilledIffAssigned` | src/verification/north_carolina_nclbgc.py:44-52 | a label is in the dictionary iff some label/value pair assigns it |
| `Fields.LastAssignmentWins` | src/verification/north_carolina_nclbgc.py:44-52 | a label's value is the one given by the last pair that assigns it (a later duplicate overwrites an earlier one) |
| `Fields.FillOtherKey` | src/verification/north_carolina_nclbgc.py:44-52 | a pair that does not assign `k` leaves `k`'s membership and value as they were |
| `Canonical.RawExcerpt` | src/verification/virginia_dpor.py:83 | `text[:5000]`: a prefix of the body, the whole body when it has at most 5000 characters and exactly the first 5000 otherwise |
| `NorthCarolina.StripPrefix` | src/verification/north_carolina_nclbgc.py:72 | `lstrip("Ll.")`: the result is a suffix of the input that does not begin with `L`, `l` or `.`, and every removed character is one of them |
| `NorthCarolina.StripPrefixIdempotent` | src/verification/north_carolina_nclbgc.py:72 | stripping a second time removes nothing more |
| `NorthCarolina.SkipSpaces` | src/verification/north_carolina_nclbgc.py:100 | `\s*` consumes a maximal run of whitespace |
| `NorthCarolina.QuoteFrom` | src/verification/north_carolina_nclbgc.py:100 | `[^']+` runs up to the first quote |
| `NorthCarolina.MatchAt` | src/verification/north_carolina_nclbgc.py:100 | a match at an offset starts with `ShowAccountDetails(` and its group is non-empty and quote-free (where the group lies is `MatchAtArgument`) |
| `NorthCarolina.MatchAtArgument` | src/verification/north_carolina_nclbgc.py:100 | the group of a match is exactly the text between the quote that follows the marker's whitespace and the next quote; without a match, the marker is not followed by a quote, its argument is empty (`''`), or no closing quote follows |
| `NorthCarolina.UnquotedCallDoesNotMatch` | src/verification/north_carolina_nclbgc.py:100 | a marker followed directly by a character that is neither whitespace nor a quote, as in `ShowAccountDetails(x)`, does not match |
| `NorthCarolina.KeyFrom` | src/verification/north_carolina_nclbgc.py:100-104 | `re.search` yields the group of the leftmost match, and no key exactly when no offset matches |
| `NorthCarolina.ExtractKey` | src/verification/north_carolina_nclbgc.py:99-104 | an extracted key is non-empty and contains no quote |
| `NorthCarolina.NoMarkerNoKey` | src/verification/north_carolina_nclbgc.py:100-104 | an answer without the text `ShowAccountDetails(` yields no key |
| `NorthCarolina.SkipSpacesTo` | src/verification/north_carolina_nclbgc.py:100 | a whitespace run ending before a non-space is exactly what `\s*` consumes |
| `NorthCarolina.QuoteFromTo` | src/verification/north_carolina_nclbgc.py:100 | the first quote after a quote-free stretch is where `[^']+` stops |
| `NorthCarolina.MatchAtQuotes` | src/verification/north_carolina_nclbgc.py:100 | with the marker, opening and closing quotes at given places, the group is the text between the quotes |
| `NorthCarolina.MatchAtCall` | src/verification/north_carolina_nclbgc.py:100 | a written call `ShowAccountDetails(<spaces>'<key>'` matches at its offset with group `key` |
| `NorthCarolina.LeftmostMatch` | src/verification/north_carolina_nclbgc.py:100-102 | a match with none before it is the one `re.search` returns |
| `NorthCarolina.NoMatchInPrefix` | src/verification/north_carolina_nclbgc.py:100 | no match starts inside a prefix without the letter `S` |
| `NorthCarolina.KeyRoundTrip` | src/verification/north_carolina_nclbgc.py:99-104 | a key written into a `ShowAccountDetails('<key>')` call, with any whitespace before the quote and anything after, is the key extracted back |
| `NorthCarolina.EncryptedKey` | src/verification/north_carolina_nclbgc.py:69-104 | `_get_encrypted_key`: searches by the stripped account number; a failed search gives no key, a successful one gives the key extracted from its answer, and a key is non-empty and quote-free |
| `NorthCarolina.StrippedStrings` | src/verification/north_carolina_nclbgc.py:62-63 | `stripped_strings`: every kept text is non-empty and stripped, and there are no more of them than text nodes |
| `NorthCarolina.StrippedStringsAppend` | src/verification/north_carolina_nclbgc.py:62-63 | the stripped strings of consecutive runs of text nodes follow each other, so document order is kept |
| `NorthCarolina.StrippedStringsSound` | src/verification/north_carolina_nclbgc.py:62-63 | every kept text is what some text node strips to |
| `NorthCarolina.StrippedStringsComplete` | src/verification/north_carolina_nclbgc.py:62-63 | every text node that does not strip to "" gives a kept text |
| `NorthCarolina.StrippedStringsMember` | src/verification/north_carolina_nclbgc.py:62-63 | a text is among the stripped strings iff it is non-empty and some text node strips to it |
| `NorthCarolina.IsClassificationGroup` | src/verification/north_carolina_nclbgc.py:57-58 | a fieldset counts only when it has a legend long enough to hold "Classification", and every legend starting with "Classification" counts |
| `NorthCarolina.Classifications` | src/verification/north_carolina_nclbgc.py:54-63 | every classification is a non-empty stripped text, and a single fieldset contributes the stripped strings of its field exactly when it is a classification group with a field |
| `NorthCarolina.ClassificationsAppend` | src/verification/north_carolina_nclbgc.py:56-63 | the classifications of consecutive fieldsets follow each other, so document order is kept |
| `NorthCarolina.ClassificationMember` | src/verification/north_carolina_nclbgc.py:54-63 | a text is a classification iff some classification group with a field has a text node that strips to it |
| `NorthCarolina.CollectClassifications` | src/verification/north_carolina_nclbgc.py:55-63 | the fieldset loop collects exactly the classifications of the fieldsets, in document order |
| `NorthCarolina.ParseDetail` | src/verification/north_carolina_nclbgc.py:39-66 | the two loops of `_parse_detail_html` compute the label dictionary (without the `_classifications` key) and the classifications of the "Classification" fieldsets in document order |
| `NorthCarolina.Parsed` | src/verification/north_carolina_nclbgc.py:39-66 | the text fields are the label dictionary without the `_classifications` key, whose place the classification list takes |
| `NorthCarolina.ParsedFieldIsLastLabel` | src/verification/north_carolina_nclbgc.py:44-52 | a parsed field is present iff some label has a value div, and holds the value of the last such label |
| `NorthCarolina.NormalizeStatus` | src/verification/north_carolina_nclbgc.py:131-140 | the status is never empty and has no lower-case letter |
| `NorthCarolina.NormalizeStatusRule` | src/verification/north_carolina_nclbgc.py:131-140 | on the stripped text, in order: contains "License Not Valid" → INACTIVE, else contains "Archived" → ARCHIVED, else empty or contains "Active" → ACTIVE, else the stripped text upper-cased |
| `NorthCarolina.CanonicalStatusIsFixed` | src/verification/north_carolina_nclbgc.py:131-140 | a non-empty, stripped, upper-case status is kept as it is |
| `NorthCarolina.NormalizeStatusIdempotent` | src/verification/north_carolina_nclbgc.py:131-140 | normalising a normalised status changes nothing |
| `NorthCarolina.ArchivedExample` | src/verification/north_carolina_nclbgc.py:135-136 | "Archived" reads ARCHIVED |
| `NorthCarolina.NotValidReadsInactive` | src/verification/north_carolina_nclbgc.py:133-134 | a status beginning "License Not Valid" (e.g. "License Not Valid - Revoked") reads INACTIVE |
| `NorthCarolina.PaddedActiveReadsActive` | src/verification/north_carolina_nclbgc.py:132-138 | "Active" with any whitespace around it reads ACTIVE |
| `NorthCarolina.MissingStatusReadsActive` | src/verification/north_carolina_nclbgc.py:131-138 | any detail page without a Status label reads ACTIVE |
| `NorthCarolina.Violations` | src/verification/north_carolina_nclbgc.py:142-155 | violations are present iff the matters request succeeded with a non-blank page, and are then the stripped page; a failed request is swallowed |
| `NorthCarolina.Assemble` | src/verification/north_carolina_nclbgc.py:157-172 | success record: license number from `License #` falling back to the input, holder, class, expiration, first-issued date, firm type and address from their labels, normalised status, specialties the classifications joined by ", " and absent iff there are none, raw HTML exactly the first 5000 characters of the detail body (`RawExcerpt`) |
| `NorthCarolina.DetailStep` | src/verification/north_carolina_nclbgc.py:116-172 | once a key exists: a failed detail request is a failure with its error text and no matters request; otherwise the matters page is requested and the result assembled |
| `NorthCarolina.Lookup` | src/verification/north_carolina_nclbgc.py:107-172 | the search request comes first; no key gives "License not found" after that one request; a failure always echoes the license number |
| `NorthCarolina.LookupSucceedsIff` | src/verification/north_carolina_nclbgc.py:112-129 | a lookup succeeds iff the search yields a key and the detail request succeeds |
| `NorthCarolina.NoKeyNoFurtherRequests` | src/verification/north_carolina_nclbgc.py:112-114 | a search answer without `ShowAccountDetails(` ends the lookup with "License not found" and no detail or matters request |
| `NorthCarolina.MattersNeverDecide` | src/verification/north_carolina_nclbgc.py:142-155 | whatever the matters endpoint answers, the lookup makes the same requests and gives the same result up to the violations text |
| `NorthCarolina.HitOf` | src/verification/north_carolina_nclbgc.py:211-218 | the license number is the first cell's link text when there is a link, else the cell's text; the name is cell 2 and the license type cell 1; no address; board "NCLBGC" |
| `NorthCarolina.Hits` | src/verification/north_carolina_nclbgc.py:208-218 | no more hits than rows, each with board "NCLBGC" |
| `NorthCarolina.HitsAppend` | src/verification/north_carolina_nclbgc.py:208-218 | the hits of consecutive runs of rows follow each other, so row order is kept |
| `NorthCarolina.HitsComeFromRows` | src/verification/north_carolina_nclbgc.py:209-218 | every hit is read from a row with at least three cells |
| `NorthCarolina.FullRowsAreKept` | src/verification/north_carolina_nclbgc.py:208-218 | a row with at least three cells gives its hit between those of the rows before and after it, and a shorter row gives none |
| `NorthCarolina.Search` | src/verification/north_carolina_nclbgc.py:175-220 | a failed request gives no hits; otherwise the hits of the first `limit` rows, so at most `limit` of them, all with board "NCLBGC" |
| `Virginia.EntryOf` | src/verification/virginia_dpor.py:60-67 | a label assigns its sibling's text, and nothing when it has no parent div or no sibling div |
| `Virginia.Entries` | src/verification/virginia_dpor.py:59-67 | one assignment per label, in document order |
| `Virginia.CollectFields` | src/verification/virginia_dpor.py:57-67 | the loop fills exactly the field map of the labels |
| `Virginia.FieldMap` | src/verification/virginia_dpor.py:57-67 | every entry of the `fields` dictionary is the text of some label's sibling div |
| `Virginia.FieldIsLastLabel` | src/verification/virginia_dpor.py:57-67 | a field is present iff some label of that text has a sibling div, and holds the text of the last such sibling |
| `Virginia.Status` | src/verification/virginia_dpor.py:69-70 | the `Status` text verbatim when present, "ACTIVE" otherwise |
| `Virginia.Assemble` | src/verification/virginia_dpor.py:72-84 | success record: echoes the license number, fields from their labels, no violations, raw HTML exactly the first 5000 characters of the body (`RawExcerpt`) |
| `Virginia.Lookup` | src/verification/virginia_dpor.py:30-84 | a failed request is a failure with its error text; no details tab is a failure with the alert text or "License not found or invalid response"; otherwise the assembled record; every result echoes the license number |
| `Virginia.LookupSucceedsIff` | src/verification/virginia_dpor.py:35-55 | a lookup succeeds iff the request succeeds and the answer has the details tab |
| `Virginia.MissingStatusIsActive` | src/verification/virginia_dpor.py:69-70 | a details tab without a Status label gives status ACTIVE |
| `Virginia.RowsOf` | src/verification/virginia_dpor.py:110-112 | the rows of the `<tbody>`, or of the whole table when it has none |
| `Virginia.HitOf` | src/verification/virginia_dpor.py:116-124 | the license number is the `license-number` input's value when there is one, else the first cell's text; name from cell 1, address from cell 2, license type from cell 3 and board from cell 4 |
| `Virginia.Hits` | src/verification/virginia_dpor.py:113-124 | no more hits than rows |
| `Virginia.HitsAppend` | src/verification/virginia_dpor.py:113-124 | the hits of consecutive runs of rows follow each other, so row order is kept |
| `Virginia.HitsComeFromRows` | src/verification/virginia_dpor.py:114-124 | every hit is read from a row with at least five cells |
| `Virginia.FullRowsAreKept` | src/verification/virginia_dpor.py:113-124 | a row with at least five cells gives its hit between those of the rows before and after it, and a shorter row gives none |
| `Virginia.Search` | src/verification/virginia_dpor.py:87-125 | no hits on a failed request or without the results table; otherwise the hits of the first `limit` rows, so at most `limit` of them |
| `Dates.Weight` | src/verification/engine.py:64 | a digit's value, at most 9 |
| `Dates.NumeralBound` | src/verification/engine.py:64 | a numeral of `n` digits is below `10^n` |
| `Dates.LexLessIsNumeric` | src/verification/engine.py:64 | on equal-length texts aligned digit for digit, string `<` is numeric `<` |
| `Dates.DateNumeral` | src/verification/engine.py:64 | a `YYYY-MM-DD` text reads as the number with year, month and day in separate decimal places |
| `Dates.IsoDateOrder` | src/verification/engine.py:63-64 | on `YYYY-MM-DD` texts, string `<` is the (year, month, day) calendar order |
| `Engine.FirstOwned` | src/verification/engine.py:17 | `fetchone()`: the first row owned by the provider, or none when no row is |
| `Engine.Refreshed` | src/verification/engine.py:24-37 | status, class, expiration, holder, firm type, specialties, address and raw response come from the result, `last_verified_at` is now, and id, provider, number, state and initial date are kept |
| `Engine.RefreshById` | src/verification/engine.py:25-37 | `UPDATE … WHERE id = ?` refreshes the rows with that id and keeps every other row |
| `Engine.LicenseDetail` | src/verification/engine.py:46 | `str(status or error)`: the status of a success, the error text of a failure, and empty text for a success with an empty status (a success has no error) |
| `Engine.LicenseEntry` | src/verification/engine.py:39-48 | a `license` entry stamped now, with result "verified" iff the lookup succeeded and "failed" iff it failed |
| `Engine.LicenseStep` | src/verification/engine.py:13-52 | no license row: "No license on file", nothing changed; otherwise exactly one log entry appended, rows unchanged on a failed lookup and refreshed on success |
| `Engine.Store.VerifyLicense` | src/verification/engine.py:13-52 | the store afterwards and the report are those of `LicenseStep` |
| `Engine.NoDateIsValid` | src/verification/engine.py:64-65 | a missing or empty expiry date is valid |
| `Engine.Expired` | src/verification/engine.py:64 | `expiration_date and expiration_date < now`: an expired record has a non-empty date that is not today's, so a record expiring today is still valid |
| `Engine.ExpiredMeansBeforeToday` | src/verification/engine.py:63-65 | on `YYYY-MM-DD` dates, expired iff the date lies before today |
| `Engine.ExpiredExample` | src/verification/engine.py:63-65 | a record that expired on 2020-01-01 is expired on any later day |
| `Engine.ExpiryDetail` | src/verification/engine.py:70 | the detail is "Expires: " and the date, or "Expires: None" |
| `Engine.ExpiryCheck` | src/verification/engine.py:59-72 | no record: the failure message and nothing logged; otherwise one entry with the kind, "expired" or "valid", and the detail, and the classification returned |
| `Engine.InsuranceStep` | src/verification/engine.py:55-74 | reads the first `insurance_records` row of the provider through `ExpiryCheck`: "No insurance on file" with nothing logged, or one `insurance` log entry and its classification; only the log changes, so the insurance record, including its verified flag, is untouched |
| `Engine.BondStep` | src/verification/engine.py:77-96 | reads the first `bond_records` row of the provider through `ExpiryCheck`: "No bond on file" with nothing logged, or one `bond` log entry and its classification; only the log changes, so the bond record, including its verified flag, is untouched |
| `Engine.Store.CheckInsuranceExpiry` | src/verification/engine.py:55-74 | the store afterwards and the report are those of `InsuranceStep` |
| `Engine.Store.CheckBondExpiry` | src/verification/engine.py:77-96 | the store afterwards and the report are those of `BondStep` |
| `Engine.Store.VerifyProvider` | src/verification/engine.py:99-106 | the license, insurance and bond checks run in that order, each on the store the previous one left |
| `Engine.ProviderRun` | src/verification/engine.py:115-122 | the entry names the provider and carries an error exactly when a fault escaped, with the fault's text; without a fault it holds the three reports of the license, insurance and bond checks run in order, and the store is the one the bond check leaves; with a fault, the store is the one before the faulting check |
| `Engine.Store.RunProvider` | src/verification/engine.py:117-122 | the store afterwards and the entry are those of `ProviderRun` |
| `Engine.Batch` | src/verification/engine.py:113-123 | one entry per provider |
| `Engine.Store.VerifyAll` | src/verification/engine.py:109-125 | the loop over the providers gives the store and entries of `Batch` |
| `Engine.LicenseStepKeepsKeys` | src/verification/engine.py:24-48 | a license check keeps the other tables and every license row's key columns, and appends at most one log entry |
| `Engine.ExpiryStepsKeepKeys` | src/verification/engine.py:67-94 | the expiry checks change nothing but the log, and append at most one entry |
| `Engine.ProviderRunKeepsKeys` | src/verification/engine.py:99-122 | a provider's run keeps the keys, fault or no fault |
| `Engine.BatchKeepsKeys` | src/verification/engine.py:109-125 | a batch keeps the providers, insurance and bond tables, every license row's key columns, and the log written before it as a prefix |
| `Engine.KeysKeptTransitive` | src/verification/engine.py:99-106 | keeping the keys composes across consecutive checks |
| `Engine.KeysKeptUnique` | src/database.py:35-36 | keeping the keys keeps license ids unique |
| `Engine.OnlyTheFirstRowChanges` | src/verification/engine.py:17-37 | with unique ids, a license check rewrites only the provider's first license row, and only on success |
| `Engine.RefreshIdempotent` | src/verification/engine.py:24-37 | refreshing twice with the same result and time is refreshing once |
| `Engine.BatchOnePerProvider` | src/verification/engine.py:113-123 | one entry per provider in provider order, naming it, with an error exactly when a fault escaped that provider's run |
| `Engine.BatchEntryIsRun` | src/verification/engine.py:115-122 | each entry is that provider's own run on the store the earlier providers left, so a fault never stops the later providers |

## Left out

- HTTP (`requests`), timeouts and headers are out. Each request is a `Fetch` outcome supplied by the `Registry`. `raise_for_status` failures and exceptions are its `Err` text.
- HTML parsing (BeautifulSoup) is out. Parsed pages are the datatypes `DetailPage`, `Page` and rows of `Cell`, produced by the registry's parser function.
  - Text extraction (`get_text(strip=True)`, `get_text(" ", strip=True)`) happens inside that parser.
  - `stripped_strings` is modelled over the fieldset's text nodes.
- The database is out: SQLite, connections, commits and the `src/database.py` schema. The store holds the columns the engine reads or writes. Insurance and bond carrier, policy/bond number and amount are left out because no check reads them.
- The clock is a parameter. `now` (the `isoformat()` timestamp) and `today` (the `%Y-%m-%d` date) are passed in and are fixed for a whole batch.
  - The insurance and bond log entries take the database's `datetime('now')` default, which the model records only as `DatabaseDefault`.
- Logging is out.
- `Engine.ProviderRun`: which exceptions `verify_provider` can raise is not modelled. A fault is an input naming the check it escapes from and its text. That check's uncommitted changes are discarded, and the later checks of that provider do not run.
- Per-jurisdiction dispatch is not modelled, because the code has none. `verify_license` always calls the Virginia lookup, and `STATE_SCRAPERS` is not part of this model.
- `Text.Upper`: only ASCII letters are upper-cased. Python's `str.upper` also maps non-ASCII letters, and some of them change length (`ß` → `SS`).
- `Virginia.HitOf`: a `license-number` input without a `value` attribute raises `KeyError` in the source. The model's cell holds the input's value whenever the input exists.
- `NorthCarolina.KeyRoundTrip`: the round trip is stated for answers whose text before the call has no `S`, so no earlier match can start there. The general leftmost-match rule is what `NorthCarolina.KeyFrom` states.
- `urllib.parse` is out. The NC key is used in URLs exactly as extracted, and the trace records it as such.
