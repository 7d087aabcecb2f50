# CLABE validator: a Dafny model

This project models `clabe.validator.check` from `clabe.js`. The function
validates a Mexican CLABE (Clave Bancaria Estandarizada) bank account number.
A CLABE number is 18 characters long:

- characters 0-2 are the bank code;
- characters 3-5 are the city (clearing-house) code;
- characters 6-16 are the account number;
- character 17 is a check digit.

`check` works in five steps:

1. It reads the bank code, the city code and the supplied check digit.
2. The first time it runs, it builds the city index. The index maps each
   city code to the names listed under that code, joined by `", "`.
3. It recomputes the check digit. Weights 3, 7, 1 repeat over the first 17
   digits, each product is reduced modulo 10, and the check digit is
   `(10 - sum % 10) % 10`.
4. It runs the error checks in a fixed order: length, digits only, checksum,
   bank, city. The first check that fails gives the message.
5. If every check passes, it returns `"Valid: <bank> (<cities>)"`.

The model also covers `clabe.calculate(bank, city, account)` from the
packaged library. Its implementation is not part of the repository files
modelled here. It is modelled only as far as its declaration and its tests
describe it: zero-pad the three fields to 3, 3 and 11 digits, append the
check digit, and the result validates.

Files and modules:

- `wrappers.dfy`, module `Wrappers`: `Option`, which stands for a lookup
  that may give `undefined`.
- `decimal.dfy`, module `Decimal`: digit characters, `parseInt` on digit
  strings, zero-padded rendering, and the unanchored regular expression
  `/[0-9]{n}/`.
- `checksum.dfy`, module `Checksum`: the check digit, the loop of
  `calcCheckSum`, and what the check digit guarantees.
- `city_index.dfy`, module `CityIndex`: `makeCityMap` as a fold over the city
  list, plus an independent description of the index it builds.
- `validator.dfy`, module `Validator`:
  - the error chain `getErrorMessage` and the returned message, as functions;
  - the class `ClabeValidator`, which holds the bank table, the city list and
    the lazily built city index `clabe.city`;
  - `MakeCityMap` and `Check`, the class's imperative methods.
- `calculator.dfy`, module `Calculator`: `calculate` and its round trip
  through the validator.
- `test_vectors.dfy`, module `TestVectors`: sample numbers from the test
  suites, checked against the model.

The bank table `clabe.bank` and the city list `clabe.cities` are static data
that is not part of this model. They are parameters: a `map<int, string>`
from bank code to bank name, and a `seq<(int, string)>` of (city code, city
name) entries in list order.

JavaScript truthiness is modelled explicitly:

- A bank or city lookup fails when the entry is missing or is the empty
  string (`Truthy`).
- `prefix` in `makeCityMap` treats an empty stored value like a missing one.
  As a result, empty names at the front of a code's list leave no separator
  behind (`CityIndex.DropLeadingEmpty`).

Three points about `check` in clabe.js shape the model:

- `check` returns one message string.
- `check` rejects a bank code whose name is missing or empty.
- `check` builds the city index lazily, the first time it runs, and never
  rebuilds it. `ClabeValidator.Valid()` states that an index, once set, is
  the grouping of the city list.

## Model

| member | source | states |
|---|---|---|
| Decimal.DigitValue | clabe.js:25 | `parseInt` of one digit character is a value below 10 |
| Decimal.ParseDecimal | clabe.js:20-21 | `parseInt` on a digit string: a code of n digits parses to a value below 10^n, so bank and city codes are below 1000 |
| Decimal.HasDigitRun | clabe.js:33 | the unanchored regular-expression test `/[0-9]{n}/`: some window of n consecutive characters is all digits |
| Decimal.LeadingZeroIgnored | clabe.js:20-21 | `parseInt` ignores leading zeros: prefixing "0" does not change the parsed value |
| Decimal.Digits | spec/package.spec.js:79 | zero-padded rendering to a fixed width always yields exactly that many digit characters; it keeps only the lowest `width` digits, which equals `padStart` for numbers below 10^width, the only ones it is applied to |
| Decimal.ParseDigits | spec/package.spec.js:79-80 | parsing the zero-padded rendering of a number below 10^width gives the number back |
| Decimal.DigitsOfParse | clabe.js:20-21 | padding a parsed digit string back to its own width restores the string, so parse and pad are inverse |
| Decimal.DigitRunOfFullLength | clabe.js:32-33 | for a string of exactly n characters the unanchored test `/[0-9]{n}/` holds iff every character is a digit |
| Checksum.Weight | clabe.js:24-25 | the weight of every position is 3, 7 or 1 |
| Checksum.Term | clabe.js:25 | the term added for one digit, `(digit * weights[i % 3]) % 10`, is below 10 |
| Checksum.WeightedSum | clabe.js:23-26 | the sum the loop accumulates over the digits in order; it is at most 9 per digit |
| Checksum.Head17 | clabe.js:26 | `split('').slice(0, 17)`: at most 17 characters, and a prefix of the input |
| Checksum.CheckDigit | clabe.js:27 | the check digit `(10 - sum % 10) % 10` of the first 17 characters is below 10 |
| Checksum.CalcCheckSum | clabe.js:22-28 | the loop that adds `(digit * weights[i % 3]) % 10` for each of the first 17 characters returns the check digit `(10 - sum % 10) % 10` of those characters |
| Checksum.CheckDigitCompletesSum | clabe.js:27 | the check digit is in 0..9 and is the unique digit that brings the weighted sum to a multiple of ten; a sum that is already a multiple of ten gives 0, not 10 |
| Checksum.ReducedSumAgrees | clabe.js:25 | reducing each product modulo 10 leaves the sum unchanged modulo 10, compared with the plain weighted sum |
| Checksum.CheckDigitCompletesRawSum | clabe.js:22-28 | the check digit also completes the plain (unreduced) weighted sum of the first 17 digits to a multiple of ten |
| Checksum.ReadsOnlyFirst17 | clabe.js:26 | strings that agree on their first 17 characters have the same check digit |
| Checksum.WeightPeriodic | clabe.js:24-25 | the weight repeats with period 3 |
| Checksum.WeightedSumConcat | clabe.js:24-25 | the weighted sum splits additively at any boundary that is a multiple of 3, such as the field boundaries |
| Checksum.FieldSums | clabe.js:22-28 | the weighted sum of the first 17 digits is the sum over the bank code, the city code and the account number taken separately |
| Checksum.WeightedSumStep | clabe.js:25-26 | visiting one more character adds exactly its term to the sum |
| Checksum.WeightedSum17 | clabe.js:22-26 | the sum of 17 digits written out term by term with weights 3, 7, 1, 3, 7, 1, ... |
| Checksum.TermDeterminesDigit | clabe.js:25 | each weight is invertible modulo 10, so a term determines its digit |
| Checksum.TermInjective | clabe.js:25 | distinct digits at the same position give distinct terms |
| Checksum.SumDifference | clabe.js:25-26 | two digit strings differing at one position differ in weighted sum by exactly the difference of their terms there |
| Checksum.SingleDigitErrorDetected | clabe.js:22-28 | changing any single one of the first 17 digits changes the check digit |
| CityIndex.Prefix | clabe.js:14 | `prefix(code)`: the stored names followed by ", ", or nothing when the stored value is missing or empty |
| CityIndex.AddCity | clabe.js:15 | `addCity(city)`: stores the prefix followed by the entry's name under the entry's code |
| CityIndex.GroupCities | clabe.js:12-16 | the index after `forEach(addCity)` over the city list, starting from `{}` |
| CityIndex.NamesWithCodeSnoc | clabe.js:16 | appending an entry to the list appends its name to the names of its code and leaves other codes' names alone |
| CityIndex.NamesWithCodeEmpty | clabe.js:16 | a code has no names iff no entry of the list carries it |
| CityIndex.DropLeadingEmptyHead | clabe.js:14 | after leading empty names are dropped, the first remaining name is not empty |
| CityIndex.DropLeadingEmptySnoc | clabe.js:14-15 | how appending a name interacts with dropping leading empty names |
| CityIndex.JoinSnoc | clabe.js:14-15 | appending a name to a non-empty list appends ", " and the name to the joined text |
| CityIndex.JoinStartsWithHead | clabe.js:14-15 | the joined text is at least as long as its first name |
| CityIndex.GroupCitiesContents | clabe.js:12-17 | the built index has an entry for a code iff the list carries it; the entry is the code's names in list order joined by ", ", with leading empty names dropped |
| CityIndex.GroupCitiesDomain | clabe.js:12-17 | a code is in the index iff some list entry has that code; other codes have no entry |
| CityIndex.NamesWithCodeNonEmpty | clabe.js:14-15 | with no empty names in the list, dropping leading empty names changes nothing |
| CityIndex.GroupCitiesWithoutEmptyNames | clabe.js:12-17 | with no empty names, a code's entry is exactly its names joined by ", " |
| Validator.Get | clabe.js:20-21 | a table lookup; `None` stands for `undefined` when the key is absent |
| Validator.Lookup | clabe.js:20-21 | `lookupBank` / `lookupCity`: the table entry at `parseInt` of the code |
| Validator.Truthy | clabe.js:35-36 | JavaScript truthiness of a looked-up name: present and not empty |
| Validator.ErrorMessage | clabe.js:29-39 | `getErrorMessage`: the message of the first failing check in the order length, digits, checksum, bank, city, or `None` (the source's `false`) |
| Validator.Message | clabe.js:40 | the value `check` returns: the error message, or "Valid: " + bank name + " (" + city names + ")" |
| Validator.BankCode | clabe.js:9 | `bankCode`: at most three characters, and exactly characters 0-2 of any input of length 3 or more, as `substr(0, 3)` gives |
| Validator.CityCode | clabe.js:10 | `cityCode`: at most three characters, and exactly characters 3-5 of any input of length 6 or more, as `substr(3, 3)` gives |
| Validator.Substr | clabe.js:9-10 | `substr(start, length)` yields at most `length` characters |
| Validator.FieldsAreDigits | clabe.js:9-10 | on an 18-digit string the bank code is characters 0-2 and the city code characters 3-5, both all digits |
| Validator.WrongLength | clabe.js:32 | any string whose length is not 18 yields exactly "Must be exactly 18 digits long", whatever its content and whatever the tables |
| Validator.NonDigit | clabe.js:33 | an 18-character string with a non-digit at any position yields "Must be only numeric digits (no letters)" |
| Validator.ChecksumMismatch | clabe.js:34 | an all-digit 18-character string whose last digit differs from the computed check digit yields "Invalid checksum, last digit should be: " followed by that digit |
| Validator.UnknownBank | clabe.js:35 | once format and checksum pass, a bank code whose name is missing or empty yields "Invalid bank code", whatever the city index holds |
| Validator.UnknownCity | clabe.js:36 | with a known bank, a city code whose names are missing or empty yields "Invalid city code" |
| Validator.ValidExactlyWhenAccepted | clabe.js:29-40 | the message starts with "Valid: " iff all checks pass, and then it is "Valid: " + bank name + " (" + city names + ")" |
| Validator.AccountOnlyThroughChecksum | clabe.js:9-40 | two all-digit numbers with the same bank code, city code, last digit and computed check digit get the same message: account digits matter only through the checksum |
| Validator.ClabeValidator.constructor | clabe.js:5 | a fresh validator holds the given tables and no city index yet |
| Validator.ClabeValidator.MakeCityMap | clabe.js:12-17 | resetting the index to `{}` and adding the entries one by one leaves the index equal to the grouping of the whole city list, so `Valid()` holds |
| Validator.ClabeValidator.Check | clabe.js:8-41 | builds the index only when it is unset and otherwise leaves it untouched; returns the message the error chain gives for the input, the bank table and that index; when `Valid()` held before, it still holds and the message is the one for the grouping of the city list |
| Validator.CheckTwice | clabe.js:18-19 | checking the same input twice returns the same message, because the index is built at most once; on a valid validator that message is the one for the grouping of the city list |
| Calculator.Calculate | dist/clabe.d.ts:33 | a calculated CLABE has 18 digits: the bank, city and account fields zero-padded to 3, 3 and 11 digits, then the check digit |
| Calculator.AppendCheckDigit | dist/clabe.d.ts:33 | appending the check digit of 17 digits gives an 18-character number that starts with those digits and whose last digit is its own check digit |
| Calculator.CalculateFields | spec/jsdom.spec.js:334-348 | a calculated number parses back to its bank code, city code and account number, and its last digit is its own check digit |
| Calculator.CalculateThenCheck | spec/package.spec.js:76-96 | checking a calculated number never fails on length, characters or checksum; the result is "Invalid bank code", "Invalid city code", or "Valid: <bank> (<cities>)", according to the tables alone |
| TestVectors.SumOfFirstVector | spec.js:46 | the weighted sum of "00201007777777777" is 69 |
| TestVectors.SumOfRolloverVector | spec/jsdom.spec.js:233-253 | the weighted sum of "00201077777777777" is 70 |
| TestVectors.SumOfMultipleCitiesVector | spec.js:58 | the weighted sum of "03218000011835971" is 61 |
| TestVectors.ChecksumMismatchVector | spec.js:46 | "002010077777777779" gives "Invalid checksum, last digit should be: 1" for any bank table and city index |
| TestVectors.RolloverVector | spec/jsdom.spec.js:233-253 | "002010777777777770" has check digit 0, not 10, and its last digit matches it |
| TestVectors.MultipleCitiesVector | spec.js:58 | "032180000118359719" has check digit 9, matching its last digit |
| TestVectors.ZeroBankVector | spec.js:47 | "000000000000000000" passes format and checksum and gives "Invalid bank code" when the bank table has no name for code 0 |
| Calculator.CalculateRecovers | dist/clabe.d.ts:33 | every 18-digit number whose check digit is correct is the calculation of its own fields |

## Left out

- `clabe.validator.checkInput` (clabe.js:42-45) is not modelled. It reads a form field with jQuery and animates the message, so it is user-interface code.
- The `typeof clabeNum !== 'string'` branch (clabe.js:31) is not modelled. The model's input is a primitive string. Numbers, `null` and `undefined` make the `substr` calls on clabe.js:9-11 throw. A `String` object, or any other object with a `substr` method, gets through clabe.js:9-11 and reaches clabe.js:31, which returns "Must be a string"; the model does not represent such inputs.
- `parseInt` on text that is not a digit string (which gives `NaN`) is not modelled. clabe.js:11 parses the last character before any check runs. That value is compared only at clabe.js:34, after the length and digit checks have passed, so a `NaN` there never affects the result. Bank and city codes are parsed only after those checks.
- Validator.ErrorMessage / Validator.Message / Validator.ClabeValidator.Check / Validator.WrongLength / Validator.NonDigit: a Dafny `string` is a sequence of Unicode code points. JavaScript's `length`, `substr` and regular expressions count UTF-16 code units. Strings holding characters outside the Basic Multilingual Plane are therefore classified differently. For example, nine U+1F642 characters have JavaScript length 18 and get the digits message from clabe.js, while the model gets the length message.
- The bank and city data tables are not part of this model. They are parameters of the model.
- `ClabeValidator` holds the bank table and city list as constants. clabe.js:20 reads `clabe.bank` afresh on every call, so a bank table replaced between two checks would change the answer; the model does not capture this, because the bank table is static data that nothing assigns after it is loaded. Changing `clabe.cities` after the index is built does not refresh the index in the source either, so this is not modelled.
- Calculator.Calculate: requires bank and city codes below 1000 and an account number below 10^11. Its implementation is not part of this model, and its tests only use in-range fields, so truncation of wider fields is not modelled.
- The structured `validate` result of the packaged library (`ok`, `formatOk`, `error`, `tag`, `multiple`, `total` and so on) and `computeChecksum` returning `null` are not modelled. Their implementation is not part of this model. Only their type declarations and tests exist.
- Only the test vectors in the `TestVectors` rows are proved. The other sample numbers of the test suites are not restated as lemmas. In particular, the valid samples would need the real bank and city tables, which are not part of this model.
- The two test suites, the build script `gulpfile.js` and the data converter `txt2array.js` are not modelled. They are tests, build tooling and file I/O.
