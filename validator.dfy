/** `clabe.validator.check` from clabe.js: the fixed-order chain of checks on
    an 18-character CLABE number and the message it produces, plus the object
    that holds the lazily built city index. */
module Validator {
  import opened Wrappers
  import opened Decimal
  import opened Checksum
  import opened CityIndex

  const LengthError := "Must be exactly 18 digits long"
  const DigitsError := "Must be only numeric digits (no letters)"
  const ChecksumError := "Invalid checksum, last digit should be: "
  const BankError := "Invalid bank code"
  const CityError := "Invalid city code"
  const ValidPrefix := "Valid: "

  /** JavaScript's `s.substr(start, length)` for a non-negative start. */
  function Substr(s: string, start: nat, length: nat): (r: string)
    ensures |r| <= length
  {
    if start >= |s| then "" else if start + length <= |s| then s[start..start + length] else s[start..]
  }

  /** `bankCode`: the first three characters of the input. */
  function BankCode(s: string): (code: string)
    ensures |code| <= 3 && (|s| >= 3 ==> code == s[..3])
  {
    Substr(s, 0, 3)
  }

  /** `cityCode`: characters 3 to 5 of the input. */
  function CityCode(s: string): (code: string)
    ensures |code| <= 3 && (|s| >= 6 ==> code == s[3..6])
  {
    Substr(s, 3, 3)
  }

  /** A table lookup `table[key]`; `None` stands for `undefined`. */
  function Get(table: map<int, string>, key: int): Option<string> {
    if key in table then Some(table[key]) else None
  }

  /** A lookup by a digit string: `table[parseInt(code)]`. */
  function Lookup(table: map<int, string>, code: string): Option<string>
    requires AllDigits(code)
  {
    Get(table, ParseDecimal(code))
  }

  /** JavaScript truthiness of a looked-up name: present and not empty. */
  predicate Truthy(v: Option<string>) {
    v.Some? && v.value != ""
  }

  lemma FieldsAreDigits(s: string)
    requires |s| == 18 && AllDigits(s)
    ensures BankCode(s) == s[..3] && CityCode(s) == s[3..6]
    ensures AllDigits(BankCode(s)) && AllDigits(CityCode(s))
  {
  }

  /** `getErrorMessage()`: the first failing check's message, or `None`
      (the source's `false`) when every check passes. */
  function ErrorMessage(s: string, banks: map<int, string>, cities: map<int, string>): Option<string> {
    if |s| != 18 then Some(LengthError)
    else if !HasDigitRun(s, 18) then Some(DigitsError)
    else
      DigitRunOfFullLength(s);
      FieldsAreDigits(s);
      var expected := CheckDigit(s);
      if expected != DigitValue(s[17]) then Some(ChecksumError + Digits(expected, 1))
      else if !Truthy(Lookup(banks, BankCode(s))) then Some(BankError)
      else if !Truthy(Lookup(cities, CityCode(s))) then Some(CityError)
      else None
  }

  /** The value `check` returns, given the bank table and the city index. */
  function Message(s: string, banks: map<int, string>, cities: map<int, string>): string {
    match ErrorMessage(s, banks, cities)
    case Some(error) => error
    case None =>
      FieldsAreDigits(s);
      ValidPrefix + Lookup(banks, BankCode(s)).value + " (" + Lookup(cities, CityCode(s)).value + ")"
  }

  // ---- What the message says ----

  /** Every check passes: 18 characters, all digits, matching check digit,
      and a non-empty name for both the bank and the city code. */
  predicate Accepted(s: string, banks: map<int, string>, cities: map<int, string>) {
    |s| == 18 && AllDigits(s) && CheckDigit(s) == DigitValue(s[17])
    && Truthy(Lookup(banks, s[..3])) && Truthy(Lookup(cities, s[3..6]))
  }

  predicate IsValidMessage(m: string) {
    |m| >= |ValidPrefix| && m[..|ValidPrefix|] == ValidPrefix
  }

  /** Any string whose length is not 18 is rejected for its length alone. */
  lemma WrongLength(s: string, banks: map<int, string>, cities: map<int, string>)
    requires |s| != 18
    ensures Message(s, banks, cities) == LengthError
  {
  }

  /** An 18-character string holding a non-digit anywhere is rejected for its
      characters, whatever else it contains. */
  lemma NonDigit(s: string, i: nat, banks: map<int, string>, cities: map<int, string>)
    requires |s| == 18 && i < 18 && !IsDigit(s[i])
    ensures Message(s, banks, cities) == DigitsError
  {
    DigitRunOfFullLength(s);
  }

  /** An all-digit 18-character string whose last digit is not the computed
      check digit is rejected, and the message names the expected digit. */
  lemma ChecksumMismatch(s: string, banks: map<int, string>, cities: map<int, string>)
    requires |s| == 18 && AllDigits(s) && DigitValue(s[17]) != CheckDigit(s)
    ensures Message(s, banks, cities) == ChecksumError + [DigitChar(CheckDigit(s))]
  {
    DigitRunOfFullLength(s);
  }

  /** Once format and checksum pass, a bank code with no name is rejected,
      and the city index is never consulted. */
  lemma UnknownBank(s: string, banks: map<int, string>, cities: map<int, string>)
    requires |s| == 18 && AllDigits(s) && DigitValue(s[17]) == CheckDigit(s)
    requires !Truthy(Lookup(banks, s[..3]))
    ensures Message(s, banks, cities) == BankError
  {
    DigitRunOfFullLength(s);
  }

  /** With a known bank, a city code with no names is rejected. */
  lemma UnknownCity(s: string, banks: map<int, string>, cities: map<int, string>)
    requires |s| == 18 && AllDigits(s) && DigitValue(s[17]) == CheckDigit(s)
    requires Truthy(Lookup(banks, s[..3])) && !Truthy(Lookup(cities, s[3..6]))
    ensures Message(s, banks, cities) == CityError
  {
    DigitRunOfFullLength(s);
  }

  /** The message starts with "Valid: " exactly when every check passes, and
      then it names the bank and, in parentheses, the cities. */
  lemma ValidExactlyWhenAccepted(s: string, banks: map<int, string>, cities: map<int, string>)
    ensures IsValidMessage(Message(s, banks, cities)) <==> Accepted(s, banks, cities)
    ensures Accepted(s, banks, cities) ==>
              Message(s, banks, cities)
              == ValidPrefix + Lookup(banks, s[..3]).value + " (" + Lookup(cities, s[3..6]).value + ")"
  {
    var m := Message(s, banks, cities);
    if |s| == 18 {
      DigitRunOfFullLength(s);
    }
    if !Accepted(s, banks, cities) {
      assert m[0] == 'M' || m[0] == 'I';
      assert |m| < |ValidPrefix| || m[..|ValidPrefix|][0] != ValidPrefix[0];
    }
  }

  /** The account digits (positions 6 to 16) affect the outcome only through
      the check digit they lead to. */
  lemma AccountOnlyThroughChecksum(s: string, t: string, banks: map<int, string>, cities: map<int, string>)
    requires |s| == |t| == 18 && AllDigits(s) && AllDigits(t)
    requires s[..6] == t[..6] && s[17] == t[17] && CheckDigit(s) == CheckDigit(t)
    ensures Message(s, banks, cities) == Message(t, banks, cities)
  {
    DigitRunOfFullLength(s);
    DigitRunOfFullLength(t);
    assert s[..3] == s[..6][..3] == t[..6][..3] == t[..3];
    assert s[3..6] == s[..6][3..] == t[..6][3..] == t[3..6];
  }

  // ---- The stateful validator ----

  /** The `clabe` object: the bank table `clabe.bank`, the city list
      `clabe.cities` and the city index `clabe.city`, which stays unset
      (`None`) until the first check builds it. */
  class ClabeValidator {
    const banks: map<int, string>
    const cities: seq<CityEntry>
    var city: Option<map<int, string>>

    /** The index, once set, is the grouping of the city list. */
    ghost predicate Valid()
      reads this
    {
      city.Some? ==> city.value == GroupCities(cities)
    }

    constructor (banks: map<int, string>, cities: seq<CityEntry>)
      ensures this.banks == banks && this.cities == cities && city == None
      ensures Valid()
    {
      this.banks := banks;
      this.cities := cities;
      city := None;
    }

    /** `makeCityMap()`: resets the index to `{}` and adds the entries one by one. */
    method MakeCityMap()
      modifies this`city
      ensures city == Some(GroupCities(cities)) && Valid()
    {
      city := Some(map[]);
      var i := 0;
      while i < |cities|
        invariant 0 <= i <= |cities|
        invariant city == Some(GroupCities(cities[..i]))
      {
        assert cities[..i + 1][..i] == cities[..i];
        var entry := cities[i];
        var index := city.value;
        city := Some(index[entry.0 := Prefix(index, entry.0) + entry.1]);
        i := i + 1;
      }
      assert cities[..i] == cities;
    }

    /** `check(clabeNum)`: builds the city index if it is unset, then runs the
        checks in order and returns the first error message or the bank and
        city names. An index that is already set is used as it is. */
    method Check(s: string) returns (message: string)
      modifies this`city
      ensures old(city).None? ==> city == Some(GroupCities(cities))
      ensures old(city).Some? ==> city == old(city)
      ensures city.Some? && message == Message(s, banks, city.value)
      ensures old(Valid()) ==> Valid() && message == Message(s, banks, GroupCities(cities))
    {
      if city.None? {
        MakeCityMap();
      }
      var index := city.value;
      if |s| != 18 {
        message := LengthError;
      } else if !HasDigitRun(s, 18) {
        message := DigitsError;
      } else {
        DigitRunOfFullLength(s);
        FieldsAreDigits(s);
        var expected := CalcCheckSum(s);
        if expected != DigitValue(s[17]) {
          message := ChecksumError + Digits(expected, 1);
        } else {
          var bank := Lookup(banks, BankCode(s));
          var cityNames := Lookup(index, CityCode(s));
          if !Truthy(bank) {
            message := BankError;
          } else if !Truthy(cityNames) {
            message := CityError;
          } else {
            message := ValidPrefix + bank.value + " (" + cityNames.value + ")";
          }
        }
      }
    }
  }

  /** The index is built at most once and never changed afterwards, so
      checking the same number twice gives the same message. */
  method CheckTwice(v: ClabeValidator, s: string) returns (first: string, second: string)
    modifies v
    ensures first == second
    ensures v.city == Some(GroupCities(v.cities)) || v.city == old(v.city)
    ensures old(v.Valid()) ==> v.Valid() && first == Message(s, v.banks, GroupCities(v.cities))
  {
    first := v.Check(s);
    second := v.Check(s);
  }
}
