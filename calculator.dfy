/** `clabe.calculate(bankCode, cityCode, accountNumber)` of the packaged
    library: the three fields zero-padded to 3, 3 and 11 digits, followed by
    their check digit. */
module Calculator {
  import opened Decimal
  import opened Checksum
  import opened Validator

  function Calculate(bank: nat, city: nat, account: nat): (clabe: string)
    requires bank < 1000 && city < 1000 && account < Pow10(11)
    ensures |clabe| == 18 && AllDigits(clabe)
    ensures clabe[..3] == Digits(bank, 3) && clabe[3..6] == Digits(city, 3)
    ensures clabe[6..17] == Digits(account, 11)
    ensures DigitValue(clabe[17]) == CheckDigit(clabe)
  {
    var body := Digits(bank, 3) + Digits(city, 3) + Digits(account, 11);
    AppendCheckDigit(body);
    body + Digits(CheckDigit(body), 1)
  }

  /** Appending the check digit of 17 digits gives a number whose last digit
      is its own check digit. */
  lemma AppendCheckDigit(body: string)
    requires |body| == 17 && AllDigits(body)
    ensures var clabe := body + Digits(CheckDigit(body), 1);
            |clabe| == 18 && clabe[..17] == body && DigitValue(clabe[17]) == CheckDigit(clabe)
  {
    var clabe := body + Digits(CheckDigit(body), 1);
    assert Digits(CheckDigit(body), 1) == [DigitChar(CheckDigit(body))];
    assert Head17(clabe) == body == Head17(body);
  }

  /** A calculated number parses back to the bank code, city code and
      account number it was made from, and ends in its own check digit. */
  lemma CalculateFields(bank: nat, city: nat, account: nat)
    requires bank < 1000 && city < 1000 && account < Pow10(11)
    ensures var clabe := Calculate(bank, city, account);
            ParseDecimal(clabe[..3]) == bank && ParseDecimal(clabe[3..6]) == city
            && ParseDecimal(clabe[6..17]) == account && DigitValue(clabe[17]) == CheckDigit(clabe)
  {
    var clabe := Calculate(bank, city, account);
    ParseDigits(bank, 3);
    ParseDigits(city, 3);
    ParseDigits(account, 11);
    var body := Digits(bank, 3) + Digits(city, 3) + Digits(account, 11);
    assert clabe == body + Digits(CheckDigit(body), 1);
    assert Head17(clabe) == body == Head17(body);
    assert Digits(CheckDigit(body), 1) == [DigitChar(CheckDigit(body))];
  }

  /** Validating a calculated number never fails on length, characters or
      checksum: the outcome depends only on whether the bank and city codes
      have names, and is "Valid: <bank> (<cities>)" when both do. */
  lemma CalculateThenCheck(bank: nat, city: nat, account: nat, banks: map<int, string>, cities: map<int, string>)
    requires bank < 1000 && city < 1000 && account < Pow10(11)
    ensures Message(Calculate(bank, city, account), banks, cities)
         == if !Truthy(Get(banks, bank)) then BankError
            else if !Truthy(Get(cities, city)) then CityError
            else ValidPrefix + banks[bank] + " (" + cities[city] + ")"
  {
    var clabe := Calculate(bank, city, account);
    CalculateFields(bank, city, account);
    if !Truthy(Get(banks, bank)) {
      UnknownBank(clabe, banks, cities);
    } else if !Truthy(Get(cities, city)) {
      UnknownCity(clabe, banks, cities);
    } else {
      ValidExactlyWhenAccepted(clabe, banks, cities);
    }
  }

  /** Every 18-digit number with a correct check digit is the calculation of
      its own fields. */
  lemma CalculateRecovers(s: string)
    requires |s| == 18 && AllDigits(s) && DigitValue(s[17]) == CheckDigit(s)
    ensures ParseDecimal(s[..3]) < 1000 && ParseDecimal(s[3..6]) < 1000 && ParseDecimal(s[6..17]) < Pow10(11)
    ensures Calculate(ParseDecimal(s[..3]), ParseDecimal(s[3..6]), ParseDecimal(s[6..17])) == s
  {
    var bank, city, account := ParseDecimal(s[..3]), ParseDecimal(s[3..6]), ParseDecimal(s[6..17]);
    var clabe := Calculate(bank, city, account);
    assert clabe[..17] == s[..17] by {
      DigitsOfParse(s[..3]);
      DigitsOfParse(s[3..6]);
      DigitsOfParse(s[6..17]);
      assert clabe[..17] == clabe[..3] + clabe[3..6] + clabe[6..17];
      assert s[..17] == s[..3] + s[3..6] + s[6..17];
    }
    assert clabe[17] == s[17] by {
      ReadsOnlyFirst17(s, clabe);
      CalculateFields(bank, city, account);
    }
    assert clabe == clabe[..17] + [clabe[17]] && s == s[..17] + [s[17]];
  }
}
