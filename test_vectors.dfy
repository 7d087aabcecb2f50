/** The test suites' CLABE numbers, checked against the model for any bank
    table and city index (or for a bank table without the code they need to
    be unknown). */
module TestVectors {
  import opened Wrappers
  import opened Decimal
  import opened Checksum
  import opened Validator

  lemma SumOfFirstVector()
    ensures WeightedSum("00201007777777777") == 69
  {
    WeightedSum17("00201007777777777");
  }

  lemma SumOfRolloverVector()
    ensures WeightedSum("00201077777777777") == 70
  {
    WeightedSum17("00201077777777777");
  }

  lemma SumOfMultipleCitiesVector()
    ensures WeightedSum("03218000011835971") == 61
  {
    WeightedSum17("03218000011835971");
  }

  /** "002010077777777779" is rejected, and the message names 1 as the
      expected last digit. */
  lemma ChecksumMismatchVector(banks: map<int, string>, cities: map<int, string>)
    ensures Message("002010077777777779", banks, cities) == "Invalid checksum, last digit should be: 1"
  {
    var s := "002010077777777779";
    SumOfFirstVector();
    assert Head17(s) == "00201007777777777";
    ChecksumMismatch(s, banks, cities);
  }

  /** "002010777777777770" has a weighted sum of 70, and its check digit
      rolls over to 0 rather than 10, so the checksum check passes. */
  lemma RolloverVector()
    ensures CheckDigit("002010777777777770") == 0 == DigitValue("002010777777777770"[17])
  {
    SumOfRolloverVector();
    assert Head17("002010777777777770") == "00201077777777777";
  }

  /** "032180000118359719" passes the checksum with check digit 9. */
  lemma MultipleCitiesVector()
    ensures CheckDigit("032180000118359719") == 9 == DigitValue("032180000118359719"[17])
  {
    SumOfMultipleCitiesVector();
    assert Head17("032180000118359719") == "03218000011835971";
  }

  /** "000000000000000000" passes format and checksum and is rejected for its
      bank code when the bank table has no name for code 0. */
  lemma ZeroBankVector(banks: map<int, string>, cities: map<int, string>)
    requires !Truthy(Get(banks, 0))
    ensures Message("000000000000000000", banks, cities) == BankError
  {
    var s := "000000000000000000";
    WeightedSum17(s[..17]);
    assert ParseDecimal(s[..3]) == 0 by {
      assert s[..3] == "000" && "000"[..2] == "00" && "00"[..1] == "0" && "0"[..0] == "";
    }
    UnknownBank(s, banks, cities);
  }
}
