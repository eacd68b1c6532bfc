/** The `Phone` field: a phone number string that must be exactly ten digits.
    In the source a failed check raises ValueError("Phone number must be
    exactly 10 digits."); here the check returns an `Outcome`. */
module Phones {
  import opened Chars
  import opened Messages

  /** validate_phone: fails when the length is not 10 or some character is
      not a digit. */
  function ValidatePhone(v: string): (r: Outcome)
    ensures r.Pass? <==> |v| == 10 && forall i :: 0 <= i < |v| ==> '0' <= v[i] <= '9'
    ensures r.Fail? ==> Text(r.error) == "Phone number must be exactly 10 digits."
  {
    if |v| != 10 || !AllDigits(v) then Fail(PhoneMustBeTenDigits) else Pass
  }

  predicate IsValidPhone(v: string) {
    ValidatePhone(v).Pass?
  }

  class Phone {
    var value: string

    /** Python's __init__ stores the number and then validates it; the
        validation outcome is returned beside the new object, which a caller
        drops when the outcome is a failure (the raised exception). */
    static method Create(phoneNumber: string) returns (p: Phone, r: Outcome)
      ensures fresh(p) && p.value == phoneNumber
      ensures r == ValidatePhone(phoneNumber)
    {
      p := new Phone.Init(phoneNumber);
      r := p.Validate();
    }

    constructor Init(phoneNumber: string)
      ensures value == phoneNumber
    {
      value := phoneNumber;
    }

    /** validate_phone applied to the stored value. */
    method Validate() returns (r: Outcome)
      ensures r.Pass? <==> IsValidPhone(value)
      ensures r.Fail? ==> r.error == PhoneMustBeTenDigits
    {
      r := ValidatePhone(value);
    }

    /** set_value: the new number is stored FIRST and validated afterwards,
        so a number that fails validation stays stored. */
    method SetValue(phoneNumber: string) returns (r: Outcome)
      modifies this
      ensures value == phoneNumber
      ensures r == ValidatePhone(phoneNumber)
    {
      value := phoneNumber;
      r := Validate();
    }

    function GetValue(): (v: string)
      reads this
      ensures v == value
    {
      value
    }
  }
}
