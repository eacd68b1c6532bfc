/** `Record`: one contact with an ordered list of `Phone` objects.
    add_phone appends a new phone without looking for an equal number, so a
    number can be held twice; remove_phone, edit_phone and find_phone scan
    the list from the front and act on the first phone whose value equals
    the given number. */
module Records {
  import opened Messages
  import opened Phones

  // ---------------------------------------------------------------------
  // The list operations, on the numbers the phones hold

  /** The list without its first occurrence of `x` (unchanged if none). */
  function RemoveFirst(s: seq<string>, x: string): (r: seq<string>)
    ensures |r| == if x in s then |s| - 1 else |s|
  {
    if s == [] then []
    else if s[0] == x then s[1..]
    else [s[0]] + RemoveFirst(s[1..], x)
  }

  /** The list with its first occurrence of `x` replaced by `y`. */
  function ReplaceFirst(s: seq<string>, x: string, y: string): (r: seq<string>)
    ensures |r| == |s|
  {
    if s == [] then []
    else if s[0] == x then [y] + s[1..]
    else [s[0]] + ReplaceFirst(s[1..], x, y)
  }

  /** `i` is the position of the first occurrence of `x` in `s`. */
  predicate FirstAt(s: seq<string>, x: string, i: nat) {
    i < |s| && s[i] == x && forall k :: 0 <= k < i ==> s[k] != x
  }

  /** Every number satisfies the ten-digit rule. */
  predicate AllValid(s: seq<string>) {
    forall i :: 0 <= i < |s| ==> IsValidPhone(s[i])
  }

  /** Removing deletes exactly the first occurrence: the entries before and
      after it keep their order. */
  lemma {:induction false} RemoveFirstAt(s: seq<string>, x: string, i: nat)
    requires FirstAt(s, x, i)
    ensures RemoveFirst(s, x) == s[..i] + s[i + 1..]
    decreases i
  {
    if i > 0 {
      assert FirstAt(s[1..], x, i - 1) by {
        forall k | 0 <= k < i - 1 ensures s[1..][k] != x { assert s[1..][k] == s[k + 1]; }
      }
      RemoveFirstAt(s[1..], x, i - 1);
      assert s[..i] == [s[0]] + s[1..][..i - 1];
      assert s[i + 1..] == s[1..][i..];
    }
  }

  /** Removing a number that is not there changes nothing. */
  lemma {:induction false} RemoveFirstAbsent(s: seq<string>, x: string)
    requires x !in s
    ensures RemoveFirst(s, x) == s
  {
    if s != [] {
      RemoveFirstAbsent(s[1..], x);
    }
  }

  /** Removing takes away one copy of `x` if there is one, and nothing else. */
  lemma {:induction false} RemoveFirstCount(s: seq<string>, x: string)
    ensures multiset(RemoveFirst(s, x)) == multiset(s) - multiset{x}
  {
    if s != [] {
      assert s == [s[0]] + s[1..];
      if s[0] != x {
        RemoveFirstCount(s[1..], x);
      }
    }
  }

  /** Adding a new number and then removing it gives back the list. */
  lemma {:induction false} AppendThenRemove(s: seq<string>, x: string)
    requires x !in s
    ensures RemoveFirst(s + [x], x) == s
  {
    assert FirstAt(s + [x], x, |s|);
    RemoveFirstAt(s + [x], x, |s|);
    assert (s + [x])[..|s|] == s;
  }

  /** Replacing touches only the first occurrence: same length, the new
      number at that position, every other entry unchanged. */
  lemma {:induction false} ReplaceFirstAt(s: seq<string>, x: string, y: string, i: nat)
    requires FirstAt(s, x, i)
    ensures ReplaceFirst(s, x, y) == s[i := y]
    decreases i
  {
    if i > 0 {
      assert FirstAt(s[1..], x, i - 1) by {
        forall k | 0 <= k < i - 1 ensures s[1..][k] != x { assert s[1..][k] == s[k + 1]; }
      }
      ReplaceFirstAt(s[1..], x, y, i - 1);
      assert s[i := y] == [s[0]] + s[1..][i - 1 := y];
    }
  }

  /** Replacing a number that is not there changes nothing. */
  lemma {:induction false} ReplaceFirstAbsent(s: seq<string>, x: string, y: string)
    requires x !in s
    ensures ReplaceFirst(s, x, y) == s
  {
    if s != [] {
      ReplaceFirstAbsent(s[1..], x, y);
    }
  }

  /** Appending a valid number or removing one keeps every number valid. */
  lemma {:induction false} ValidityKept(s: seq<string>, x: string)
    requires AllValid(s)
    ensures IsValidPhone(x) ==> AllValid(s + [x])
    ensures AllValid(RemoveFirst(s, x))
  {
    RemoveFirstCount(s, x);
    forall i | 0 <= i < |RemoveFirst(s, x)| ensures IsValidPhone(RemoveFirst(s, x)[i]) {
      var v := RemoveFirst(s, x)[i];
      assert v in multiset(RemoveFirst(s, x));
      assert v in multiset(s);
      assert v in s;
    }
  }

  /** Editing, as written, stores the new number even when it fails the
      ten-digit rule: the result holds the invalid number, so a list of valid
      numbers stops being valid. */
  lemma {:induction false} EditStoresInvalid(s: seq<string>, x: string, y: string)
    requires x in s
    requires !IsValidPhone(y)
    ensures y in ReplaceFirst(s, x, y)
    ensures !AllValid(ReplaceFirst(s, x, y))
  {
    if s[0] != x {
      EditStoresInvalid(s[1..], x, y);
    }
  }

  // ---------------------------------------------------------------------
  // The class

  /** The numbers held by a list of phones, in order. */
  function ValuesOf(ps: seq<Phone>): (vs: seq<string>)
    reads ps
    ensures |vs| == |ps|
    ensures forall i :: 0 <= i < |ps| ==> vs[i] == ps[i].value
  {
    if ps == [] then [] else [ps[0].value] + ValuesOf(ps[1..])
  }

  /** No phone object appears twice. */
  ghost predicate Distinct(ps: seq<Phone>) {
    forall i, j :: 0 <= i < j < |ps| ==> ps[i] != ps[j]
  }

  lemma DistinctAfterRemove(ps: seq<Phone>, i: nat)
    requires i < |ps| && Distinct(ps)
    ensures Distinct(ps[..i] + ps[i + 1..])
  {
    var rest := ps[..i] + ps[i + 1..];
    forall a, b | 0 <= a < b < |rest| ensures rest[a] != rest[b] {
      var a' := if a < i then a else a + 1;
      var b' := if b < i then b else b + 1;
      assert rest[a] == ps[a'] && rest[b] == ps[b'];
    }
  }

  /** Taking a phone out of the list takes its number out of the numbers. */
  lemma ValuesOfRemove(ps: seq<Phone>, i: nat)
    requires i < |ps|
    ensures ValuesOf(ps[..i] + ps[i + 1..]) == ValuesOf(ps)[..i] + ValuesOf(ps)[i + 1..]
  {
    var rest := ps[..i] + ps[i + 1..];
    var vs := ValuesOf(ps);
    var lhs, rhs := ValuesOf(rest), vs[..i] + vs[i + 1..];
    forall k | 0 <= k < |rest| ensures lhs[k] == rhs[k] {
      if k < i {
        assert rest[k] == ps[k] && rhs[k] == vs[k];
      } else {
        assert rest[k] == ps[k + 1] && rhs[k] == vs[k + 1];
      }
    }
  }

  class Record {
    const name: string
    var phones: seq<Phone>

    /** No phone object appears twice, so editing one entry changes only
        that entry. */
    ghost predicate Valid()
      reads this
    {
      Distinct(phones)
    }

    /** The numbers of the record, in order. */
    function Numbers(): (ns: seq<string>)
      reads this, phones
      ensures |ns| == |phones|
    {
      ValuesOf(phones)
    }

    constructor (name: string)
      ensures Valid()
      ensures this.name == name && phones == []
    {
      this.name := name;
      phones := [];
    }

    /** add_phone: a number passing the ten-digit rule is appended as a new
        phone; otherwise the list is unchanged and the validation message is
        returned. */
    method AddPhone(phoneNumber: string) returns (r: Message)
      requires Valid()
      modifies this
      ensures Valid()
      ensures IsValidPhone(phoneNumber) ==> r == PhoneAdded && Numbers() == old(Numbers()) + [phoneNumber]
      ensures IsValidPhone(phoneNumber) ==> |phones| == |old(phones)| + 1 && phones[..|old(phones)|] == old(phones)
                                            && fresh(phones[|old(phones)|])
      ensures !IsValidPhone(phoneNumber) ==> r == PhoneMustBeTenDigits && phones == old(phones)
                                             && Numbers() == old(Numbers())
      ensures AllValid(old(Numbers())) ==> AllValid(Numbers())
    {
      var phone, outcome := Phone.Create(phoneNumber);
      if outcome.Fail? {
        return outcome.error;
      }
      phones := phones + [phone];
      assert Numbers() == old(Numbers()) + [phoneNumber];
      if AllValid(old(Numbers())) {
        ValidityKept(old(Numbers()), phoneNumber);
      }
      return PhoneAdded;
    }

    /** The scan that remove_phone, edit_phone and find_phone each run: the
        position of the first phone holding the number, or the length of the
        list when none does. */
    method Scan(number: string) returns (i: nat)
      ensures i <= |phones|
      ensures i < |phones| ==> FirstAt(Numbers(), number, i)
      ensures i == |phones| <==> number !in Numbers()
    {
      i := 0;
      while i < |phones|
        invariant 0 <= i <= |phones|
        invariant forall k :: 0 <= k < i ==> phones[k].value != number
      {
        if phones[i].GetValue() == number {
          return;
        }
        i := i + 1;
      }
    }

    /** list.remove applied to the phone at position `i`: the list closes
        up over it. */
    method RemoveAt(i: nat)
      requires Valid() && i < |phones|
      modifies this
      ensures Valid()
      ensures phones == old(phones)[..i] + old(phones)[i + 1..]
      ensures Numbers() == old(Numbers())[..i] + old(Numbers())[i + 1..]
    {
      ValuesOfRemove(phones, i);
      DistinctAfterRemove(phones, i);
      phones := phones[..i] + phones[i + 1..];
    }

    /** remove_phone: the first phone holding the number is taken out of the
        list, the others keep their order. list.remove deletes the first
        element identical to that phone; every phone before it holds another
        number, so it is the one found. */
    method RemovePhone(phoneNumber: string) returns (r: Message)
      requires Valid()
      modifies this
      ensures Valid()
      ensures r == if phoneNumber in old(Numbers()) then PhoneRemoved else PhoneNotFound
      ensures Numbers() == RemoveFirst(old(Numbers()), phoneNumber)
      ensures phoneNumber !in old(Numbers()) ==> phones == old(phones)
      ensures phoneNumber in old(Numbers()) ==>
                exists i: nat :: FirstAt(old(Numbers()), phoneNumber, i) && phones == old(phones)[..i] + old(phones)[i + 1..]
      ensures AllValid(old(Numbers())) ==> AllValid(Numbers())
    {
      ghost var numbers := Numbers();
      if AllValid(numbers) {
        ValidityKept(numbers, phoneNumber);
      }
      var i := Scan(phoneNumber);
      if i == |phones| {
        RemoveFirstAbsent(numbers, phoneNumber);
        return PhoneNotFound;
      }
      RemoveFirstAt(numbers, phoneNumber, i);
      RemoveAt(i);
      assert FirstAt(numbers, phoneNumber, i);
      return PhoneRemoved;
    }

    /** edit_phone: the first phone holding the old number gets the new one
        through set_value, which stores before it validates. So when the new
        number fails the ten-digit rule the validation message is returned
        AND the phone already holds the new number. */
    method EditPhone(oldNumber: string, newNumber: string) returns (r: Message)
      requires Valid()
      modifies phones
      ensures Valid() && phones == old(phones)
      ensures r == if oldNumber !in old(Numbers()) then PhoneNotFound
                   else if IsValidPhone(newNumber) then PhoneUpdated
                   else PhoneMustBeTenDigits
      ensures Numbers() == ReplaceFirst(old(Numbers()), oldNumber, newNumber)
    {
      ghost var numbers := Numbers();
      var i := Scan(oldNumber);
      if i == |phones| {
        ReplaceFirstAbsent(numbers, oldNumber, newNumber);
        return PhoneNotFound;
      }
      ReplaceFirstAt(numbers, oldNumber, newNumber, i);
      var outcome := phones[i].SetValue(newNumber);
      forall k | 0 <= k < |phones| ensures Numbers()[k] == numbers[i := newNumber][k] {
        if k != i { assert phones[k] != phones[i]; }
      }
      return if outcome.Pass? then PhoneUpdated else outcome.error;
    }

    /** edit_phone with the check before the store: a number failing the
        ten-digit rule leaves every phone as it was, so a record of valid
        numbers stays valid. */
    method EditPhoneValidated(oldNumber: string, newNumber: string) returns (r: Message)
      requires Valid()
      modifies phones
      ensures Valid() && phones == old(phones)
      ensures r == if oldNumber !in old(Numbers()) then PhoneNotFound
                   else if IsValidPhone(newNumber) then PhoneUpdated
                   else PhoneMustBeTenDigits
      ensures Numbers() == if IsValidPhone(newNumber) then ReplaceFirst(old(Numbers()), oldNumber, newNumber)
                           else old(Numbers())
      ensures AllValid(old(Numbers())) ==> AllValid(Numbers())
    {
      ghost var numbers := Numbers();
      var i := Scan(oldNumber);
      if i == |phones| {
        ReplaceFirstAbsent(numbers, oldNumber, newNumber);
        return PhoneNotFound;
      }
      var outcome := ValidatePhone(newNumber);
      if outcome.Fail? {
        return outcome.error;
      }
      ReplaceFirstAt(numbers, oldNumber, newNumber, i);
      var _ := phones[i].SetValue(newNumber);
      forall k | 0 <= k < |phones| ensures Numbers()[k] == numbers[i := newNumber][k] {
        if k != i { assert phones[k] != phones[i]; }
      }
      assert AllValid(numbers) ==> AllValid(numbers[i := newNumber]);
      return PhoneUpdated;
    }

    /** find_phone: reports whether some phone holds the number; nothing
        changes. */
    method FindPhone(phoneNumber: string) returns (r: Message)
      ensures r == PhoneFound <==> phoneNumber in Numbers()
      ensures r == PhoneNotFound <==> phoneNumber !in Numbers()
    {
      var i := Scan(phoneNumber);
      return if i < |phones| then PhoneFound else PhoneNotFound;
    }
  }
}
