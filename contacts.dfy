/** The dictionary-based command handlers. Each takes the argument words of a
    command and the `contacts` dictionary, checks the number of arguments
    first, then applies the digits rule to the phone, and either updates the
    dictionary or leaves it alone; the reply is a fixed message. None of the
    handlers can raise the KeyError, ValueError or IndexError that the
    `input_error` wrapper would turn into a reply, so the wrapper is not
    visible here. */
module Contacts {
  import opened Chars
  import opened Messages
  import opened Phones

  // ---------------------------------------------------------------------
  // The digits rule of the handlers

  /** re.match(r'^\d+$', s) as Python evaluates it: one or more digits up to
      the end, where `$` also matches just before a final newline. */
  predicate MatchesDigits(s: string): (b: bool)
    ensures b <==> |s| > 0 && AllDigits(s[..|s| - 1])
                   && (IsDigit(s[|s| - 1]) || (|s| > 1 && s[|s| - 1] == '\n'))
  {
    (|s| > 0 && AllDigits(s))
    || (|s| > 1 && s[|s| - 1] == '\n' && AllDigits(s[..|s| - 1]))
  }

  /** On a word without whitespace (every argument produced by parse_input)
      the pattern accepts exactly the non-empty all-digit strings. */
  lemma DigitsRuleOnWords(s: string)
    requires NoSpace(s)
    ensures MatchesDigits(s) <==> |s| > 0 && forall i :: 0 <= i < |s| ==> '0' <= s[i] <= '9'
  {
    if |s| > 1 {
      assert IsSpace('\n');
      assert s[|s| - 1] != '\n';
    }
  }

  /** A string with a final newline after its digits also matches. */
  lemma TrailingNewlineMatches(digits: string)
    requires |digits| > 0 && AllDigits(digits)
    ensures MatchesDigits(digits + "\n")
    ensures !AllDigits(digits + "\n")
  {
    var s := digits + "\n";
    assert s[..|s| - 1] == digits;
    assert s[|s| - 1] == '\n';
  }

  /** The ten-digit rule of Phone is strictly stronger than the handlers'
      digits rule: every valid phone matches, and three digits match without
      being a valid phone. */
  lemma PhoneRuleStricter(v: string)
    ensures IsValidPhone(v) ==> MatchesDigits(v)
    ensures MatchesDigits("123") && !IsValidPhone("123")
  {
    assert AllDigits("123");
  }

  // ---------------------------------------------------------------------
  // The contacts dictionary

  /** The key order after `d[k] = v`: a new key goes to the end, an existing
      key keeps its place. */
  function KeysAfterStore(keys: seq<string>, k: string): (r: seq<string>)
    ensures k in r
    ensures forall x :: x in r <==> x in keys || x == k
  {
    if k in keys then keys else keys + [k]
  }

  /** A Python dict from name to phone: a map and the insertion order of its
      keys, which is the order items() yields. */
  class Dict {
    var keys: seq<string>
    var data: map<string, string>

    ghost predicate Valid()
      reads this
    {
      && (forall i, j :: 0 <= i < j < |keys| ==> keys[i] != keys[j])
      && (forall k :: k in data <==> k in keys)
    }

    constructor ()
      ensures Valid() && keys == [] && data == map[]
    {
      keys := [];
      data := map[];
    }

    /** d[k] = v */
    method Store(k: string, v: string)
      requires Valid()
      modifies this
      ensures Valid()
      ensures data == old(data)[k := v]
      ensures keys == KeysAfterStore(old(keys), k)
    {
      if k !in data {
        keys := keys + [k];
      }
      data := data[k := v];
    }
  }

  // ---------------------------------------------------------------------
  // Listings

  predicate AllIn(ks: seq<string>, m: map<string, string>) {
    forall i :: 0 <= i < |ks| ==> ks[i] in m
  }

  /** One line of a listing: f"{name}: {phone}\n". */
  function Line(name: string, phone: string): (line: string)
    ensures |line| == |name| + |phone| + 3
    ensures line[..|name|] == name && line[|name|..|name| + 2] == ": "
    ensures line[|name| + 2..|line| - 1] == phone && line[|line| - 1] == '\n'
  {
    name + ": " + phone + "\n"
  }

  /** The lines of the given names, in the given order. */
  function Lines(ks: seq<string>, m: map<string, string>): (text: string)
    requires AllIn(ks, m)
    ensures ks == [] <==> text == []
  {
    if ks == [] then ""
    else Lines(ks[..|ks| - 1], m) + Line(ks[|ks| - 1], m[ks[|ks| - 1]])
  }

  /** The listing of two runs of names is the listing of the first followed
      by the listing of the second. */
  lemma {:induction false} LinesAppend(a: seq<string>, b: seq<string>, m: map<string, string>)
    requires AllIn(a, m) && AllIn(b, m)
    ensures AllIn(a + b, m)
    ensures Lines(a + b, m) == Lines(a, m) + Lines(b, m)
    decreases |b|
  {
    if b != [] {
      var b' := b[..|b| - 1];
      assert (a + b)[..|a + b| - 1] == a + b';
      LinesAppend(a, b', m);
    } else {
      assert a + b == a;
    }
  }

  /** Every listed name has its own line, with its own phone, after the lines
      of the names before it and before the lines of the names after it. */
  lemma ListsEachInOrder(ks: seq<string>, m: map<string, string>, i: nat)
    requires AllIn(ks, m) && i < |ks|
    ensures Lines(ks, m) == Lines(ks[..i], m) + Line(ks[i], m[ks[i]]) + Lines(ks[i + 1..], m)
  {
    assert ks == ks[..i] + [ks[i]] + ks[i + 1..];
    LinesAppend(ks[..i], [ks[i]], m);
    LinesAppend(ks[..i] + [ks[i]], ks[i + 1..], m);
    assert [ks[i]][..0] == [];
  }

  /** The `for name, phone in ...: result += f"{name}: {phone}\n"` loop of
      get_all_contacts and search_records, starting from the header line. */
  method AppendLines(header: string, names: seq<string>, m: map<string, string>)
    returns (r: string)
    requires AllIn(names, m)
    ensures r == header + Lines(names, m)
  {
    r := header;
    var i := 0;
    while i < |names|
      invariant 0 <= i <= |names|
      invariant r == header + Lines(names[..i], m)
    {
      var name := names[i];
      assert names[..i + 1][..i] == names[..i];
      r := r + Line(name, m[name]);
      i := i + 1;
    }
    assert names[..i] == names;
  }

  /** The names, in order, that the search predicate accepts by name or by
      phone. */
  function Matching(ks: seq<string>, m: map<string, string>, term: string,
                    search: (string, string) -> bool): (found: seq<string>)
    requires AllIn(ks, m)
    ensures |found| <= |ks|
    ensures forall i :: 0 <= i < |found| ==>
              found[i] in m && (search(term, found[i]) || search(term, m[found[i]]))
  {
    if ks == [] then []
    else
      var k := ks[|ks| - 1];
      Matching(ks[..|ks| - 1], m, term, search)
        + (if search(term, k) || search(term, m[k]) then [k] else [])
  }

  /** A name is in the search result exactly when it is in the dictionary
      and the term is found in the name or in its phone. */
  lemma {:induction false} MatchingExactly(ks: seq<string>, m: map<string, string>, term: string,
                                           search: (string, string) -> bool, x: string)
    requires AllIn(ks, m)
    ensures AllIn(Matching(ks, m, term, search), m)
    ensures x in Matching(ks, m, term, search) <==> x in ks && (search(term, x) || search(term, m[x]))
    decreases |ks|
  {
    if ks != [] {
      var init := ks[..|ks| - 1];
      MatchingExactly(init, m, term, search, x);
      assert ks == init + [ks[|ks| - 1]];
    }
  }

  /** The search keeps the order of the keys: the result for two runs of
      names is the result for the first followed by that for the second. */
  lemma {:induction false} MatchingAppend(a: seq<string>, b: seq<string>, m: map<string, string>,
                                          term: string, search: (string, string) -> bool)
    requires AllIn(a, m) && AllIn(b, m)
    ensures AllIn(a + b, m)
    ensures Matching(a + b, m, term, search) == Matching(a, m, term, search) + Matching(b, m, term, search)
    decreases |b|
  {
    if b != [] {
      var b' := b[..|b| - 1];
      assert (a + b)[..|a + b| - 1] == a + b';
      MatchingAppend(a, b', m, term, search);
    } else {
      assert a + b == a;
    }
  }

  /** No name occurs twice in a sequence. */
  predicate NoDuplicates(s: seq<string>) {
    forall i, j :: 0 <= i < j < |s| ==> s[i] != s[j]
  }

  /** Over keys that occur once each, as a dictionary's do, the search
      result lists each contact at most once. */
  lemma {:induction false} MatchingNoDuplicates(ks: seq<string>, m: map<string, string>, term: string,
                                                search: (string, string) -> bool)
    requires AllIn(ks, m) && NoDuplicates(ks)
    ensures NoDuplicates(Matching(ks, m, term, search))
    decreases |ks|
  {
    if ks != [] {
      var init, k := ks[..|ks| - 1], ks[|ks| - 1];
      MatchingNoDuplicates(init, m, term, search);
      MatchingExactly(init, m, term, search, k);
      assert k !in init;
    }
  }

  // ---------------------------------------------------------------------
  // The handlers

  /** add_contact: exactly two arguments, and the phone must match the
      digits rule; then the name is stored, overwriting an existing phone. */
  method AddContact(args: seq<string>, contacts: Dict) returns (r: Message)
    requires contacts.Valid()
    modifies contacts
    ensures contacts.Valid()
    ensures |args| != 2 ==> r == GiveNameAndPhone && unchanged(contacts)
    ensures |args| == 2 && !MatchesDigits(args[1]) ==> r == DigitsOnly && unchanged(contacts)
    ensures |args| == 2 && MatchesDigits(args[1]) ==>
      && r == ContactAdded
      && contacts.data == old(contacts.data)[args[0] := args[1]]
      && contacts.keys == KeysAfterStore(old(contacts.keys), args[0])
  {
    if |args| != 2 {
      return GiveNameAndPhone;
    }
    var name, phone := args[0], args[1];
    if !MatchesDigits(phone) {
      return DigitsOnly;
    }
    contacts.Store(name, phone);
    return ContactAdded;
  }

  /** add_record (the handler): at least two arguments, the first two being
      name and phone and any further ones ignored; then as add_contact. */
  method AddRecord(args: seq<string>, contacts: Dict) returns (r: Message)
    requires contacts.Valid()
    modifies contacts
    ensures contacts.Valid()
    ensures |args| < 2 ==> r == ProvideNameAndPhoneForRecord && unchanged(contacts)
    ensures |args| >= 2 && !MatchesDigits(args[1]) ==> r == DigitsOnly && unchanged(contacts)
    ensures |args| >= 2 && MatchesDigits(args[1]) ==>
      && r == RecordAdded
      && contacts.data == old(contacts.data)[args[0] := args[1]]
      && contacts.keys == KeysAfterStore(old(contacts.keys), args[0])
  {
    if |args| < 2 {
      return ProvideNameAndPhoneForRecord;
    }
    var name, phone := args[0], args[1];
    if !MatchesDigits(phone) {
      return DigitsOnly;
    }
    contacts.Store(name, phone);
    return RecordAdded;
  }

  /** change_contact: exactly two arguments; an absent name is reported by
      name; a phone failing the digits rule is refused; otherwise only that
      name's phone changes and the names and their order stay the same. */
  method ChangeContact(args: seq<string>, contacts: Dict) returns (r: Message)
    requires contacts.Valid()
    modifies contacts
    ensures contacts.Valid()
    ensures |args| != 2 ==> r == ProvideUsernameAndPhone && unchanged(contacts)
    ensures |args| == 2 && args[0] !in old(contacts.data) ==>
      r == ContactNotFoundNamed(args[0]) && unchanged(contacts)
    ensures |args| == 2 && args[0] in old(contacts.data) && !MatchesDigits(args[1]) ==>
      r == InvalidPhoneForContact && unchanged(contacts)
    ensures |args| == 2 && args[0] in old(contacts.data) && MatchesDigits(args[1]) ==>
      && r == ContactUpdated
      && contacts.data == old(contacts.data)[args[0] := args[1]]
      && contacts.keys == old(contacts.keys)
  {
    if |args| != 2 {
      return ProvideUsernameAndPhone;
    }
    var name, newValue := args[0], args[1];
    if name in contacts.data {
      if MatchesDigits(newValue) {
        contacts.Store(name, newValue);
        return ContactUpdated;
      } else {
        return InvalidPhoneForContact;
      }
    } else {
      return ContactNotFoundNamed(name);
    }
  }

  /** update_phone: the source repeats change_contact's body word for word,
      so it shares that behaviour. */
  method UpdatePhone(args: seq<string>, contacts: Dict) returns (r: Message)
    requires contacts.Valid()
    modifies contacts
    ensures contacts.Valid()
    ensures |args| != 2 ==> r == ProvideUsernameAndPhone && unchanged(contacts)
    ensures |args| == 2 && args[0] !in old(contacts.data) ==>
      r == ContactNotFoundNamed(args[0]) && unchanged(contacts)
    ensures |args| == 2 && args[0] in old(contacts.data) && !MatchesDigits(args[1]) ==>
      r == InvalidPhoneForContact && unchanged(contacts)
    ensures |args| == 2 && args[0] in old(contacts.data) && MatchesDigits(args[1]) ==>
      && r == ContactUpdated
      && contacts.data == old(contacts.data)[args[0] := args[1]]
      && contacts.keys == old(contacts.keys)
  {
    r := ChangeContact(args, contacts);
  }

  /** get_phone: exactly one argument; the reply carries the stored phone
      when the name is present and names the missing contact otherwise. */
  method GetPhone(args: seq<string>, contacts: Dict) returns (r: Message)
    ensures |args| != 1 ==> r == ProvideUsername
    ensures |args| == 1 ==> (r.PhoneFor? <==> args[0] in contacts.data)
    ensures |args| == 1 && args[0] in contacts.data ==>
      r == PhoneFor(args[0], contacts.data[args[0]])
      && Text(r) == "Phone number for " + args[0] + ": " + contacts.data[args[0]]
    ensures |args| == 1 && args[0] !in contacts.data ==> r == ContactNotFoundNamed(args[0])
  {
    if |args| != 1 {
      return ProvideUsername;
    }
    var name := args[0];
    if name in contacts.data {
      return PhoneFor(name, contacts.data[name]);
    } else {
      return ContactNotFoundNamed(name);
    }
  }

  /** get_all_contacts: "No contacts found." for an empty dictionary,
      otherwise a header line and one line per contact in insertion order. */
  method GetAllContacts(contacts: Dict) returns (r: string)
    requires contacts.Valid()
    ensures AllIn(contacts.keys, contacts.data)
    ensures contacts.keys == [] ==> r == Text(NoContacts)
    ensures contacts.keys != [] ==> r == "Contacts:\n" + Lines(contacts.keys, contacts.data)
  {
    if |contacts.keys| == 0 {
      return Text(NoContacts);
    }
    r := AppendLines("Contacts:\n", contacts.keys, contacts.data);
  }

  /** search_records: exactly one argument, the search term; the reply lists
      the contacts, in insertion order, whose name or phone the term is found
      in, or says that none is. `search(term, text)` stands for Python's
      re.search(term, text) finding a match. */
  method SearchRecords(args: seq<string>, contacts: Dict, search: (string, string) -> bool)
    returns (r: string)
    requires contacts.Valid()
    ensures AllIn(contacts.keys, contacts.data)
    ensures |args| != 1 ==> r == Text(ProvideSearchTerm)
    ensures |args| == 1 ==>
      var found := Matching(contacts.keys, contacts.data, args[0], search);
      && AllIn(found, contacts.data)
      && (found == [] ==> r == Text(NoMatchingContacts))
      && (found != [] ==> r == "Matching contacts:\n" + Lines(found, contacts.data))
  {
    if |args| != 1 {
      return Text(ProvideSearchTerm);
    }
    var term := args[0];
    var found := [];
    var i := 0;
    while i < |contacts.keys|
      invariant 0 <= i <= |contacts.keys|
      invariant found == Matching(contacts.keys[..i], contacts.data, term, search)
    {
      var name := contacts.keys[i];
      assert contacts.keys[..i + 1][..i] == contacts.keys[..i];
      if search(term, name) || search(term, contacts.data[name]) {
        found := found + [name];
      }
      i := i + 1;
    }
    assert contacts.keys[..i] == contacts.keys;
    forall x | x in found ensures x in contacts.data {
      MatchingExactly(contacts.keys, contacts.data, term, search, x);
    }
    if found == [] {
      return Text(NoMatchingContacts);
    }
    r := AppendLines("Matching contacts:\n", found, contacts.data);
  }

  // ---------------------------------------------------------------------
  // Scenarios across handlers

  /** Adding a contact with a digits-only phone and then asking for its
      phone gives back that phone, whatever the dictionary held before. */
  method AddThenGetPhone(contacts: Dict, name: string, phone: string)
    returns (added: Message, reply: Message)
    requires contacts.Valid() && MatchesDigits(phone)
    modifies contacts
    ensures added == ContactAdded
    ensures reply == PhoneFor(name, phone)
    ensures Text(reply) == "Phone number for " + name + ": " + phone
  {
    added := AddContact([name, phone], contacts);
    reply := GetPhone([name], contacts);
  }

  /** The listing of two names is their two lines, in that order. */
  lemma LinesOfTwo(a: string, b: string, m: map<string, string>)
    requires a in m && b in m
    ensures Lines([a, b], m) == Line(a, m[a]) + Line(b, m[b])
  {
    assert [a, b][..1] == [a] && [a][..0] == [];
    assert Lines([a], m) == "" + Line(a, m[a]) == Line(a, m[a]);
  }

  /** The two sample phones pass the digits rule. */
  lemma SamplePhonesMatch()
    ensures MatchesDigits("1234567890") && MatchesDigits("0987654321")
  {
    assert AllDigits("1234567890") && AllDigits("0987654321");
  }

  /** Adds A and then B to a fresh dictionary. */
  method AddTwo() returns (contacts: Dict)
    ensures contacts.Valid()
    ensures contacts.keys == ["A", "B"]
    ensures contacts.data == map["A" := "1234567890", "B" := "0987654321"]
  {
    SamplePhonesMatch();
    contacts := new Dict();
    var _ := AddContact(["A", "1234567890"], contacts);
    var _ := AddContact(["B", "0987654321"], contacts);
  }

  /** After adding A and then B to a fresh dictionary, the listing holds
      both, A first. */
  method ListTwoContacts() returns (after: string)
    ensures after == "Contacts:\n" + Line("A", "1234567890") + Line("B", "0987654321")
  {
    var contacts := AddTwo();
    after := GetAllContacts(contacts);
    LinesOfTwo("A", "B", contacts.data);
  }
}
