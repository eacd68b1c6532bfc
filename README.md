# Contact manager: a Dafny model

This project models the in-memory part of a small command-line contact
manager. It covers four pieces:

- **The input parser.** `parse_input` splits a line into a lower-cased
  command word and its argument words. The `input_error` wrapper turns a
  line with no words into the fixed reply "Invalid command or argument.
  Please try again." (module `Parse`, file `parse.dfy`).
- **The `Phone` field.** A number is valid iff it is exactly ten digits
  (module `Phones`, `phones.dfy`).
- **The `Record` class.** It holds an ordered list of `Phone` objects and
  offers `add_phone`, `remove_phone`, `edit_phone` and `find_phone`.
  `add_phone` appends a new phone without looking for an equal number, so a
  number can be held twice. The other three scan the list from the front and
  act on the first exact match (module `Records`, `records.dfy`).
- **The `AddressBook` class.** It is a name-to-phone dictionary that
  refuses duplicates (module `AddressBooks`, `address_book.dfy`).

It also models the command handlers that work on a plain `contacts`
dictionary: `add_contact`, `add_record`, `change_contact`, `update_phone`,
`get_phone`, `get_all_contacts` and `search_records`. They live in module
`Contacts` (`contacts.dfy`), and the dictionary is the class `Contacts.Dict`.
That class keeps a map plus the insertion order of its keys, so listings come
out in the order Python's `dict.items()` gives. Overwriting a key keeps its
place.

Every fixed reply is a variant of `Messages.Message`, and `Messages.Text`
gives its exact wording (`messages.dfy`). `get_all_contacts` and
`search_records` return their listings as strings: a header followed by one
line per contact. Character classes live in module `Chars`
(`chars.dfy`).

Points where the code behaves in a way a reader might not expect, and which
the model keeps:

- The handlers accept any digit string of any length. They do not apply the
  ten-digit rule, so `add_contact` with a wrong-length phone stores it.
- `re.match(r'^\d+$', s)` also accepts digits followed by one final newline,
  because `$` matches before a trailing `"\n"`. `Contacts.MatchesDigits`
  models this. `Contacts.DigitsRuleOnWords` proves that on whitespace-free
  words, which are all that `parse_input` produces, the rule is exactly
  "non-empty, all digits".
- `edit_phone` can store an invalid number. `set_value` (DZ_Modul_9_1.py:184)
  is commented as setting the value and checking its format. As written, it
  assigns first, so a failed check leaves the new number stored. See
  Findings below.
- Whitespace for splitting is exactly the set of characters for which
  Python's `str.isspace` holds (`Chars.IsSpace`).

## Model

| member | source | states |
|---|---|---|
| `Chars.LowerChar` | DZ_Modul_9_1.py:13 | an upper-case letter becomes the lower-case letter at the same place in the alphabet; every other character is unchanged |
| `Chars.Lower` | DZ_Modul_9_1.py:13 | the lower-cased command has the input's length; each upper-case ASCII letter becomes its own lower-case letter and every other character is kept, so no upper-case letter remains and no whitespace appears |
| `Chars.LowerFixesLowercase` | DZ_Modul_9_1.py:13 | lower-casing a string without upper-case letters returns it unchanged (so lower-casing is idempotent) |
| `Parse.Split` | DZ_Modul_9_1.py:12 | every word produced by `str.split()` is non-empty and contains no whitespace |
| `Parse.SplitBlank` | DZ_Modul_9_1.py:12 | splitting yields no word iff the line is empty or all whitespace |
| `Parse.SplitSkipsSpace` | DZ_Modul_9_1.py:12 | leading whitespace of any length does not change the words |
| `Parse.SplitWordThen` | DZ_Modul_9_1.py:12 | a word followed by whitespace or by the end is split off whole, as the first word |
| `Parse.Join` | DZ_Modul_9_1.py:12 | the reference line for a word list, its words separated by single spaces: it starts with the first word |
| `Parse.SplitJoin` | DZ_Modul_9_1.py:12 | splitting the words joined by spaces gives back exactly those words, in order |
| `Parse.ParseInput` | DZ_Modul_9_1.py:1-15 | a failure carries the wrapper's fixed reply; on success the command is a non-empty word without upper-case letters and every argument is a word |
| `Parse.ParseInputBlank` | DZ_Modul_9_1.py:1-15 | parse_input fails iff the line is empty or all whitespace, and then replies "Invalid command or argument. Please try again." |
| `Parse.ParseInputWords` | DZ_Modul_9_1.py:10-15 | on a line of words, the command is the first word lower-cased and the arguments are the remaining words in order |
| `Messages.Text` | DZ_Modul_9_1.py:7-248 | the exact reply strings returned throughout the file, from the wrapper's reply at line 7 to the address book's at lines 233-248; what the formatted ones carry is stated by `Messages.RepliesCarryTheirData` |
| `Messages.RepliesCarryTheirData` | DZ_Modul_9_1.py:76-78 | the replies of `get_phone` (lines 76, 78) and `find` (line 239) report their data: the two that report a stored phone end with that phone, and the not-found reply quotes the missing name |
| `Phones.ValidatePhone` | DZ_Modul_9_1.py:180-182 | validation passes iff the value has exactly 10 characters, all of them '0'..'9'; otherwise it fails with "Phone number must be exactly 10 digits." |
| `Phones.Phone.Create` | DZ_Modul_9_1.py:175-178 | construction yields a fresh phone holding the number together with the validation outcome of that number |
| `Phones.Phone.Init` | DZ_Modul_9_1.py:176-177 | a new phone object holds the given number (validation is done by `Create`) |
| `Phones.Phone.Validate` | DZ_Modul_9_1.py:180-182 | the check passes iff the stored value satisfies the ten-digit rule; a failure carries the ten-digit message |
| `Phones.Phone.SetValue` | DZ_Modul_9_1.py:184-186 | the new number is stored whatever the validation outcome, and that outcome is returned |
| `Phones.Phone.GetValue` | DZ_Modul_9_1.py:188-189 | returns the stored number, reading only the phone itself |
| `Records.RemoveFirst` | DZ_Modul_9_1.py:204-209 | the reference list after `remove_phone`: one entry shorter iff the number was present, otherwise the same length |
| `Records.ReplaceFirst` | DZ_Modul_9_1.py:211-219 | the reference list after `edit_phone`: the length never changes |
| `Records.Record.Numbers` | DZ_Modul_9_1.py:194 | the numbers of a record, one per phone object, in list order |
| `Records.RemoveFirstAt` | DZ_Modul_9_1.py:204-209 | removal deletes exactly the first occurrence; the entries before and after keep their order |
| `Records.RemoveFirstAbsent` | DZ_Modul_9_1.py:204-209 | removing a number that is not present leaves the list unchanged |
| `Records.RemoveFirstCount` | DZ_Modul_9_1.py:204-209 | removal takes away one copy of the number if there is one, and nothing else (multiset difference) |
| `Records.AppendThenRemove` | DZ_Modul_9_1.py:196-209 | appending a new number and then removing it gives back the original list |
| `Records.ReplaceFirstAt` | DZ_Modul_9_1.py:211-219 | editing replaces only the first occurrence: same length, new number at that index, all other entries unchanged |
| `Records.ReplaceFirstAbsent` | DZ_Modul_9_1.py:211-219 | editing a number that is not present leaves the list unchanged |
| `Records.ValidityKept` | DZ_Modul_9_1.py:196-209 | appending a valid number, or removing any number, keeps a list of valid numbers valid |
| `Records.EditStoresInvalid` | DZ_Modul_9_1.py:211-219 | an edit whose new number fails the ten-digit rule still stores that number, so the list is no longer all valid |
| `Records.Record.constructor` | DZ_Modul_9_1.py:192-194 | a new record has the given name and no phones |
| `Records.Record.AddPhone` | DZ_Modul_9_1.py:196-202 | a valid number is appended at the end as a fresh phone object, the earlier phone objects kept in place, and the reply is "Phone number added."; an invalid number leaves the list unchanged and the reply is the validation message; validity of all numbers is preserved |
| `Records.Record.Scan` | DZ_Modul_9_1.py:221-225 | the scan each list method runs: the index of the first phone holding the number, or the list length exactly when no phone holds it; nothing changes |
| `Records.Record.RemoveAt` | DZ_Modul_9_1.py:207 | `list.remove` of the found phone: the phone objects, and so the numbers, lose exactly that position, the others keep their order, no phone object is duplicated |
| `Records.Record.RemovePhone` | DZ_Modul_9_1.py:204-209 | the numbers become the old ones with the first match removed, and the phone objects lose exactly the one at that first match, the others kept in order; the reply is "removed" iff the number was present, otherwise "not found" with the same phone objects |
| `Records.Record.EditPhone` | DZ_Modul_9_1.py:211-219 | the numbers become the old ones with the first match replaced, even when the new number is invalid; the phone objects stay the same; the reply is "not found", "updated" or the validation message |
| `Records.Record.EditPhoneValidated` | DZ_Modul_9_1.py:211-219 | corrected edit: an invalid new number leaves every number unchanged, so a record of valid numbers stays valid |
| `Records.Record.FindPhone` | DZ_Modul_9_1.py:221-225 | the reply is "Phone number found." iff some phone holds the number, otherwise "Phone number not found."; nothing changes |
| `AddressBooks.AddressBook.constructor` | DZ_Modul_9_1.py:228-229 | a new book is empty |
| `AddressBooks.AddressBook.AddRecord` | DZ_Modul_9_1.py:231-235 | an existing name is refused with the book unchanged; otherwise exactly that name is added with its phone |
| `AddressBooks.AddressBook.Find` | DZ_Modul_9_1.py:237-241 | the reply reports the stored phone iff the name is present, otherwise "Contact not found." |
| `AddressBooks.AddressBook.Delete` | DZ_Modul_9_1.py:243-248 | exactly the given name is removed; an absent name gets "Contact not found." with the book unchanged |
| `AddressBooks.AddFindDelete` | DZ_Modul_9_1.py:231-248 | add then find returns the phone; a second add is refused; delete restores the book as it was before the add |
| `Contacts.MatchesDigits` | DZ_Modul_9_1.py:25 | `re.match(r'^\d+$', s)` as written, also used at lines 49, 62 and 86: it holds iff s is non-empty, every character but the last is a digit, and the last is a digit or, after at least one digit, a newline |
| `Contacts.DigitsRuleOnWords` | DZ_Modul_9_1.py:25 | on a whitespace-free word, `^\d+$` accepts exactly the non-empty all-digit strings |
| `Contacts.TrailingNewlineMatches` | DZ_Modul_9_1.py:25 | `^\d+$` also accepts digits followed by a final newline, which are not all digits |
| `Contacts.PhoneRuleStricter` | DZ_Modul_9_1.py:181 | every valid ten-digit phone satisfies the handlers' digits rule, but "123" satisfies the digits rule without being a valid phone, so the two rules differ |
| `Contacts.Dict.constructor` | DZ_Modul_9_1.py:20-27 | the `contacts` dictionary the handlers work on starts empty, with no keys in its insertion order |
| `Contacts.KeysAfterStore` | DZ_Modul_9_1.py:27 | after `d[k] = v` the key order contains k and exactly the old keys besides |
| `Contacts.Dict.Store` | DZ_Modul_9_1.py:27 | dictionary assignment: the map gains or overwrites k, a new key goes last, an existing key keeps its place |
| `Contacts.Line` | DZ_Modul_9_1.py:108 | the f-string `f"{name}: {phone}\n"`, also at line 39: the name, then ": ", then the phone, then one newline |
| `Contacts.Lines` | DZ_Modul_9_1.py:107-108 | the listing of a list of names: empty iff there are no names |
| `Contacts.LinesAppend` | DZ_Modul_9_1.py:107-108 | the listing of two runs of names is the first listing followed by the second |
| `Contacts.ListsEachInOrder` | DZ_Modul_9_1.py:103-109 | each name's own line, with its own phone, sits after the lines of earlier names and before those of later ones |
| `Contacts.AppendLines` | DZ_Modul_9_1.py:106-108 | the accumulating `+=` loop yields the header followed by one "name: phone\n" line per name, in order |
| `Contacts.Matching` | DZ_Modul_9_1.py:35 | the comprehension's result: no longer than the key list, and every name in it is in the dictionary and is matched by name or by phone |
| `Contacts.MatchingExactly` | DZ_Modul_9_1.py:35 | a name is in the search result iff it is in the dictionary and the term is found in the name or in its phone |
| `Contacts.MatchingAppend` | DZ_Modul_9_1.py:35 | the comprehension keeps the order of `contacts.items()`: the result for two runs of names is the first run's result followed by the second's |
| `Contacts.MatchingNoDuplicates` | DZ_Modul_9_1.py:35 | over keys that occur once each, as a dictionary's do, the result lists each contact at most once |
| `Contacts.AddContact` | DZ_Modul_9_1.py:20-28 | a count other than 2 or a phone failing `^\d+$` leaves the dictionary unchanged with the matching reply; otherwise the name gets the phone (inserted or overwritten in place) and the reply is "Contact added." |
| `Contacts.AddRecord` | DZ_Modul_9_1.py:45-52 | fewer than 2 arguments or a bad phone leaves the dictionary unchanged; otherwise the first two arguments are stored, the rest ignored, and the reply is "Record added." |
| `Contacts.ChangeContact` | DZ_Modul_9_1.py:57-68 | an absent name gets "Contact 'name' not found." and a bad phone gets the invalid-phone reply, both with the dictionary unchanged; on success only that name's phone changes and the keys and their order stay the same |
| `Contacts.UpdatePhone` | DZ_Modul_9_1.py:81-92 | the same behaviour as change_contact, whose body it repeats |
| `Contacts.GetPhone` | DZ_Modul_9_1.py:71-78 | with one argument the reply is "Phone number for name: phone" iff the name is present, otherwise it names the missing contact |
| `Contacts.GetAllContacts` | DZ_Modul_9_1.py:103-109 | "No contacts found." for an empty dictionary; otherwise "Contacts:\n" followed by one "name: phone\n" line per entry in insertion order |
| `Contacts.SearchRecords` | DZ_Modul_9_1.py:31-42 | with one argument, the reply lists in insertion order exactly the contacts matched by name or phone, or "No matching contacts found." |
| `Contacts.AddThenGetPhone` | DZ_Modul_9_1.py:71-78 | after add_contact with a digits-only phone, get_phone returns "Phone number for name: phone", whatever the dictionary held before |
| `Contacts.ListTwoContacts` | DZ_Modul_9_1.py:103-109 | after adding A and then B to an empty dictionary, the listing is the header followed by A's line and then B's |

## Left out

- `main` (DZ_Modul_9_1.py:122-149) is not modelled. It is the interactive loop that reads standard input, dispatches commands and prints. This includes its use of a `contacts` name that the function never defines.
- `show_all_contacts` and `show_available_commands` are not modelled, because they only print.
- `Field` and `Name` are not modelled, because they are plain getter and setter wrappers. A record's name is a plain string.
- Digits are ASCII '0'..'9' and lower-casing maps only ASCII letters. Python's `str.isdigit`, `\d` and `str.lower` also handle other Unicode characters.
- Contacts.SearchRecords: the regular-expression engine is not modelled. `re.search(term, text)` is a parameter `search(term, text)`. The `re.error` raised by a malformed pattern is not modelled, and `input_error` would not catch it.
- Records.Record.Valid requires that no `Phone` object appears twice in one record. Every record built through `add_phone` satisfies this. The model does not cover a list that aliases one phone at two positions.
- AddressBooks.AddressBook: the source accepts a phone of any Python type. The model stores strings.
- The `input_error` wrapper is modelled only around `parse_input`. None of the handlers can raise `KeyError`, `ValueError` or `IndexError`, so around them it never changes the reply.

## Findings

| source | as written | input that shows it | evidently intended | confidence | as-written member | corrected member |
|---|---|---|---|---|---|---|
| DZ_Modul_9_1.py:211-219 | `edit_phone` calls `set_value`, which stores the new number before validating it (lines 184-186). When validation fails, the error text is returned but the invalid number stays in the list. | A record holding "0123456789". `edit_phone("0123456789", "12")` replies "Phone number must be exactly 10 digits." and the record then holds "12". | An invalid number is refused and the record is left unchanged, so every stored number stays valid. | high; not executed | `Records.Record.EditPhone`, with `Records.EditStoresInvalid` | `Records.Record.EditPhoneValidated` |
