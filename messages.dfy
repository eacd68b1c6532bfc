/** The status replies of the contact manager. Every operation of the source
    returns one of a fixed set of strings, some of them formatted with a name
    or a phone number; here each is a variant and `Text` gives its exact
    wording. */
module Messages {

  datatype Message =
    // Phone and Record
    | PhoneMustBeTenDigits
    | PhoneAdded
    | PhoneRemoved
    | PhoneUpdated
    | PhoneFound
    | PhoneNotFound
    // AddressBook
    | ContactExists
    | ContactFoundIn(name: string, phone: string)
    | ContactMissing
    | ContactDeleted
    // command handlers (ContactAdded is shared with AddressBook)
    | ContactAdded
    | GiveNameAndPhone
    | DigitsOnly
    | ProvideNameAndPhoneForRecord
    | RecordAdded
    | ProvideUsernameAndPhone
    | ContactUpdated
    | InvalidPhoneForContact
    | ContactNotFoundNamed(name: string)
    | ProvideUsername
    | PhoneFor(name: string, phone: string)
    | ProvideSearchTerm
    | NoMatchingContacts
    | NoContacts
    // the input_error wrapper
    | InvalidCommandOrArgument

  /** The string the source returns for each reply. */
  function Text(m: Message): (r: string)
  {
    match m
    case PhoneMustBeTenDigits => "Phone number must be exactly 10 digits."
    case PhoneAdded => "Phone number added."
    case PhoneRemoved => "Phone number removed."
    case PhoneUpdated => "Phone number updated."
    case PhoneFound => "Phone number found."
    case PhoneNotFound => "Phone number not found."
    case ContactExists => "Contact with this name already exists."
    case ContactFoundIn(name, phone) => "Contact found: " + name + ": " + phone
    case ContactMissing => "Contact not found."
    case ContactDeleted => "Contact deleted."
    case ContactAdded => "Contact added."
    case GiveNameAndPhone => "Give me name and phone, please."
    case DigitsOnly => "Phone number must contain only digits."
    case ProvideNameAndPhoneForRecord =>
      "Invalid command. Please provide a name and a phone number for the new record."
    case RecordAdded => "Record added."
    case ProvideUsernameAndPhone =>
      "Invalid command. Please provide both username and new phone number."
    case ContactUpdated => "Contact updated."
    case InvalidPhoneForContact =>
      "Invalid phone number. Please provide a valid phone number for the contact."
    case ContactNotFoundNamed(name) => "Contact '" + name + "' not found."
    case ProvideUsername => "Invalid command. Please provide username."
    case PhoneFor(name, phone) => "Phone number for " + name + ": " + phone
    case ProvideSearchTerm =>
      "Invalid command. Please provide a name or phone number to search for."
    case NoMatchingContacts => "No matching contacts found."
    case NoContacts => "No contacts found."
    case InvalidCommandOrArgument => "Invalid command or argument. Please try again."
  }

  /** The two replies that report a stored phone end with that phone, and
      the handlers' not-found reply quotes the missing name. */
  lemma RepliesCarryTheirData(name: string, phone: string)
    ensures var r := Text(ContactFoundIn(name, phone)); |r| >= |phone| && r[|r| - |phone|..] == phone
    ensures var r := Text(PhoneFor(name, phone)); |r| >= |phone| && r[|r| - |phone|..] == phone
    ensures var r := Text(ContactNotFoundNamed(name)); |r| > 9 + |name| && r[9..9 + |name|] == name
  {
  }

  /** The outcome of a check that either passes or fails with a reply
      (a raised ValueError carrying that text in the source). */
  datatype Outcome = Pass | Fail(error: Message)
}
