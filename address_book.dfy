/** `AddressBook`: a dictionary from contact name to phone. It never
    validates the phone it is given, refuses to overwrite a name it already
    holds, and looks names up without changing anything. */
module AddressBooks {
  import opened Messages

  class AddressBook {
    var data: map<string, string>

    constructor ()
      ensures data == map[]
    {
      data := map[];
    }

    /** add_record: a name already present is refused and the book is left
        as it was; otherwise exactly that name is added. */
    method AddRecord(name: string, phone: string) returns (r: Message)
      modifies this
      ensures name in old(data) ==> r == ContactExists && data == old(data)
      ensures name !in old(data) ==> r == ContactAdded && data == old(data)[name := phone]
      ensures data.Keys == old(data.Keys) + {name}
    {
      if name in data {
        return ContactExists;
      }
      data := data[name := phone];
      return ContactAdded;
    }

    /** find: reports the phone stored under the name; nothing changes. */
    method Find(name: string) returns (r: Message)
      ensures r.ContactFoundIn? <==> name in data
      ensures name in data ==> r == ContactFoundIn(name, data[name])
                               && Text(r) == "Contact found: " + name + ": " + data[name]
      ensures name !in data ==> r == ContactMissing
    {
      if name in data {
        return ContactFoundIn(name, data[name]);
      }
      return ContactMissing;
    }

    /** delete: removes the name and nothing else; an absent name is
        reported and the book is left as it was. */
    method Delete(name: string) returns (r: Message)
      modifies this
      ensures name in old(data) ==> r == ContactDeleted
      ensures name !in old(data) ==> r == ContactMissing && data == old(data)
      ensures data == old(data) - {name}
    {
      if name in data {
        data := data - {name};
        return ContactDeleted;
      }
      return ContactMissing;
    }
  }

  /** Adding a new name, finding it, adding it again and deleting it: the
      second add is refused without overwriting, and the delete gives back
      the book as it was before the first add. */
  method AddFindDelete(book: AddressBook, name: string, phone: string, other: string)
    returns (added: Message, found: Message, again: Message, deleted: Message)
    requires name !in book.data
    modifies book
    ensures added == ContactAdded && again == ContactExists && deleted == ContactDeleted
    ensures found == ContactFoundIn(name, phone)
    ensures book.data == old(book.data)
  {
    added := book.AddRecord(name, phone);
    found := book.Find(name);
    again := book.AddRecord(name, other);
    deleted := book.Delete(name);
    assert book.data == old(book.data)[name := phone] - {name};
  }
}
