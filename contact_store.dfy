/** The storage-backed handlers of the screens. Each handler reads the whole
    collection from the one storage key, edits a JavaScript array in place and
    writes the whole collection back. */
module ContactStore {
  import opened Calendar
  import opened Contacts

  /** A JavaScript array of contacts whose elements the handlers change in place. */
  class ContactArray {
    var items: seq<Contact>

    /** The array literal `[]`, a parsed collection, or the spread copy `[...other]`. */
    constructor (s: seq<Contact>)
      ensures items == s
    {
      items := s;
    }

    /** `push(c)`. */
    method Push(c: Contact)
      modifies this
      ensures items == Appended(old(items), c)
    {
      items := items + [c];
    }

    /** `splice(start, 1)`. */
    method Splice(start: int)
      modifies this
      ensures items == SpliceOne(old(items), start)
    {
      items := SpliceOne(items, start);
    }

    /** Element assignment `a[i] = c` at an existing index. */
    method Set(i: nat, c: Contact)
      requires i < |items|
      modifies this
      ensures items == old(items)[i := c]
    {
      items := items[i := c];
    }
  }

  /** The persistent key-value store restricted to its one key, "contacts":
      None until something has been written. */
  class ContactStorage {
    var stored: Option<seq<Contact>>

    /** A store to which nothing has been written yet. */
    constructor ()
      ensures stored.None?
    {
      stored := None;
    }

    /** `getItem('contacts')`, parsed. */
    method GetItem() returns (value: Option<seq<Contact>>)
      ensures value == stored
    {
      value := stored;
    }

    /** `setItem('contacts', ...)` of a serialised collection. */
    method SetItem(contacts: seq<Contact>)
      modifies this
      ensures stored == Some(contacts)
    {
      stored := Some(contacts);
    }
  }

  /** The list screens' `fetchContacts`: the stored collection, empty if nothing is stored. */
  method FetchContacts(storage: ContactStorage) returns (contacts: seq<Contact>)
    ensures contacts == Load(storage.stored)
    ensures storage.stored.None? ==> contacts == []
  {
    var storedContacts := storage.GetItem();
    contacts := Load(storedContacts);
  }

  /** The add screen's `saveContact`: a record of the five form values, with no
      interaction yet, goes last, after every record already stored, whatever its name. */
  method SaveContact(storage: ContactStorage, name: string, birthdate: Date, dateMet: Date, sparks: string, howWeMet: string)
    modifies storage
    ensures storage.stored == Some(Appended(Load(old(storage.stored)), NewContact(name, birthdate, dateMet, sparks, howWeMet)))
  {
    var contact := NewContact(name, birthdate, dateMet, sparks, howWeMet);
    var storedContacts := storage.GetItem();
    var contacts := new ContactArray(Load(storedContacts));
    contacts.Push(contact);
    storage.SetItem(contacts.items);
  }

  /** The swipe-to-delete confirmation: splices the row out of a copy of the
      list the screen shows (not of a fresh load), stores the copy and returns
      it as the screen's new list; the shown array itself is left as it was. */
  method SwipeDelete(storage: ContactStorage, shown: ContactArray, rowKey: int) returns (updated: ContactArray)
    modifies storage
    ensures fresh(updated)
    ensures updated.items == SpliceOne(old(shown.items), rowKey)
    ensures storage.stored == Some(updated.items)
    ensures shown.items == old(shown.items)
  {
    updated := new ContactArray(shown.items);
    updated.Splice(rowKey);
    storage.SetItem(updated.items);
  }

  /** The details screen's delete button: removes the first stored record with
      this name; with no such record nothing is written at all. */
  method DeleteByName(storage: ContactStorage, name: string)
    modifies storage
    ensures IndexOfName(Load(old(storage.stored)), name) != -1 ==>
      storage.stored == Some(DeletedByName(Load(old(storage.stored)), name))
    ensures IndexOfName(Load(old(storage.stored)), name) == -1 ==> storage.stored == old(storage.stored)
  {
    var storedContacts := storage.GetItem();
    var contacts := new ContactArray(Load(storedContacts));
    var index := IndexOfName(contacts.items, name);
    if index != -1 {
      contacts.Splice(index);
      storage.SetItem(contacts.items);
    }
  }

  /** The update screen's `handleUpdate`: merges the interaction into the first
      stored record with this name; with no such record nothing is written. */
  method HandleUpdate(storage: ContactStorage, name: string, lastInteractionDate: Date, lastInteractionDetails: string)
    modifies storage
    ensures IndexOfName(Load(old(storage.stored)), name) != -1 ==>
      storage.stored == Some(UpdatedByName(Load(old(storage.stored)), name, lastInteractionDate, lastInteractionDetails))
    ensures IndexOfName(Load(old(storage.stored)), name) == -1 ==> storage.stored == old(storage.stored)
  {
    var storedContacts := storage.GetItem();
    var contacts := new ContactArray(Load(storedContacts));
    var contactIndex := IndexOfName(contacts.items, name);
    if contactIndex != -1 {
      var updatedContact := Merge(contacts.items[contactIndex], lastInteractionDate, lastInteractionDetails);
      contacts.Set(contactIndex, updatedContact);
      storage.SetItem(contacts.items);
    }
  }

  /** The details screen's lookup on focus: the first stored record with the
      shown contact's name, if any. The source discards the result, so the
      screen keeps showing the contact it was opened with. */
  method FetchUpdatedContact(storage: ContactStorage, name: string) returns (updatedContact: Option<Contact>)
    ensures updatedContact == FindByName(Load(storage.stored), name)
    ensures updatedContact.Some? ==> updatedContact.value == Load(storage.stored)[IndexOfName(Load(storage.stored), name)]
  {
    var storedContacts := storage.GetItem();
    var contacts := Load(storedContacts);
    updatedContact := FindByName(contacts, name);
    FindIsFirstMatch(contacts, name);
  }
}
