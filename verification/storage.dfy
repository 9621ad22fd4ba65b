/** The `ContactStorage` object of storage.py: the in-memory list, plus a
    ghost record of what the contacts file is known to hold. Every change
    is followed by a save whose outcome the model does not decide: a failed
    save is only reported, and the in-memory change stays. The ghost result
    `save` of each mutating method tells whether a save ran and how it
    ended; the boolean the method reports does not depend on it. */
module Storage {
  import opened Wrappers
  import opened ContactRecord
  import opened ContactModel
  import ContactStore
  import opened Persistence

  class ContactStorage {
    var contacts: seq<Contact>

    /** The contact list the file is known to hold: what was loaded from it,
        or what was last written in full. None while the file holds no list
        this store has read or written: it was missing or unreadable at
        start, or a save emptied it and then failed. */
    ghost var persisted: Option<seq<Contact>>

    ghost predicate Consistent()
      reads this
    {
      AllValid(contacts)
    }

    constructor (loaded: seq<Contact>, ghost fromFile: bool)
      requires AllValid(loaded)
      ensures Consistent()
      ensures contacts == loaded
      ensures persisted == if fromFile then Some(loaded) else None
    {
      contacts := loaded;
      persisted := if fromFile then Some(loaded) else None;
    }

    /** `save_contacts`: the in-memory list is never touched. A save that
        fails before the file is opened leaves the file as it was; one that
        fails after `open(..., "w")` leaves it empty or cut short. */
    method SaveContacts() returns (ghost outcome: SaveOutcome)
      modifies this
      ensures contacts == old(contacts)
      ensures outcome.Written? ==> persisted == Some(contacts)
      ensures outcome.NotOpened? ==> persisted == old(persisted)
      ensures outcome.CutShort? ==> persisted == None
    {
      outcome :| true;
      match outcome
      case Written => persisted := Some(contacts);
      case NotOpened =>
      case CutShort(_) => persisted := None;
    }

    method AddContact(contact: Contact) returns (added: bool, ghost save: Option<SaveOutcome>)
      requires Consistent() && Valid(contact)
      modifies this
      ensures Consistent()
      ensures added == ContactStore.AddContact(old(contacts), contact).applied
      ensures contacts == ContactStore.AddContact(old(contacts), contact).contacts
      ensures added <==> save.Some?
      ensures !added ==> persisted == old(persisted)
      ensures added && save.value.Written? ==> persisted == Some(contacts)
      ensures added && save.value.NotOpened? ==> persisted == old(persisted)
      ensures added && save.value.CutShort? ==> persisted == None
    {
      ContactStore.AddAndUpdateKeepValidity(contacts, contact.name, contact);
      var change := ContactStore.AddContact(contacts, contact);
      if !change.applied {
        return false, None;
      }
      contacts := change.contacts;
      var outcome := SaveContacts();
      return true, Some(outcome);
    }

    method GetAllContacts() returns (r: seq<Contact>)
      ensures r == ContactStore.GetAllContacts(contacts)
    {
      r := ContactStore.GetAllContacts(contacts);
    }

    method GetContactByName(name: string) returns (r: Option<Contact>)
      ensures r == ContactStore.GetContactByName(contacts, name)
    {
      r := ContactStore.GetContactByName(contacts, name);
    }

    method UpdateContact(name: string, updated: Contact) returns (ok: bool, ghost save: Option<SaveOutcome>)
      requires Consistent() && Valid(updated)
      modifies this
      ensures Consistent()
      ensures ok == ContactStore.UpdateContact(old(contacts), name, updated).applied
      ensures contacts == ContactStore.UpdateContact(old(contacts), name, updated).contacts
      ensures ok <==> save.Some?
      ensures !ok ==> persisted == old(persisted)
      ensures ok && save.value.Written? ==> persisted == Some(contacts)
      ensures ok && save.value.NotOpened? ==> persisted == old(persisted)
      ensures ok && save.value.CutShort? ==> persisted == None
    {
      ContactStore.AddAndUpdateKeepValidity(contacts, name, updated);
      var change := ContactStore.UpdateContact(contacts, name, updated);
      if !change.applied {
        return false, None;
      }
      contacts := change.contacts;
      var outcome := SaveContacts();
      return true, Some(outcome);
    }

    method DeleteContact(name: string) returns (ok: bool, ghost save: Option<SaveOutcome>)
      requires Consistent()
      modifies this
      ensures Consistent()
      ensures ok == ContactStore.DeleteContact(old(contacts), name).applied
      ensures contacts == ContactStore.DeleteContact(old(contacts), name).contacts
      ensures ok <==> save.Some?
      ensures !ok ==> persisted == old(persisted)
      ensures ok && save.value.Written? ==> persisted == Some(contacts)
      ensures ok && save.value.NotOpened? ==> persisted == old(persisted)
      ensures ok && save.value.CutShort? ==> persisted == None
    {
      ContactStore.DeleteKeepsValidity(contacts, name);
      var change := ContactStore.DeleteContact(contacts, name);
      if !change.applied {
        return false, None;
      }
      contacts := change.contacts;
      var outcome := SaveContacts();
      return true, Some(outcome);
    }
  }

  /** `ContactStorage()`: load the file, falling back to an empty list when
      it is missing or unreadable; a record that fails validation, or a file
      that is not UTF-8 text, aborts. */
  method Open(file: StoredFile, parseIso: string -> Option<Timestamp>) returns (r: Result<ContactStorage, LoadError>)
    ensures r.Success? <==> LoadContacts(file, parseIso).Success?
    ensures r.Failure? ==> r.error == LoadContacts(file, parseIso).error
    ensures r.Success? ==> fresh(r.value) && r.value.Consistent()
    ensures r.Success? ==> r.value.contacts == LoadContacts(file, parseIso).value
    ensures r.Success? ==> r.value.persisted == if file.Document? then Some(r.value.contacts) else None
  {
    match LoadContacts(file, parseIso)
    case Failure(e) =>
      return Failure(e);
    case Success(loaded) =>
      var store := new ContactStorage(loaded, file.Document?);
      return Success(store);
  }
}
