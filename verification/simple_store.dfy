/** The in-memory store of services/storage.py: the same CRUD interface
    over the plain record, with no duplicate check, no sorting, no merge of
    `last_contacted` and no persistence. Each operation is the scan its
    loop performs, written as a recursion over the list. */
module SimpleStore {
  import opened Wrappers
  import opened CaseFold
  import opened ContactRecord
  import opened NameIndex
  import opened StoreChange

  /** `add_contact`: always appends, whatever the name. */
  function AddContact(cs: seq<Contact>, contact: Contact): (r: seq<Contact>)
    ensures |r| == |cs| + 1
    ensures r[..|cs|] == cs && r[|cs|] == contact
  {
    cs + [contact]
  }

  /** `get_all_contacts`: the stored list itself, in insertion order and unsorted. */
  function GetAllContacts(cs: seq<Contact>): (r: seq<Contact>)
    ensures |r| == |cs| && forall i :: 0 <= i < |r| ==> r[i] == cs[i]
  {
    cs
  }

  /** `get_contact_by_name`: the first contact whose lower-cased name equals
      the lower-cased query, or None. */
  function GetContactByName(cs: seq<Contact>, name: string): (r: Option<Contact>)
    ensures r.None? <==> !HasMatch(cs, name)
    ensures r.Some? ==> HasMatch(cs, name) && r.value == cs[FirstMatch(cs, name).value]
  {
    if cs == [] then None
    else if Matches(cs[0], name) then Some(cs[0])
    else
      MatchInTail(cs, name);
      GetContactByName(cs[1..], name)
  }

  /** `update_contact`: the first matching entry is replaced wholesale by
      `updated`; with no match nothing changes. */
  function UpdateContact(cs: seq<Contact>, name: string, updated: Contact): (r: Change)
    ensures !r.applied <==> !HasMatch(cs, name)
    ensures !r.applied ==> r.contacts == cs
    ensures r.applied ==> HasMatch(cs, name) && r.contacts == cs[FirstMatch(cs, name).value := updated]
  {
    if cs == [] then Change(false, cs)
    else if Matches(cs[0], name) then Change(true, cs[0 := updated])
    else
      MatchInTail(cs, name);
      assert cs == [cs[0]] + cs[1..];
      var rest := UpdateContact(cs[1..], name, updated);
      Change(rest.applied, [cs[0]] + rest.contacts)
  }

  /** `delete_contact`: the first matching entry is removed and the others
      keep their order; with no match nothing changes. */
  function DeleteContact(cs: seq<Contact>, name: string): (r: Change)
    ensures !r.applied <==> !HasMatch(cs, name)
    ensures !r.applied ==> r.contacts == cs
    ensures r.applied ==> HasMatch(cs, name)
    ensures r.applied ==> r.contacts == cs[..FirstMatch(cs, name).value] + cs[FirstMatch(cs, name).value + 1..]
  {
    if cs == [] then Change(false, cs)
    else if Matches(cs[0], name) then Change(true, cs[1..])
    else
      MatchInTail(cs, name);
      assert cs == [cs[0]] + cs[1..];
      var rest := DeleteContact(cs[1..], name);
      if rest.applied then
        var i := FirstMatch(cs[1..], name).value;
        assert cs[..i + 1] == [cs[0]] + cs[1..][..i];
        assert cs[i + 2..] == cs[1..][i + 1..];
        Change(true, [cs[0]] + rest.contacts)
      else
        Change(false, [cs[0]] + rest.contacts)
  }

  /** A duplicate is appended all the same: the list then holds two entries
      with that name, and lookups keep finding the earlier one. */
  lemma AddAcceptsDuplicate(cs: seq<Contact>, contact: Contact)
    requires HasMatch(cs, contact.name)
    ensures !NoDuplicateNames(AddContact(cs, contact))
    ensures GetContactByName(AddContact(cs, contact), contact.name) == GetContactByName(cs, contact.name)
  {
    var after := AddContact(cs, contact);
    var i := FirstMatch(cs, contact.name).value;
    assert after[i] == cs[i];
    assert SameName(after[i].name, after[|cs|].name);
    assert forall j :: 0 <= j < |cs| ==> after[j] == cs[j];
    assert FirstMatch(after, contact.name) == Some(i);
  }

  /** Without duplicate names, an update replaces the entry and the new
      record is then what its name finds. */
  lemma UpdateThenGet(cs: seq<Contact>, name: string, updated: Contact)
    requires UpdateContact(cs, name, updated).applied
    requires NoDuplicateNames(UpdateContact(cs, name, updated).contacts)
    ensures GetContactByName(UpdateContact(cs, name, updated).contacts, updated.name) == Some(updated)
  {
    var i := FirstMatch(cs, name).value;
    var after := UpdateContact(cs, name, updated).contacts;
    assert Matches(after[i], updated.name);
    FirstMatchIsOnlyMatch(after, updated.name, FirstMatch(after, updated.name).value, i);
  }
}

/** The `ContactStorage` object of services/storage.py: a list that lives
    only in memory. */
module SimpleStorage {
  import opened Wrappers
  import opened ContactRecord
  import SimpleStore

  class ContactStorage {
    var contacts: seq<Contact>

    /** `ContactStorage()`: a new store starts empty. */
    constructor Empty()
      ensures contacts == []
    {
      contacts := [];
    }

    method AddContact(contact: Contact)
      modifies this
      ensures contacts == SimpleStore.AddContact(old(contacts), contact)
    {
      contacts := SimpleStore.AddContact(contacts, contact);
    }

    method GetAllContacts() returns (r: seq<Contact>)
      ensures r == contacts
    {
      r := SimpleStore.GetAllContacts(contacts);
    }

    method GetContactByName(name: string) returns (r: Option<Contact>)
      ensures r == SimpleStore.GetContactByName(contacts, name)
    {
      r := SimpleStore.GetContactByName(contacts, name);
    }

    method UpdateContact(name: string, updated: Contact) returns (ok: bool)
      modifies this
      ensures ok == SimpleStore.UpdateContact(old(contacts), name, updated).applied
      ensures contacts == SimpleStore.UpdateContact(old(contacts), name, updated).contacts
    {
      var change := SimpleStore.UpdateContact(contacts, name, updated);
      contacts := change.contacts;
      ok := change.applied;
    }

    method DeleteContact(name: string) returns (ok: bool)
      modifies this
      ensures ok == SimpleStore.DeleteContact(old(contacts), name).applied
      ensures contacts == SimpleStore.DeleteContact(old(contacts), name).contacts
    {
      var change := SimpleStore.DeleteContact(contacts, name);
      contacts := change.contacts;
      ok := change.applied;
    }
  }
}
