/** The CRUD operations of the file-backed store (storage.py), as pure
    functions from the in-memory list to the new list. Each mutating
    operation returns a `Change`; whether the save that follows a change
    succeeds is the concern of the `Storage` module. */
module ContactStore {
  import opened Wrappers
  import opened CaseFold
  import opened ContactRecord
  import opened ContactModel
  import opened NameIndex
  import opened StoreChange
  import opened SortedView

  /** `add_contact`: refused when some stored name equals the new one after
      lower-casing, otherwise appended at the end. */
  function AddContact(cs: seq<Contact>, contact: Contact): (r: Change)
    ensures !r.applied <==> exists i :: 0 <= i < |cs| && SameName(cs[i].name, contact.name)
    ensures !r.applied ==> r.contacts == cs
    ensures r.applied ==> r.contacts == cs + [contact]
  {
    if HasMatch(cs, contact.name) then Change(false, cs)
    else Change(true, cs + [contact])
  }

  /** `get_all_contacts`: a fresh list, ordered by lower-cased name, ties in
      insertion order. */
  function GetAllContacts(cs: seq<Contact>): (r: seq<Contact>)
    ensures multiset(r) == multiset(cs)
    ensures SortedByName(r)
    ensures forall k :: WithKey(r, k) == WithKey(cs, k)
  {
    SortByNameSorted(cs);
    SortByNameStableAll(cs);
    SortByName(cs)
  }

  /** `get_contact_by_name`: the first contact whose lower-cased name equals
      the lower-cased query, or None. */
  function GetContactByName(cs: seq<Contact>, name: string): (r: Option<Contact>)
    ensures r.None? <==> forall i :: 0 <= i < |cs| ==> !Matches(cs[i], name)
    ensures r.Some? ==> exists i :: IsFirstMatch(cs, name, i) && cs[i] == r.value
  {
    match FirstMatch(cs, name)
    case None => None
    case Some(i) => Some(cs[i])
  }

  /** The record `update_contact` stores: every field of `updated`, except
      that a missing `last_contacted` keeps the old one. */
  function Merge(previous: Contact, updated: Contact): (r: Contact)
    ensures r.name == updated.name && r.phone == updated.phone
    ensures r.email == updated.email && r.notes == updated.notes
    ensures updated.lastContacted.Some? ==> r.lastContacted == updated.lastContacted
    ensures updated.lastContacted.None? ==> r.lastContacted == previous.lastContacted
  {
    if updated.lastContacted.None? then updated.(lastContacted := previous.lastContacted) else updated
  }

  /** `update_contact`: the first entry matching `name` is replaced by the
      merged record; with no match nothing changes. */
  function UpdateContact(cs: seq<Contact>, name: string, updated: Contact): (r: Change)
    ensures !r.applied <==> !HasMatch(cs, name)
    ensures !r.applied ==> r.contacts == cs
    ensures |r.contacts| == |cs|
    ensures r.applied ==> exists i :: IsFirstMatch(cs, name, i) && r.contacts == cs[i := Merge(cs[i], updated)]
  {
    match FirstMatch(cs, name)
    case None => Change(false, cs)
    case Some(i) => Change(true, cs[i := Merge(cs[i], updated)])
  }

  /** `delete_contact`: the first entry matching `name` is removed and the
      others keep their order; with no match nothing changes. */
  function DeleteContact(cs: seq<Contact>, name: string): (r: Change)
    ensures !r.applied <==> !HasMatch(cs, name)
    ensures !r.applied ==> r.contacts == cs
    ensures r.applied ==> exists i :: IsFirstMatch(cs, name, i) && r.contacts == cs[..i] + cs[i + 1..]
  {
    match FirstMatch(cs, name)
    case None => Change(false, cs)
    case Some(i) => Change(true, cs[..i] + cs[i + 1..])
  }

  // Properties relating the operations to each other and to the store's invariants.

  /** Adding the same contact twice: the second attempt is refused. */
  lemma AddTwiceRefused(cs: seq<Contact>, contact: Contact)
    requires AddContact(cs, contact).applied
    ensures !AddContact(AddContact(cs, contact).contacts, contact).applied
  {
    var after := AddContact(cs, contact).contacts;
    assert after[|cs|] == contact;
  }

  /** A contact that was just added is what a lookup of its name, in any
      capitalisation, returns. */
  lemma AddThenGet(cs: seq<Contact>, contact: Contact, query: string)
    requires AddContact(cs, contact).applied
    requires SameName(query, contact.name)
    ensures GetContactByName(AddContact(cs, contact).contacts, query) == Some(contact)
  {
    var after := cs + [contact];
    assert Matches(after[|cs|], query);
    forall j | 0 <= j < |cs|
      ensures !Matches(after[j], query)
    {
      assert after[j] == cs[j];
    }
    assert FirstMatch(after, query) == Some(|cs|);
  }

  /** Adding never introduces a duplicate name. */
  lemma AddKeepsNamesDistinct(cs: seq<Contact>, contact: Contact)
    requires NoDuplicateNames(cs)
    ensures NoDuplicateNames(AddContact(cs, contact).contacts)
  {
    var r := AddContact(cs, contact);
    if r.applied {
      forall i, j | 0 <= i < j < |r.contacts|
        ensures !SameName(r.contacts[i].name, r.contacts[j].name)
      {
        if j == |cs| {
          assert r.contacts[i] == cs[i];
        }
      }
    }
  }

  /** After a successful update the merged record is found under the new
      name, as long as that name is not shared with another entry. */
  lemma UpdateThenGet(cs: seq<Contact>, name: string, updated: Contact)
    requires UpdateContact(cs, name, updated).applied
    requires NoDuplicateNames(UpdateContact(cs, name, updated).contacts)
    ensures GetContactByName(UpdateContact(cs, name, updated).contacts, updated.name)
            == Some(Merge(cs[FirstMatch(cs, name).value], updated))
  {
    var i := FirstMatch(cs, name).value;
    var after := UpdateContact(cs, name, updated).contacts;
    assert after[i] == Merge(cs[i], updated);
    assert Matches(after[i], updated.name);
    var j :| IsFirstMatch(after, updated.name, j) && after[j] == GetContactByName(after, updated.name).value;
    FirstMatchIsOnlyMatch(after, updated.name, j, i);
  }

  /** An update keeps names distinct when the new name clashes with no
      other entry. */
  lemma UpdateKeepsNamesDistinct(cs: seq<Contact>, name: string, updated: Contact)
    requires NoDuplicateNames(cs)
    requires forall j :: 0 <= j < |cs| && !IsFirstMatch(cs, name, j) ==> !SameName(cs[j].name, updated.name)
    ensures NoDuplicateNames(UpdateContact(cs, name, updated).contacts)
  {
    var r := UpdateContact(cs, name, updated);
    if r.applied {
      var k := FirstMatch(cs, name).value;
      forall i, j | 0 <= i < j < |r.contacts|
        ensures !SameName(r.contacts[i].name, r.contacts[j].name)
      {
        if i == k {
          assert !IsFirstMatch(cs, name, j);
        } else if j == k {
          assert !IsFirstMatch(cs, name, i);
        }
      }
    }
  }

  /** Unlike `add_contact`, `update_contact` does not check the new name: a
      rename onto another stored name leaves two entries with that name. */
  lemma UpdateCanDuplicateNames()
    ensures var cs := [Contact("Alice", "555-0200", None, None, None), Contact("Bob", "555-0100", None, None, None)];
            && NoDuplicateNames(cs)
            && UpdateContact(cs, "Bob", Contact("alice", "555-0199", None, None, None)).applied
            && !NoDuplicateNames(UpdateContact(cs, "Bob", Contact("alice", "555-0199", None, None, None)).contacts)
  {
    var cs := [Contact("Alice", "555-0200", None, None, None), Contact("Bob", "555-0100", None, None, None)];
    assert Lower("Alice") == "alice";
    assert Lower("Bob") == "bob";
    assert Lower("alice") == "alice";
    assert !SameName(cs[0].name, cs[1].name);
    assert !Matches(cs[0], "Bob") && Matches(cs[1], "Bob");
    assert FirstMatch(cs, "Bob") == Some(1);
    var after := UpdateContact(cs, "Bob", Contact("alice", "555-0199", None, None, None)).contacts;
    assert SameName(after[0].name, after[1].name);
  }

  /** Deleting removes one occurrence of the first matching contact and nothing else. */
  lemma DeleteRemovesFirstMatch(cs: seq<Contact>, name: string)
    requires HasMatch(cs, name)
    ensures multiset(DeleteContact(cs, name).contacts) + multiset{cs[FirstMatch(cs, name).value]} == multiset(cs)
    ensures |DeleteContact(cs, name).contacts| == |cs| - 1
  {
    var i := FirstMatch(cs, name).value;
    assert DeleteContact(cs, name).contacts == cs[..i] + cs[i + 1..];
    RemoveAtMultiset(cs, i);
  }

  lemma RemoveAtMultiset(s: seq<Contact>, i: int)
    requires 0 <= i < |s|
    ensures multiset(s[..i] + s[i + 1..]) + multiset{s[i]} == multiset(s)
  {
    assert s == s[..i] + ([s[i]] + s[i + 1..]);
  }

  /** Deleting keeps names distinct, and without duplicates a deleted name
      is no longer found. */
  lemma DeleteThenGet(cs: seq<Contact>, name: string)
    requires NoDuplicateNames(cs)
    ensures NoDuplicateNames(DeleteContact(cs, name).contacts)
    ensures GetContactByName(DeleteContact(cs, name).contacts, name) == None
  {
    var r := DeleteContact(cs, name);
    if r.applied {
      var i := FirstMatch(cs, name).value;
      assert forall j :: 0 <= j < |r.contacts| ==> r.contacts[j] == (if j < i then cs[j] else cs[j + 1]);
      forall j | 0 <= j < |r.contacts|
        ensures !Matches(r.contacts[j], name)
      {
        if Matches(r.contacts[j], name) {
          FirstMatchIsOnlyMatch(cs, name, i, if j < i then j else j + 1);
        }
      }
    }
  }

  /** Adding or updating with a valid contact keeps every stored contact valid. */
  lemma AddAndUpdateKeepValidity(cs: seq<Contact>, name: string, contact: Contact)
    requires AllValid(cs) && Valid(contact)
    ensures AllValid(AddContact(cs, contact).contacts)
    ensures AllValid(UpdateContact(cs, name, contact).contacts)
  {
  }

  /** Deleting keeps every stored contact valid. */
  lemma DeleteKeepsValidity(cs: seq<Contact>, name: string)
    requires AllValid(cs)
    ensures AllValid(DeleteContact(cs, name).contacts)
  {
    var del := DeleteContact(cs, name);
    if del.applied {
      var i := FirstMatch(cs, name).value;
      forall j | 0 <= j < |del.contacts|
        ensures Valid(del.contacts[j])
      {
        assert del.contacts[j] == (if j < i then cs[j] else cs[j + 1]);
      }
    }
  }

  /** A blank query finds nothing in a list of valid contacts:
      every valid contact has a non-empty name. */
  lemma EmptyQueryNotFound(cs: seq<Contact>)
    requires AllValid(cs)
    ensures GetContactByName(cs, "") == None
  {
  }
}
