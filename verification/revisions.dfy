/** How the two revisions of the store relate: the file-backed store of
    storage.py and the in-memory store of services/storage.py. Lookup and
    delete behave identically on every list; add and update differ only in
    the duplicate check and the `last_contacted` merge; the views differ
    only in order. */
module Revisions {
  import opened Wrappers
  import opened CaseFold
  import opened ContactRecord
  import opened NameIndex
  import opened StoreChange
  import opened SortedView
  import ContactStore
  import SimpleStore

  lemma LookupAgrees(cs: seq<Contact>, name: string)
    ensures ContactStore.GetContactByName(cs, name) == SimpleStore.GetContactByName(cs, name)
  {
    if HasMatch(cs, name) {
      var k :| 0 <= k < |cs| && Matches(cs[k], name);
      assert ContactStore.GetContactByName(cs, name).Some?;
      var i :| IsFirstMatch(cs, name, i) && cs[i] == ContactStore.GetContactByName(cs, name).value;
      FirstMatchUnique(cs, name, i, FirstMatch(cs, name).value);
    }
  }

  lemma DeleteAgrees(cs: seq<Contact>, name: string)
    ensures ContactStore.DeleteContact(cs, name) == SimpleStore.DeleteContact(cs, name)
  {
    if HasMatch(cs, name) {
      assert ContactStore.DeleteContact(cs, name).applied;
      var i :| IsFirstMatch(cs, name, i) && ContactStore.DeleteContact(cs, name).contacts == cs[..i] + cs[i + 1..];
      FirstMatchUnique(cs, name, i, FirstMatch(cs, name).value);
    }
  }

  /** The file-backed update is the in-memory update of the merged record;
      so the two agree whenever the new record carries a `last_contacted`. */
  lemma UpdateAgreesUpToMerge(cs: seq<Contact>, name: string, updated: Contact)
    requires HasMatch(cs, name)
    ensures ContactStore.UpdateContact(cs, name, updated)
            == SimpleStore.UpdateContact(cs, name, ContactStore.Merge(cs[FirstMatch(cs, name).value], updated))
    ensures updated.lastContacted.Some? ==>
              ContactStore.UpdateContact(cs, name, updated) == SimpleStore.UpdateContact(cs, name, updated)
  {
    assert ContactStore.UpdateContact(cs, name, updated).applied;
    var i :| IsFirstMatch(cs, name, i)
             && ContactStore.UpdateContact(cs, name, updated).contacts == cs[i := ContactStore.Merge(cs[i], updated)];
    FirstMatchUnique(cs, name, i, FirstMatch(cs, name).value);
  }

  /** A name already present is the only case where the two `add`s differ. */
  lemma AddAgreesOnNewName(cs: seq<Contact>, contact: Contact)
    ensures ContactStore.AddContact(cs, contact).applied <==> !HasMatch(cs, contact.name)
    ensures ContactStore.AddContact(cs, contact).applied ==>
              ContactStore.AddContact(cs, contact).contacts == SimpleStore.AddContact(cs, contact)
    ensures !ContactStore.AddContact(cs, contact).applied ==>
              |SimpleStore.AddContact(cs, contact)| == |ContactStore.AddContact(cs, contact).contacts| + 1
  {
    if !HasMatch(cs, contact.name) {
      assert forall i :: 0 <= i < |cs| ==> !SameName(cs[i].name, contact.name);
    }
  }

  /** The sorted view holds the same contacts as the unsorted one, and on a
      list already in name order the two views are equal. */
  lemma ViewsAgreeUpToOrder(cs: seq<Contact>)
    ensures multiset(ContactStore.GetAllContacts(cs)) == multiset(SimpleStore.GetAllContacts(cs))
    ensures SortedByName(cs) ==> ContactStore.GetAllContacts(cs) == SimpleStore.GetAllContacts(cs)
  {
    if SortedByName(cs) {
      SortOfSorted(cs);
    }
  }

  lemma {:induction false} SortOfSorted(s: seq<Contact>)
    requires SortedByName(s)
    ensures SortByName(s) == s
    decreases |s|
  {
    if s != [] {
      assert SortedByName(s[1..]);
      SortOfSorted(s[1..]);
      assert s == [s[0]] + s[1..];
    }
  }

  lemma FirstMatchUnique(cs: seq<Contact>, name: string, i: int, j: int)
    requires IsFirstMatch(cs, name, i) && IsFirstMatch(cs, name, j)
    ensures i == j
  {
  }
}
