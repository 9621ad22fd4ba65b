/** The add / get / update / delete sequence the storage tests walk through
    (tests/test_storage.py), on the file-backed store. */
module StoreScenario {
  import opened Wrappers
  import opened CaseFold
  import opened ContactRecord
  import opened NameIndex
  import opened StoreChange
  import opened ContactStore

  lemma AddGetUpdateDelete()
    ensures
      var original := Contact("Test User", "1234567890", None, None, None);
      var edited := Contact("Test User", "9999999999", Some("new@example.com"), None, None);
      var added := AddContact([], original);
      && added.applied
      && GetContactByName(added.contacts, "Test User") == Some(original)
      && !AddContact(added.contacts, original).applied
      && var updated := UpdateContact(added.contacts, "Test User", edited);
      && updated.applied
      && GetContactByName(updated.contacts, "Test User") == Some(edited)
      && DeleteContact(updated.contacts, "Test User").applied
      && GetContactByName(DeleteContact(updated.contacts, "Test User").contacts, "Test User") == None
  {
    var original := Contact("Test User", "1234567890", None, None, None);
    var edited := Contact("Test User", "9999999999", Some("new@example.com"), None, None);
    var one := [original];
    assert Matches(original, "Test User");
    assert FirstMatch(one, "Test User") == Some(0);
    assert AddContact([], original).contacts == one;
    assert Merge(original, edited) == edited;
    assert UpdateContact(one, "Test User", edited).contacts == [edited];
    assert Matches(edited, "Test User");
    assert FirstMatch([edited], "Test User") == Some(0);
    assert DeleteContact([edited], "Test User").contacts == [];
  }
}
