# Contact store of contacts-tui, modelled in Dafny

contacts-tui is a terminal address book. Its core is a contact store. The store keeps
an in-memory list of contact records keyed by name, where names are compared
case-insensitively. It offers add, get-all, get-by-name, update and delete. Two
revisions of the store exist, and this project models both:

- `storage.py` backed by the validated contact of `models.py`. It refuses a
  duplicate name on add, returns the list sorted by lower-cased name, keeps the
  old `last_contacted` when an update has none, and saves the whole list to a
  JSON file after every change.
- `services/storage.py` backed by the unconstrained record of
  `models/contact.py`. It appends without checking, returns the list unsorted,
  replaces records wholesale and persists nothing.

Every mutating operation except the add of `services/storage.py` is a pure
function from the old list to a `Change` (whether it took effect and the new
list); that add always succeeds and returns the new list. The lookups return an
`Option` and the views a sequence. Each revision has a thin class that holds the list. The storage.py class
also holds a ghost `persisted` snapshot of the list the file holds. A save ends
in one of three ways (`Persistence.SaveOutcome`), chosen non-deterministically:

- it writes the whole document, and the snapshot becomes the in-memory list;
- creating the directory or opening the file fails, and the file and the
  snapshot stay as they were;
- the write fails after `open(..., "w")` has emptied the file. The file is left
  empty or cut short, and the snapshot becomes None. The next start reads the
  file as undecodable JSON and begins with the empty list. If the cut fell
  inside a multi-byte character (the document is written as UTF-8 without
  escaping), the file is no longer UTF-8 text and every later start fails.

The in-memory change is kept in all three cases.

Modelling choices:

- Case folding is Python's `str.lower()` restricted to ASCII: `'A'..'Z'`
  become `'a'..'z'` and every other character is unchanged (`CaseFold.Lower`).
- `sorted(..., key=lambda c: c.name.lower())` compares keys with Python's `<`
  on `str`. That is lexicographic order by code point, where a proper prefix
  comes first (`NameOrder.Less`). The sort is stable. `SortedView` states
  stability as "for every key, the contacts with that key appear in the same
  order as before".
- `last_contacted` is an opaque `Timestamp`. `datetime.isoformat` and
  `datetime.fromisoformat` are parameters (`formatIso`, `parseIso`). The
  save/load round trip assumes that they invert each other and that the
  formatted text is never empty.
- Pydantic construction `Contact(**fields)` is modelled field by field. A
  required field that is missing reports `Missing`. A value of the wrong type
  reports `WrongType`. A string outside the declared lengths reports
  `TooShort`/`TooLong`. An optional field that is absent or null becomes None.
  Extra keys are ignored. All field errors are reported together, in
  declaration order.
- One `Contact` datatype serves both model files. `models.py` adds the
  predicate `ContactModel.Valid` and a constructor that enforces it.

Behaviour worth knowing, as the code is written:

- Uniqueness of names is checked only by `add_contact`. `update_contact` may
  rename a contact onto another stored name
  (`ContactStore.UpdateCanDuplicateNames`), and loading a file never checks
  names.
- Lookup compares lower-cased names exactly, with no trimming. An empty query
  finds nothing only because valid names are non-empty
  (`ContactStore.EmptyQueryNotFound`). A query of spaces finds a contact whose
  name is exactly those spaces.
- `add_contact`, `update_contact` and `delete_contact` return true even when
  the save that follows fails.
- A stored record that fails validation is not caught by `load_contacts`, so
  the load fails (`Persistence.LoadContacts`). The same holds for a file whose
  bytes are not UTF-8: the decoding error is neither of the two exceptions
  caught, so start-up fails. Only a missing file, a read error or text that is
  not JSON falls back to the empty list.
- A save that fails after opening the file destroys the saved contacts (see
  Findings).

Lookup and delete are written independently in the two revisions: by first-match
index in `ContactStore`, by a recursive scan in `SimpleStore`. `Revisions`
proves that they agree on every list. The "no duplicate names" hypothesis is not
needed for this.

## Model

| member | source | states |
|---|---|---|
| ContactRecord.Build | models/contact.py:6-13 | construction succeeds exactly when name and phone are present strings, email and notes are absent, null or strings, and last_contacted is absent, null or a datetime; the record then holds the given name and phone, each optional field's given value, and None for an absent or null one |
| ContactRecord.NameIsRequired | models/contact.py:7 | without a `name` key construction fails with a Missing error on the name field |
| ContactRecord.PhoneIsRequired | models/contact.py:8 | without a `phone` key construction fails with a Missing error on the phone field |
| ContactRecord.AcceptsAnyText | models/contact.py:9-13 | every string is accepted for every field, the empty string included, and fields not passed default to None |
| ContactModel.Valid | models.py:24-45 | a contact is valid exactly when name and phone lie within their declared limits and email and notes are None or within theirs, the same limits construction checks |
| ContactModel.Build | models.py:24-49 | a constructed contact satisfies every declared length constraint, equals what the unconstrained record would build, and construction succeeds whenever the unconstrained record is valid |
| ContactModel.New | models.py:13-49 | the keyword constructor succeeds exactly when name is 1-100 chars, phone 5-20, email none or at most 100, notes none or at most 1000; it then yields exactly the given record, and otherwise a non-empty error list |
| ContactModel.OptionalFieldsDefaultToNone | models.py:36-49 | email, notes and last_contacted left out of the constructor are None |
| ContactModel.EmptyNameRejected | models.py:24-29 | an empty name is rejected with a too-short error on the name field |
| ContactModel.EmptyPhoneRejected | models.py:30-35 | an empty phone is rejected with a too-short error on the phone field |
| ContactModel.ConvertLastContacted | models.py:78-81 | a present and truthy last_contacted is parsed from ISO text, and parse failure or non-text is an error; an absent or falsy one leaves the dictionary untouched; every other key keeps its value |
| ContactModel.FromJson | models.py:65-82 | reading succeeds exactly when name and phone are strings within their limits, email and notes are absent, null or strings within their limits, and last_contacted is absent, null or non-empty text that parses; the contact then holds the stored strings, None for an absent or null field, and the parsed timestamp, and is valid |
| ContactModel.FromJsonReadsEveryField | tests/test_models.py:39-52 | a record with all five fields reads back as a contact holding the same name, phone, email and notes, and the timestamp parsed from the stored text |
| ContactModel.FromJsonToJson | models.py:51-54 | serializing a valid contact and reading it back with from_json gives the same contact |
| CaseFold.Lower | storage.py:99 | lower-casing keeps the length, folds each character on its own and leaves no ASCII capital |
| NameOrder.NotAfterTotal | storage.py:88 | any two sort keys are ordered one way or the other |
| NameOrder.NotAfterTransitive | storage.py:88 | the order on sort keys is transitive |
| SortedView.SortByName | storage.py:88 | the sorted list is a permutation of the input: same length, same contacts with the same multiplicities |
| SortedView.SortByNameStable | storage.py:88 | for every key, the contacts with that key keep their relative order through the sort |
| NameIndex.FirstMatch | storage.py:119-121 | the index is None exactly when no entry matches case-insensitively, otherwise it is a matching entry with no match before it |
| NameIndex.FirstMatchIsOnlyMatch | storage.py:140-142 | on a list with no duplicate names the first match is the only match |
| ContactStore.AddContact | storage.py:74-80 | add is refused exactly when a stored name equals the new one after lower-casing, leaving the list unchanged; otherwise the contact is appended at the end |
| ContactStore.AddTwiceRefused | storage.py:74-76 | adding the same contact a second time is refused |
| ContactStore.AddThenGet | storage.py:75-80 | after a successful add, a lookup of the name in any capitalisation returns the added contact |
| ContactStore.AddKeepsNamesDistinct | storage.py:74-80 | add keeps a list free of case-insensitive duplicate names |
| ContactStore.GetAllContacts | storage.py:82-88 | the view is a permutation of the stored list, ordered non-decreasingly by lower-cased name, and contacts with equal keys keep their insertion order |
| ContactStore.GetContactByName | storage.py:99-107 | None exactly when no stored name matches the query after lower-casing both, otherwise the first matching contact in list order |
| ContactStore.Merge | storage.py:122-126 | the stored record takes name, phone, email and notes from the new record; last_contacted is the new one when given, else the old one |
| ContactStore.UpdateContact | storage.py:119-129 | with no match nothing changes and the result is false; otherwise only the first matching index is replaced, by the merged record, and the length is unchanged |
| ContactStore.UpdateThenGet | storage.py:120-128 | after an update that leaves names distinct, the merged record is found under its new name |
| ContactStore.UpdateKeepsNamesDistinct | storage.py:120-128 | update keeps names distinct when the new name clashes with no other entry |
| ContactStore.UpdateCanDuplicateNames | storage.py:119-128 | renaming "Bob" to "alice" in a list holding "Alice" succeeds and leaves two entries with the same name |
| ContactStore.DeleteContact | storage.py:140-146 | with no match nothing changes; otherwise exactly the first matching entry is removed and the rest keep their order |
| ContactStore.DeleteRemovesFirstMatch | storage.py:140-146 | delete removes one occurrence of the first matching contact from the multiset and shortens the list by one |
| ContactStore.DeleteThenGet | storage.py:140-146 | on a list without duplicate names, delete keeps names distinct and the deleted name is no longer found |
| ContactStore.AddAndUpdateKeepValidity | storage.py:74-128 | adding or updating with a valid contact keeps every stored contact valid |
| ContactStore.DeleteKeepsValidity | storage.py:140-146 | deleting keeps every stored contact valid |
| ContactStore.EmptyQueryNotFound | storage.py:99-107 | among valid contacts an empty query finds nothing |
| Persistence.FromJsonAll | storage.py:38 | the list loads exactly when every record passes from_json, one contact per record in file order |
| Persistence.LoadContacts | storage.py:29-44 | a missing file, a read error or non-JSON text loads as the empty list; a file that is not UTF-8 fails the load; a document loads exactly when every record validates, giving one contact per record, in file order, each the from_json result of its record; a loaded list is valid |
| ContactModel.ToJson | storage.py:57-59 | a serialized contact has exactly the five field keys, with name and phone as strings |
| Persistence.SaveDocument | storage.py:56-60 | the document holds one JSON object per contact, in list order, each the contact's JSON: the five field keys, with null for a missing value |
| Persistence.SaveThenLoad | storage.py:46-62 | loading the document written for a valid list gives back the same list in the same order |
| Persistence.FileAfterSave | storage.py:51-62 | after a full write the file holds the new document; a failure before opening leaves the file as it was; a failure after opening leaves a file that loads as the empty list, or, when the cut fell inside a character, one whose load fails as not UTF-8 |
| Persistence.CutShortSaveLosesSavedContacts | storage.py:36-62 | a valid list saved to the file loads back, yet after a later save that fails once the file is open, a restart no longer loads it: it loads the empty list, or fails as not UTF-8 when the cut fell inside a character |
| Persistence.FileAfterAtomicSave | storage.py:51-62 | with the temporary-file-and-rename save, a full write makes the file hold the new document, and any failure leaves a file that loads exactly as before |
| Persistence.AtomicSaveKeepsOrReplaces | storage.py:46-62 | with a save that writes a temporary file and renames it, a restart loads the saved list after a full write and exactly what it loaded before after any failure |
| Storage.Open | storage.py:23-44 | opening succeeds exactly when the load does, with the loaded list in memory, and the snapshot is that list only when it came from a document; a failed load is reported with its error |
| Storage.ContactStorage.SaveContacts | storage.py:46-62 | a save leaves the in-memory list alone; a full write makes the snapshot the list, a failure before opening leaves it unchanged, and a failure after opening leaves the file holding no list |
| Storage.ContactStorage.AddContact | storage.py:64-80 | the list becomes the result of add and stays valid; a save runs exactly when the add is accepted; a refused add does not touch the snapshot; after an accepted add the snapshot follows the save outcome: the new list, unchanged, or no list |
| Storage.ContactStorage.GetAllContacts | storage.py:82-88 | returns the sorted view of the stored list and changes nothing |
| Storage.ContactStorage.GetContactByName | storage.py:90-107 | returns the first contact whose lower-cased name equals the lower-cased query, or None, and changes nothing |
| Storage.ContactStorage.UpdateContact | storage.py:109-129 | the list becomes the result of update and stays valid; a save runs exactly when a contact matched, and the snapshot follows its outcome as for add |
| Storage.ContactStorage.DeleteContact | storage.py:131-146 | the list becomes the result of delete and stays valid; a save runs exactly when a contact matched, and the snapshot follows its outcome as for add |
| SimpleStore.AddContact | services/storage.py:9-10 | add always appends: the length grows by one, the old list is a prefix and the new contact is last |
| SimpleStore.AddAcceptsDuplicate | services/storage.py:9-10 | adding a name already present creates a duplicate, and lookups keep returning the earlier entry |
| SimpleStore.GetAllContacts | services/storage.py:12-13 | returns every stored contact at its own position: insertion order, no sorting |
| SimpleStore.GetContactByName | services/storage.py:15-19 | None exactly when nothing matches case-insensitively, otherwise the entry at the first matching index |
| SimpleStore.UpdateContact | services/storage.py:21-26 | with no match nothing changes and the result is false; otherwise the first matching index is replaced wholesale by the new record |
| SimpleStore.UpdateThenGet | services/storage.py:22-25 | after an update that leaves names distinct, the new record itself is found under its name |
| SimpleStore.DeleteContact | services/storage.py:28-33 | with no match nothing changes; otherwise exactly the first matching entry is removed and the rest keep their order |
| SimpleStorage.ContactStorage.Empty | services/storage.py:6-7 | a new store holds no contacts |
| SimpleStorage.ContactStorage.AddContact | services/storage.py:9-10 | the list becomes the result of the always-appending add |
| SimpleStorage.ContactStorage.GetAllContacts | services/storage.py:12-13 | returns the stored list unchanged |
| SimpleStorage.ContactStorage.GetContactByName | services/storage.py:15-19 | returns the first case-insensitive match of the stored list, or None |
| SimpleStorage.ContactStorage.UpdateContact | services/storage.py:21-26 | the list and the reported result are those of the wholesale-replacing update |
| SimpleStorage.ContactStorage.DeleteContact | services/storage.py:28-33 | the list and the reported result are those of the first-match delete |
| Revisions.LookupAgrees | services/storage.py:15-19 | lookup gives the same result in both revisions on every list |
| Revisions.DeleteAgrees | services/storage.py:28-33 | delete gives the same result in both revisions on every list |
| Revisions.UpdateAgreesUpToMerge | storage.py:122-126 | the file-backed update is the in-memory update applied to the merged record, so the two agree when the new record has a last_contacted |
| Revisions.AddAgreesOnNewName | storage.py:74-80 | the two adds agree exactly when the name is new; otherwise the in-memory add still grows the list |
| Revisions.ViewsAgreeUpToOrder | services/storage.py:12-13 | the unsorted view holds the same contacts as the sorted one, and the two are equal on a list already in name order |
| StoreScenario.AddGetUpdateDelete | tests/test_storage.py:26-63 | add then get finds the contact, a second add is refused, an update is visible to get, and after delete get finds nothing |

## Left out

- The terminal UI (screens, sidebar, key bindings, confirmation dialogs) and process start-up. They only call the store and display its results.
- Real file I/O: the path, directory creation, encoding and JSON text. A read is one of four outcomes (`Persistence.StoredFile`). A save is one of three outcomes (`Persistence.SaveOutcome`). Which errors occur is not modelled.
- The printed warning on a failed load or save. Only the outcome is modelled.
- A JSON document that decodes to something other than a list of objects, and JSON floats, arrays and nested objects as field values.
- Pydantic's type coercion is not modelled. It turns numbers into strings and numbers or ISO strings into datetimes. Such values are rejected as `WrongType`.
- Validation on attribute assignment does not arise: the only assignment sets `last_contacted`, which has no constraint.
- ISO-8601 formatting and parsing are not modelled. They are parameters.
- Where a failed write cuts the file is not modelled: `SaveOutcome.CutShort` carries a flag for a cut inside a multi-byte character, and the flag is not tied to whether the document holds any non-ASCII character.
- Full Unicode lower-casing; only the ASCII letters are folded.
- `update_contact` mutates the caller's record in place. The functional model stores the merged record instead, so that aliasing does not appear.
- The reads return live objects: `get_all_contacts` of services/storage.py returns the store's own list, `get_all_contacts` of storage.py returns a new list holding the stored records themselves, and both `get_contact_by_name` return the stored record itself. A caller that mutated the result would change the store. The model returns values, so this aliasing is not modelled; the screens only read what they get.
- The SQLite-backed variant that the storage tests construct (`db_path`, connection check, backup) is not part of this model.

## Findings

| source | as written | input that shows it | evidently intended | confidence | as-written member | corrected member |
|---|---|---|---|---|---|---|
| storage.py:51-62 | `save_contacts` opens the contacts file with mode `"w"`, which empties it, before `json.dump` writes; an `OSError` during the write is caught and only printed | a file holding one saved contact; a later add whose write fails with a full disk leaves the file empty or cut short. The next start loads `[]`, or, when the cut fell inside a character such as the "é" of "José", raises an uncaught `UnicodeDecodeError` on every start | a failed save leaves the previously saved contacts on disk, for example by writing a temporary file and renaming it over the old one | medium; not executed | Persistence.CutShortSaveLosesSavedContacts | Persistence.AtomicSaveKeepsOrReplaces |

The class `Storage.ContactStorage` models `save_contacts` as written, so its
`CutShort` outcome clears the snapshot. `Persistence.FileAfterAtomicSave` is the
corrected save.
