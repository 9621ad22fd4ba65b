/** What the file-backed store reads and writes. The JSON file itself and
    the directory it lives in are outside the model: a read yields one of
    the outcomes of `StoredFile`, and a save ends in one of the outcomes of
    `SaveOutcome`. */
module Persistence {
  import opened Wrappers
  import opened ContactRecord
  import opened ContactModel

  /** The outcome of reading the contacts file: it does not exist; it cannot
      be opened or read, or its text is not JSON; its bytes are not UTF-8
      text; or it decodes to a list of objects. */
  datatype StoredFile = Absent | Unreadable | NotUtf8 | Document(records: seq<Fields>)

  /** Why `load_contacts` fails: a stored record that `from_json` rejects, or
      a file that is not UTF-8 text. Neither error is one the loader catches. */
  datatype LoadError = BadRecord(error: JsonError) | NotText

  /** `[Contact.from_json(c) for c in records]`: the first record that fails
      makes the whole list fail. */
  function FromJsonAll(records: seq<Fields>, parseIso: string -> Option<Timestamp>): (r: Result<seq<Contact>, JsonError>)
    ensures r.Success? <==> forall i :: 0 <= i < |records| ==> FromJson(records[i], parseIso).Success?
    ensures r.Success? ==> |r.value| == |records|
    ensures r.Success? ==> forall i :: 0 <= i < |records| ==> r.value[i] == FromJson(records[i], parseIso).value
  {
    if records == [] then Success([])
    else match FromJson(records[0], parseIso)
      case Failure(e) => Failure(e)
      case Success(c) =>
        match FromJsonAll(records[1..], parseIso)
        case Failure(e) => Failure(e)
        case Success(rest) => Success([c] + rest)
  }

  /** `load_contacts`: a missing file, a read error or text that is not JSON
      gives the empty list. A record that does not validate, and bytes that
      are not UTF-8, are not caught and fail the load. */
  function LoadContacts(file: StoredFile, parseIso: string -> Option<Timestamp>): (r: Result<seq<Contact>, LoadError>)
    ensures file.Absent? || file.Unreadable? ==> r == Success([])
    ensures file.NotUtf8? ==> r == Failure(NotText)
    ensures r.Success? ==> AllValid(r.value)
    ensures file.Document? ==> (r.Success? <==> forall i :: 0 <= i < |file.records| ==> FromJson(file.records[i], parseIso).Success?)
    ensures file.Document? && r.Failure? ==> r.error.BadRecord?
    ensures file.Document? && r.Success? ==>
              && |r.value| == |file.records|
              && forall i :: 0 <= i < |file.records| ==> r.value[i] == FromJson(file.records[i], parseIso).value
  {
    match file
    case Absent => Success([])
    case Unreadable => Success([])
    case NotUtf8 => Failure(NotText)
    case Document(records) =>
      match FromJsonAll(records, parseIso)
      case Success(cs) => Success(cs)
      case Failure(e) => Failure(BadRecord(e))
  }

  /** The document `save_contacts` writes: one JSON object per contact, in list order. */
  function SaveDocument(cs: seq<Contact>, formatIso: Timestamp -> string): (d: seq<Fields>)
    ensures |d| == |cs|
    ensures forall i :: 0 <= i < |cs| ==> d[i] == ToJson(cs[i], formatIso)
  {
    seq(|cs|, i requires 0 <= i < |cs| => ToJson(cs[i], formatIso))
  }

  /** Reloading what was saved gives back the same contacts in the same order. */
  lemma SaveThenLoad(cs: seq<Contact>, formatIso: Timestamp -> string, parseIso: string -> Option<Timestamp>)
    requires AllValid(cs)
    requires IsoRoundTrips(formatIso, parseIso)
    ensures LoadContacts(Document(SaveDocument(cs, formatIso)), parseIso) == Success(cs)
  {
    var doc := SaveDocument(cs, formatIso);
    forall i | 0 <= i < |cs|
      ensures FromJson(doc[i], parseIso) == Success(cs[i])
    {
      FromJsonToJson(cs[i], formatIso, parseIso);
    }
    var r := LoadContacts(Document(doc), parseIso);
    assert r.value == cs;
  }

  /** How a `save_contacts` call ends: the document is written in full;
      creating the directory or opening the file fails, so the file is not
      touched; or the write fails after `open(..., "w")` has already emptied
      the file, which is left empty or cut short. Names and notes are written
      as UTF-8 without escaping, so the cut may fall inside a multi-byte
      character (`insideCharacter`). */
  datatype SaveOutcome = Written | NotOpened | CutShort(insideCharacter: bool)

  /** The file after `save_contacts` writes `doc`, as the code is written.
      An emptied or cut-short file no longer decodes as JSON; one cut inside
      a character is no longer UTF-8 text either. */
  function FileAfterSave(before: StoredFile, doc: seq<Fields>, outcome: SaveOutcome): (after: StoredFile)
    ensures outcome.Written? ==> after == Document(doc)
    ensures outcome.NotOpened? ==> after == before
    ensures outcome.CutShort? && !outcome.insideCharacter ==>
              forall parseIso :: LoadContacts(after, parseIso) == Success([])
    ensures outcome.CutShort? && outcome.insideCharacter ==>
              forall parseIso :: LoadContacts(after, parseIso) == Failure(NotText)
  {
    match outcome
    case Written => Document(doc)
    case NotOpened => before
    case CutShort(insideCharacter) => if insideCharacter then NotUtf8 else Unreadable
  }

  /** A save that fails after the file was opened loses every contact: even
      contacts that were safely on disk before it are gone. The next start
      reads the damaged file as the empty list, or, when the cut fell inside
      a character, fails to start at all. */
  lemma CutShortSaveLosesSavedContacts(
    cs: seq<Contact>, more: seq<Contact>, insideCharacter: bool,
    formatIso: Timestamp -> string, parseIso: string -> Option<Timestamp>)
    requires AllValid(cs) && cs != []
    requires IsoRoundTrips(formatIso, parseIso)
    ensures
      var before := Document(SaveDocument(cs, formatIso));
      var after := FileAfterSave(before, SaveDocument(more, formatIso), CutShort(insideCharacter));
      && LoadContacts(before, parseIso) == Success(cs)
      && LoadContacts(after, parseIso) != Success(cs)
      && LoadContacts(after, parseIso) == if insideCharacter then Failure(NotText) else Success([])
  {
    SaveThenLoad(cs, formatIso, parseIso);
  }

  /** The file after a save that writes `doc` to a temporary file and then
      renames it over the contacts file: a failure at any step leaves the
      old file in place. */
  function FileAfterAtomicSave(before: StoredFile, doc: seq<Fields>, outcome: SaveOutcome): (after: StoredFile)
    ensures outcome.Written? ==> after == Document(doc)
    ensures !outcome.Written? ==> forall parseIso :: LoadContacts(after, parseIso) == LoadContacts(before, parseIso)
  {
    if outcome.Written? then Document(doc) else before
  }

  /** With the atomic save, a restart loads either the saved list or exactly
      what it would have loaded before the save. */
  lemma AtomicSaveKeepsOrReplaces(
    before: StoredFile, cs: seq<Contact>, outcome: SaveOutcome,
    formatIso: Timestamp -> string, parseIso: string -> Option<Timestamp>)
    requires AllValid(cs)
    requires IsoRoundTrips(formatIso, parseIso)
    ensures
      LoadContacts(FileAfterAtomicSave(before, SaveDocument(cs, formatIso), outcome), parseIso)
        == if outcome.Written? then Success(cs) else LoadContacts(before, parseIso)
  {
    if outcome.Written? {
      SaveThenLoad(cs, formatIso, parseIso);
    }
  }
}
