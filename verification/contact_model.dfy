/** The validated contact of models.py: the same five fields as the plain
    record, with the declared length limits, plus the JSON conversions the
    file-backed store uses (`Contact.from_json` and `contact.json()`).

    ISO-8601 text is produced and parsed by `datetime.isoformat` and
    `datetime.fromisoformat`; both are parameters here (`formatIso`,
    `parseIso`), a parse failure being `None`. */
module ContactModel {
  import opened Wrappers
  import opened ContactRecord

  const NameBounds: Bounds := Bounds(1, Some(100))
  const PhoneBounds: Bounds := Bounds(5, Some(20))
  const EmailBounds: Bounds := Bounds(0, Some(100))
  const NotesBounds: Bounds := Bounds(0, Some(1000))

  /** The field constraints declared on the validated contact: exactly the
      length limits that construction checks, field by field. */
  predicate Valid(c: Contact): (b: bool)
    ensures b <==>
              && WithinBounds(c.name, NameBounds) && WithinBounds(c.phone, PhoneBounds)
              && (c.email.None? || WithinBounds(c.email.value, EmailBounds))
              && (c.notes.None? || WithinBounds(c.notes.value, NotesBounds))
  {
    && 1 <= |c.name| <= 100
    && 5 <= |c.phone| <= 20
    && (c.email.None? || |c.email.value| <= 100)
    && (c.notes.None? || |c.notes.value| <= 1000)
  }

  predicate AllValid(cs: seq<Contact>) {
    forall i :: 0 <= i < |cs| ==> Valid(cs[i])
  }

  /** `Contact(**d)` for the validated contact: the plain record's
      construction, with the length limits checked as well. */
  function Build(d: Fields): (r: Result<Contact, seq<FieldError>>)
    ensures r.Success? ==> Valid(r.value)
    ensures r.Success? ==> ContactRecord.Build(d) == r
    ensures ContactRecord.Build(d).Success? && Valid(ContactRecord.Build(d).value) ==> r.Success?
  {
    Assemble(
      RequiredText(d, Name, NameBounds),
      RequiredText(d, Phone, PhoneBounds),
      OptionalText(d, Email, EmailBounds),
      OptionalText(d, Notes, NotesBounds),
      OptionalTime(d, LastContacted))
  }

  /** The keyword constructor `Contact(name=..., phone=..., email=None,
      notes=None, last_contacted=None)`: it yields exactly the given record
      when that record satisfies the constraints, and fails otherwise. */
  function New(
    name: string,
    phone: string,
    email: Option<string> := None,
    notes: Option<string> := None,
    lastContacted: Option<Timestamp> := None): (r: Result<Contact, seq<FieldError>>)
    ensures r.Success? <==> Valid(Contact(name, phone, email, notes, lastContacted))
    ensures r.Success? ==> r.value == Contact(name, phone, email, notes, lastContacted)
    ensures r.Failure? ==> r.error != []
  {
    AcceptsAnyText(name, phone, email, notes, lastContacted);
    Build(Kwargs(name, phone, email, notes, lastContacted))
  }

  /** Omitted optional fields default to None. */
  lemma OptionalFieldsDefaultToNone(name: string, phone: string)
    requires New(name, phone).Success?
    ensures New(name, phone).value.email == None
    ensures New(name, phone).value.notes == None
    ensures New(name, phone).value.lastContacted == None
  {
  }

  /** An empty name is rejected, and the error names the field. */
  lemma EmptyNameRejected(phone: string)
    ensures New("", phone).Failure?
    ensures FieldError(Name, TooShort(1)) in New("", phone).error
  {
    var d := Kwargs("", phone);
    assert RequiredText(d, Name, NameBounds) == Failure(TooShort(1));
    assert New("", phone).error[0] == FieldError(Name, TooShort(1));
  }

  /** An empty phone is rejected, and the error names the field. */
  lemma EmptyPhoneRejected(name: string)
    ensures New(name, "").Failure?
    ensures FieldError(Phone, TooShort(5)) in New(name, "").error
  {
    var d := Kwargs(name, "");
    var nameErrors := ErrorsOf(Name, RequiredText(d, Name, NameBounds));
    assert RequiredText(d, Phone, PhoneBounds) == Failure(TooShort(5));
    var r := New(name, "");
    assert r.error[|nameErrors|] == FieldError(Phone, TooShort(5));
  }

  /** JSON truthiness, as tested by `if json_dict["last_contacted"]`. */
  predicate Truthy(v: Value) {
    match v
    case Null => false
    case Bool(b) => b
    case Num(n) => n != 0
    case Str(s) => s != []
    case Time(_) => true
  }

  /** Why reading one stored record can fail; none of these is caught by the store. */
  datatype JsonError =
    | Invalid(errors: seq<FieldError>)
    | BadTimestamp(text: string)
    | TimestampNotText(value: Value)

  /** The first step of `from_json`: a present, truthy `last_contacted` is
      parsed from ISO-8601 text; every other entry is passed on unchanged. */
  function ConvertLastContacted(d: Fields, parseIso: string -> Option<Timestamp>): (r: Result<Fields, JsonError>)
    ensures (KeyOf(LastContacted) !in d || !Truthy(d[KeyOf(LastContacted)])) ==> r == Success(d)
    ensures r.Success? ==> r.value.Keys == d.Keys
    ensures r.Success? ==> forall k :: k in d && k != KeyOf(LastContacted) ==> r.value[k] == d[k]
    ensures KeyOf(LastContacted) in d && Truthy(d[KeyOf(LastContacted)]) ==>
              (r.Success? <==> d[KeyOf(LastContacted)].Str? && parseIso(d[KeyOf(LastContacted)].s).Some?)
    ensures r.Success? && KeyOf(LastContacted) in d && Truthy(d[KeyOf(LastContacted)]) ==>
              r.value[KeyOf(LastContacted)] == Time(parseIso(d[KeyOf(LastContacted)].s).value)
  {
    var k := KeyOf(LastContacted);
    if k !in d || !Truthy(d[k]) then Success(d)
    else if !d[k].Str? then Failure(TimestampNotText(d[k]))
    else match parseIso(d[k].s)
      case None => Failure(BadTimestamp(d[k].s))
      case Some(t) => Success(d[k := Time(t)])
  }

  /** A required text field of a stored record is present, a string, and within its limits. */
  predicate TextFits(d: Fields, f: FieldName, b: Bounds) {
    KeyOf(f) in d && d[KeyOf(f)].Str? && WithinBounds(d[KeyOf(f)].s, b)
  }

  /** An optional text field of a stored record is absent, null, or a string within its limits. */
  predicate OptionalTextFits(d: Fields, f: FieldName, b: Bounds) {
    KeyOf(f) !in d || d[KeyOf(f)].Null? || TextFits(d, f, b)
  }

  /** The stored `last_contacted` is absent, null, or non-empty ISO-8601 text. */
  predicate TimestampReadable(d: Fields, parseIso: string -> Option<Timestamp>) {
    var k := KeyOf(LastContacted);
    k !in d || d[k].Null? || (d[k].Str? && d[k].s != [] && parseIso(d[k].s).Some?)
  }

  /** The timestamp a stored record denotes: the parsed text, or None. */
  function TimestampRead(d: Fields, parseIso: string -> Option<Timestamp>): Option<Timestamp> {
    var k := KeyOf(LastContacted);
    if k in d && d[k].Str? && d[k].s != [] then parseIso(d[k].s) else None
  }

  /** `Contact.from_json`: convert the timestamp, then validate. It succeeds
      exactly on a record whose fields all fit, and then every field of the
      contact is the one the record gives, absent or null meaning None. */
  function FromJson(d: Fields, parseIso: string -> Option<Timestamp>): (r: Result<Contact, JsonError>)
    ensures r.Success? <==>
              && TextFits(d, Name, NameBounds) && TextFits(d, Phone, PhoneBounds)
              && OptionalTextFits(d, Email, EmailBounds) && OptionalTextFits(d, Notes, NotesBounds)
              && TimestampReadable(d, parseIso)
    ensures r.Success? ==> Valid(r.value)
    ensures r.Success? ==>
              r.value == Contact(d[KeyOf(Name)].s, d[KeyOf(Phone)].s,
                                 TextOf(d, Email), TextOf(d, Notes), TimestampRead(d, parseIso))
    ensures KeyOf(Name) !in d || KeyOf(Phone) !in d ==> r.Failure?
  {
    match ConvertLastContacted(d, parseIso)
    case Failure(e) => Failure(e)
    case Success(converted) =>
      match Build(converted)
      case Success(c) => Success(c)
      case Failure(errors) => Failure(Invalid(errors))
  }

  /** A complete stored record reads back field for field, the timestamp
      through `fromisoformat`. */
  lemma FromJsonReadsEveryField(parseIso: string -> Option<Timestamp>)
    requires parseIso("2024-06-01T12:00:00").Some?
    ensures
      var d := map[
        KeyOf(Name) := Str("Charlie"),
        KeyOf(Phone) := Str("555-5555"),
        KeyOf(Email) := Str("charlie@example.com"),
        KeyOf(Notes) := Str("Test note"),
        KeyOf(LastContacted) := Str("2024-06-01T12:00:00")];
      FromJson(d, parseIso) == Success(Contact("Charlie", "555-5555", Some("charlie@example.com"),
                                               Some("Test note"), parseIso("2024-06-01T12:00:00")))
  {
  }

  /** The JSON text of an optional string: the string or null. */
  function OptionalJson(s: Option<string>): Value {
    if s.Some? then Str(s.value) else Null
  }

  /** `json.loads(contact.json())`: every field under its own key, the
      timestamp as ISO-8601 text, a missing value as null. */
  function ToJson(c: Contact, formatIso: Timestamp -> string): (d: Fields)
    ensures d.Keys == {KeyOf(Name), KeyOf(Phone), KeyOf(Email), KeyOf(Notes), KeyOf(LastContacted)}
    ensures d[KeyOf(Name)] == Str(c.name) && d[KeyOf(Phone)] == Str(c.phone)
  {
    map[
      KeyOf(Name) := Str(c.name),
      KeyOf(Phone) := Str(c.phone),
      KeyOf(Email) := OptionalJson(c.email),
      KeyOf(Notes) := OptionalJson(c.notes),
      KeyOf(LastContacted) := if c.lastContacted.Some? then Str(formatIso(c.lastContacted.value)) else Null]
  }

  /** `isoformat` never yields empty text and `fromisoformat` reads back
      exactly what it wrote. */
  ghost predicate IsoRoundTrips(formatIso: Timestamp -> string, parseIso: string -> Option<Timestamp>) {
    forall t :: formatIso(t) != [] && parseIso(formatIso(t)) == Some(t)
  }

  /** Writing a valid contact to JSON and reading it back gives it back. */
  lemma FromJsonToJson(c: Contact, formatIso: Timestamp -> string, parseIso: string -> Option<Timestamp>)
    requires Valid(c)
    requires IsoRoundTrips(formatIso, parseIso)
    ensures FromJson(ToJson(c, formatIso), parseIso) == Success(c)
  {
    var d := ToJson(c, formatIso);
    var k := KeyOf(LastContacted);
    var converted := if c.lastContacted.Some? then d[k := Time(c.lastContacted.value)] else d;
    assert ConvertLastContacted(d, parseIso) == Success(converted);
    assert RequiredText(converted, Name, NameBounds) == Success(c.name);
    assert RequiredText(converted, Phone, PhoneBounds) == Success(c.phone);
    assert OptionalText(converted, Email, EmailBounds) == Success(c.email);
    assert OptionalText(converted, Notes, NotesBounds) == Success(c.notes);
    assert OptionalTime(converted, LastContacted) == Success(c.lastContacted);
  }
}
