/** The contact record of models/contact.py: two required text fields and
    three optional ones with a default of None, and no length constraints.
    The field readers here model the pydantic construction `Contact(**fields)`;
    the constrained record of models.py reuses them with its own bounds. */
module ContactRecord {
  import opened Wrappers

  /** A point in time. Its calendar structure (and its ISO-8601 text form)
      is opaque to the store, which only stores and compares it. */
  datatype Timestamp = Timestamp(instant: int)

  datatype Contact = Contact(
    name: string,
    phone: string,
    email: Option<string>,
    notes: Option<string>,
    lastContacted: Option<Timestamp>)

  /** A value given for a field: a keyword argument or a decoded JSON value
      (JSON floats, arrays and objects are not modelled). */
  datatype Value = Null | Bool(b: bool) | Num(n: int) | Str(s: string) | Time(t: Timestamp)

  /** Keyword arguments, or one decoded JSON object, keyed by field name. */
  type Fields = map<string, Value>

  datatype FieldName = Name | Phone | Email | Notes | LastContacted

  function KeyOf(f: FieldName): string {
    match f
    case Name => "name"
    case Phone => "phone"
    case Email => "email"
    case Notes => "notes"
    case LastContacted => "last_contacted"
  }

  datatype Problem = Missing | WrongType | TooShort(minLength: nat) | TooLong(maxLength: nat)

  datatype FieldError = FieldError(field: FieldName, problem: Problem)

  /** Length limits of a text field; `max == None` means no upper limit. */
  datatype Bounds = Bounds(min: nat, max: Option<nat>)

  const Unbounded: Bounds := Bounds(0, None)

  predicate WithinBounds(s: string, b: Bounds) {
    b.min <= |s| && (b.max.None? || |s| <= b.max.value)
  }

  function CheckLength(s: string, b: Bounds): (r: Result<string, Problem>)
    ensures r.Success? <==> WithinBounds(s, b)
    ensures r.Success? ==> r.value == s
    ensures r.Failure? ==> r.error == (if |s| < b.min then TooShort(b.min) else TooLong(b.max.value))
  {
    if |s| < b.min then Failure(TooShort(b.min))
    else if b.max.Some? && |s| > b.max.value then Failure(TooLong(b.max.value))
    else Success(s)
  }

  /** A required `str` field: it must be present and a string within bounds. */
  function RequiredText(d: Fields, f: FieldName, b: Bounds): (r: Result<string, Problem>)
    ensures r.Success? <==> KeyOf(f) in d && d[KeyOf(f)].Str? && WithinBounds(d[KeyOf(f)].s, b)
    ensures r.Success? ==> r.value == d[KeyOf(f)].s
    ensures KeyOf(f) !in d ==> r == Failure(Missing)
  {
    var k := KeyOf(f);
    if k !in d then Failure(Missing)
    else if !d[k].Str? then Failure(WrongType)
    else CheckLength(d[k].s, b)
  }

  /** An `Optional[str]` field with default None: absent or null gives None,
      and the bounds apply only to a string. */
  function OptionalText(d: Fields, f: FieldName, b: Bounds): (r: Result<Option<string>, Problem>)
    ensures (KeyOf(f) !in d || d[KeyOf(f)].Null?) ==> r == Success(None)
    ensures r.Success? && r.value.Some? ==>
              KeyOf(f) in d && d[KeyOf(f)] == Str(r.value.value) && WithinBounds(r.value.value, b)
    ensures KeyOf(f) in d && d[KeyOf(f)].Str? && WithinBounds(d[KeyOf(f)].s, b) ==>
              r == Success(Some(d[KeyOf(f)].s))
    ensures r.Failure? ==> KeyOf(f) in d && !d[KeyOf(f)].Null?
  {
    var k := KeyOf(f);
    if k !in d || d[k].Null? then Success(None)
    else if !d[k].Str? then Failure(WrongType)
    else match CheckLength(d[k].s, b)
      case Success(s) => Success(Some(s))
      case Failure(p) => Failure(p)
  }

  /** An `Optional[datetime]` field with default None. */
  function OptionalTime(d: Fields, f: FieldName): (r: Result<Option<Timestamp>, Problem>)
    ensures (KeyOf(f) !in d || d[KeyOf(f)].Null?) ==> r == Success(None)
    ensures r.Success? && r.value.Some? ==> KeyOf(f) in d && d[KeyOf(f)] == Time(r.value.value)
    ensures r.Failure? <==> KeyOf(f) in d && !d[KeyOf(f)].Null? && !d[KeyOf(f)].Time?
  {
    var k := KeyOf(f);
    if k !in d || d[k].Null? then Success(None)
    else if d[k].Time? then Success(Some(d[k].t))
    else Failure(WrongType)
  }

  function ErrorsOf<T>(f: FieldName, r: Result<T, Problem>): (e: seq<FieldError>)
    ensures r.Success? <==> e == []
    ensures r.Failure? ==> e == [FieldError(f, r.error)]
  {
    if r.Success? then [] else [FieldError(f, r.error)]
  }

  /** Combine the five field outcomes the way pydantic does: a record when
      every field is accepted, otherwise every field's error in declaration order. */
  function Assemble(
    name: Result<string, Problem>,
    phone: Result<string, Problem>,
    email: Result<Option<string>, Problem>,
    notes: Result<Option<string>, Problem>,
    last: Result<Option<Timestamp>, Problem>): (r: Result<Contact, seq<FieldError>>)
    ensures r.Success? <==> name.Success? && phone.Success? && email.Success? && notes.Success? && last.Success?
    ensures r.Success? ==> r.value == Contact(name.value, phone.value, email.value, notes.value, last.value)
    ensures r.Failure? ==> r.error != []
    ensures r.Failure? ==>
              r.error == ErrorsOf(Name, name) + ErrorsOf(Phone, phone) + ErrorsOf(Email, email)
                         + ErrorsOf(Notes, notes) + ErrorsOf(LastContacted, last)
  {
    var errors := ErrorsOf(Name, name) + ErrorsOf(Phone, phone) + ErrorsOf(Email, email)
                  + ErrorsOf(Notes, notes) + ErrorsOf(LastContacted, last);
    if errors == [] then Success(Contact(name.value, phone.value, email.value, notes.value, last.value))
    else Failure(errors)
  }

  /** The string given for a field, or None when the field holds anything else. */
  function TextOf(d: Fields, f: FieldName): Option<string> {
    if KeyOf(f) in d && d[KeyOf(f)].Str? then Some(d[KeyOf(f)].s) else None
  }

  /** The datetime given for a field, or None when the field holds anything else. */
  function TimeOf(d: Fields, f: FieldName): Option<Timestamp> {
    if KeyOf(f) in d && d[KeyOf(f)].Time? then Some(d[KeyOf(f)].t) else None
  }

  /** `Contact(**d)` for the unconstrained record. */
  function Build(d: Fields): (r: Result<Contact, seq<FieldError>>)
    ensures r.Success? <==>
              && KeyOf(Name) in d && d[KeyOf(Name)].Str?
              && KeyOf(Phone) in d && d[KeyOf(Phone)].Str?
              && (KeyOf(Email) !in d || d[KeyOf(Email)].Null? || d[KeyOf(Email)].Str?)
              && (KeyOf(Notes) !in d || d[KeyOf(Notes)].Null? || d[KeyOf(Notes)].Str?)
              && (KeyOf(LastContacted) !in d || d[KeyOf(LastContacted)].Null? || d[KeyOf(LastContacted)].Time?)
    ensures r.Success? ==>
              r.value == Contact(d[KeyOf(Name)].s, d[KeyOf(Phone)].s,
                                 TextOf(d, Email), TextOf(d, Notes), TimeOf(d, LastContacted))
  {
    Assemble(
      RequiredText(d, Name, Unbounded),
      RequiredText(d, Phone, Unbounded),
      OptionalText(d, Email, Unbounded),
      OptionalText(d, Notes, Unbounded),
      OptionalTime(d, LastContacted))
  }

  /** The keyword arguments of a call `Contact(name=..., phone=..., ...)`;
      an argument left at None is simply not passed. */
  function Kwargs(
    name: string,
    phone: string,
    email: Option<string> := None,
    notes: Option<string> := None,
    lastContacted: Option<Timestamp> := None): (d: Fields)
    ensures KeyOf(Name) in d && KeyOf(Phone) in d
    ensures d[KeyOf(Name)] == Str(name) && d[KeyOf(Phone)] == Str(phone)
    ensures KeyOf(Email) in d <==> email.Some?
    ensures email.Some? ==> d[KeyOf(Email)] == Str(email.value)
    ensures KeyOf(Notes) in d <==> notes.Some?
    ensures notes.Some? ==> d[KeyOf(Notes)] == Str(notes.value)
    ensures KeyOf(LastContacted) in d <==> lastContacted.Some?
    ensures lastContacted.Some? ==> d[KeyOf(LastContacted)] == Time(lastContacted.value)
  {
    map[KeyOf(Name) := Str(name), KeyOf(Phone) := Str(phone)]
    + (if email.Some? then map[KeyOf(Email) := Str(email.value)] else map[])
    + (if notes.Some? then map[KeyOf(Notes) := Str(notes.value)] else map[])
    + (if lastContacted.Some? then map[KeyOf(LastContacted) := Time(lastContacted.value)] else map[])
  }

  /** `name` is required: without it construction fails and says so. */
  lemma NameIsRequired(d: Fields)
    requires KeyOf(Name) !in d
    ensures Build(d).Failure? && FieldError(Name, Missing) in Build(d).error
  {
    assert Build(d).error[0] == FieldError(Name, Missing);
  }

  /** `phone` is required: without it construction fails and says so. */
  lemma PhoneIsRequired(d: Fields)
    requires KeyOf(Phone) !in d
    ensures Build(d).Failure? && FieldError(Phone, Missing) in Build(d).error
  {
    var r := Build(d);
    var errors := ErrorsOf(Name, RequiredText(d, Name, Unbounded)) + ErrorsOf(Phone, RequiredText(d, Phone, Unbounded));
    assert FieldError(Phone, Missing) in errors;
    assert r.error == errors + (r.error[|errors|..]);
  }

  /** Any text is accepted for any field, the empty string included; fields
      that are not passed default to None. */
  lemma AcceptsAnyText(name: string, phone: string, email: Option<string>, notes: Option<string>, lastContacted: Option<Timestamp>)
    ensures Build(Kwargs(name, phone, email, notes, lastContacted)) == Success(Contact(name, phone, email, notes, lastContacted))
    ensures Build(Kwargs(name, phone)) == Success(Contact(name, phone, None, None, None))
  {
    var d := Kwargs(name, phone, email, notes, lastContacted);
    assert RequiredText(d, Name, Unbounded) == Success(name);
    assert RequiredText(d, Phone, Unbounded) == Success(phone);
    assert OptionalText(d, Email, Unbounded) == Success(email);
    assert OptionalText(d, Notes, Unbounded) == Success(notes);
    assert OptionalTime(d, LastContacted) == Success(lastContacted);
    var d0 := Kwargs(name, phone);
    assert RequiredText(d0, Name, Unbounded) == Success(name);
    assert RequiredText(d0, Phone, Unbounded) == Success(phone);
  }
}
