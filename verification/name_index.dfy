/** Case-insensitive lookup of a contact by name, shared vocabulary of both
    store revisions: which entries match a query, which one is the first. */
module NameIndex {
  import opened Wrappers
  import opened CaseFold
  import opened ContactRecord

  /** `contact.name.lower() == name.lower()` */
  predicate Matches(c: Contact, name: string) {
    SameName(c.name, name)
  }

  /** `any(c.name.lower() == name.lower() for c in cs)` */
  predicate HasMatch(cs: seq<Contact>, name: string) {
    exists i | 0 <= i < |cs| :: Matches(cs[i], name)
  }

  /** `i` is the position of the first entry matching `name`. */
  ghost predicate IsFirstMatch(cs: seq<Contact>, name: string, i: int) {
    && 0 <= i < |cs|
    && Matches(cs[i], name)
    && forall j :: 0 <= j < i ==> !Matches(cs[j], name)
  }

  /** The position of the first entry matching `name`, scanning in list order. */
  function FirstMatch(cs: seq<Contact>, name: string): (r: Option<nat>)
    ensures r.None? <==> !HasMatch(cs, name)
    ensures r.Some? ==> IsFirstMatch(cs, name, r.value)
  {
    if cs == [] then None
    else if Matches(cs[0], name) then Some(0)
    else match FirstMatch(cs[1..], name)
      case None => None
      case Some(i) => Some(i + 1)
  }

  /** Skipping a first entry that does not match moves every match, and
      the first one, one place down. */
  lemma MatchInTail(cs: seq<Contact>, name: string)
    requires cs != [] && !Matches(cs[0], name)
    ensures HasMatch(cs, name) <==> HasMatch(cs[1..], name)
    ensures HasMatch(cs, name) ==> FirstMatch(cs, name).value == FirstMatch(cs[1..], name).value + 1
  {
    if HasMatch(cs, name) {
      var i :| 0 <= i < |cs| && Matches(cs[i], name);
      assert cs[1..][i - 1] == cs[i];
    }
    if HasMatch(cs[1..], name) {
      var i :| 0 <= i < |cs[1..]| && Matches(cs[1..][i], name);
      assert cs[i + 1] == cs[1..][i];
    }
  }

  /** No two entries have the same name after lower-casing. */
  ghost predicate NoDuplicateNames(cs: seq<Contact>) {
    forall i, j :: 0 <= i < j < |cs| ==> !SameName(cs[i].name, cs[j].name)
  }

  /** Without duplicate names the first match is the only one. */
  lemma FirstMatchIsOnlyMatch(cs: seq<Contact>, name: string, i: int, j: int)
    requires NoDuplicateNames(cs)
    requires IsFirstMatch(cs, name, i)
    requires 0 <= j < |cs| && Matches(cs[j], name)
    ensures j == i
  {
    if j > i {
      assert SameName(cs[i].name, cs[j].name);
    }
  }
}
