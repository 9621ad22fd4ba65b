/** Case folding of contact names.

    Python's `str.lower()` is modelled by its ASCII part: the letters
    'A'..'Z' become 'a'..'z' and every other character is kept as it is. */
module CaseFold {

  predicate IsUpper(c: char) {
    'A' <= c <= 'Z'
  }

  function LowerChar(c: char): (r: char)
    ensures !IsUpper(r)
    ensures !IsUpper(c) ==> r == c
    ensures IsUpper(c) ==> r as int == c as int + 32
  {
    if IsUpper(c) then (c as int + 32) as char else c
  }

  /** The lower-cased copy of `s`, character by character. */
  function Lower(s: string): (r: string)
    ensures |r| == |s|
    ensures forall i :: 0 <= i < |r| ==> r[i] == LowerChar(s[i])
    ensures forall i :: 0 <= i < |r| ==> !IsUpper(r[i])
  {
    seq(|s|, i requires 0 <= i < |s| => LowerChar(s[i]))
  }

  /** Two names denote the same contact when they agree after lower-casing. */
  predicate SameName(a: string, b: string) {
    Lower(a) == Lower(b)
  }
}
