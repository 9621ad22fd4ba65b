/** The sorted view of the file-backed store:
    `sorted(contacts, key=lambda c: c.name.lower())`. Python's sort is
    stable, so contacts whose lower-cased names are equal keep their
    insertion order; the insertion sort below has the same output. */
module SortedView {
  import opened CaseFold
  import opened NameOrder
  import opened ContactRecord

  function SortKey(c: Contact): string {
    Lower(c.name)
  }

  ghost predicate SortedByName(s: seq<Contact>) {
    forall i, j :: 0 <= i < j < |s| ==> NotAfter(SortKey(s[i]), SortKey(s[j]))
  }

  /** The contacts of `s` whose sort key is `k`, in their order in `s`. */
  function WithKey(s: seq<Contact>, k: string): (r: seq<Contact>)
    ensures |r| <= |s|
  {
    if s == [] then []
    else (if SortKey(s[0]) == k then [s[0]] else []) + WithKey(s[1..], k)
  }

  /** Place `x` just before the first element of `t` that it does not sort after. */
  function Insert(x: Contact, t: seq<Contact>): (r: seq<Contact>)
    ensures multiset(r) == multiset(t) + multiset{x}
    ensures |r| == |t| + 1
  {
    if t == [] || NotAfter(SortKey(x), SortKey(t[0])) then [x] + t
    else
      assert t == [t[0]] + t[1..];
      [t[0]] + Insert(x, t[1..])
  }

  function SortByName(s: seq<Contact>): (r: seq<Contact>)
    ensures multiset(r) == multiset(s)
    ensures |r| == |s|
  {
    if s == [] then []
    else
      assert s == [s[0]] + s[1..];
      Insert(s[0], SortByName(s[1..]))
  }

  lemma {:induction false} InsertKeepsSorted(x: Contact, t: seq<Contact>)
    requires SortedByName(t)
    ensures SortedByName(Insert(x, t))
    decreases |t|
  {
    if t == [] {
    } else if NotAfter(SortKey(x), SortKey(t[0])) {
      var r := [x] + t;
      assert r == Insert(x, t);
      forall i, j | 0 <= i < j < |r|
        ensures NotAfter(SortKey(r[i]), SortKey(r[j]))
      {
        if i == 0 && j > 1 {
          NotAfterTransitive(SortKey(x), SortKey(t[0]), SortKey(t[j - 1]));
        }
      }
    } else {
      var u := Insert(x, t[1..]);
      InsertKeepsSorted(x, t[1..]);
      NotAfterTotal(SortKey(x), SortKey(t[0]));
      forall j | 0 <= j < |u|
        ensures NotAfter(SortKey(t[0]), SortKey(u[j]))
      {
        assert u[j] in multiset(u);
        if u[j] != x {
          assert u[j] in multiset(t[1..]);
          var m :| 0 <= m < |t[1..]| && t[1..][m] == u[j];
          assert t[m + 1] == u[j];
        }
      }
      var r := [t[0]] + u;
      assert r == Insert(x, t);
      forall i, j | 0 <= i < j < |r|
        ensures NotAfter(SortKey(r[i]), SortKey(r[j]))
      {
        if i > 0 {
          assert r[i] == u[i - 1] && r[j] == u[j - 1];
        }
      }
    }
  }

  /** Inserting `x` adds it in front of the other contacts with its key. */
  lemma {:induction false} InsertWithKey(x: Contact, t: seq<Contact>, k: string)
    ensures WithKey(Insert(x, t), k) == (if SortKey(x) == k then [x] else []) + WithKey(t, k)
    decreases |t|
  {
    if t == [] || NotAfter(SortKey(x), SortKey(t[0])) {
      var r := [x] + t;
      assert r[0] == x && r[1..] == t;
    } else {
      var u := Insert(x, t[1..]);
      InsertWithKey(x, t[1..], k);
      LessAsymmetric(SortKey(t[0]), SortKey(x));
      var r := [t[0]] + u;
      assert r[0] == t[0] && r[1..] == u;
      assert WithKey(r, k) == (if SortKey(t[0]) == k then [t[0]] else []) + WithKey(u, k);
      assert WithKey(t, k) == (if SortKey(t[0]) == k then [t[0]] else []) + WithKey(t[1..], k);
      if SortKey(t[0]) == k {
        assert SortKey(x) != k;
      }
    }
  }

  lemma {:induction false} SortByNameSorted(s: seq<Contact>)
    ensures SortedByName(SortByName(s))
    decreases |s|
  {
    if s != [] {
      SortByNameSorted(s[1..]);
      InsertKeepsSorted(s[0], SortByName(s[1..]));
    }
  }

  /** The sort is stable: for every key, the contacts with that key appear
      in the same relative order as before. */
  lemma {:induction false} SortByNameStable(s: seq<Contact>, k: string)
    ensures WithKey(SortByName(s), k) == WithKey(s, k)
    decreases |s|
  {
    if s != [] {
      SortByNameStable(s[1..], k);
      InsertWithKey(s[0], SortByName(s[1..]), k);
    }
  }

  lemma SortByNameStableAll(s: seq<Contact>)
    ensures forall k :: WithKey(SortByName(s), k) == WithKey(s, k)
  {
    forall k
      ensures WithKey(SortByName(s), k) == WithKey(s, k)
    {
      SortByNameStable(s, k);
    }
  }
}
