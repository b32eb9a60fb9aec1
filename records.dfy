/** Lists of records filtered on one property, the `list.filter(r => r.k === v)` and
    `list.filter(r => r.k !== v)` expressions every list component is built from. */
module Records {
  import opened Js

  /** `s.filter(r => r[k] === v)`. */
  function Where(s: seq<Obj>, k: string, v: Value): seq<Obj>
  {
    if s == [] then [] else (if Get(s[0], k) == v then [s[0]] else []) + Where(s[1..], k, v)
  }

  /** `s.filter(r => r[k] !== v)`. */
  function WhereNot(s: seq<Obj>, k: string, v: Value): seq<Obj>
  {
    if s == [] then [] else (if Get(s[0], k) != v then [s[0]] else []) + WhereNot(s[1..], k, v)
  }

  /** `s.filter(r => r.Id !== id)`: what cancel and delete leave behind. */
  function WithoutId(s: seq<Obj>, id: Value): seq<Obj>
  {
    WhereNot(s, "Id", id)
  }

  /** `s.some(r => r.Id === id)`. */
  predicate HasId(s: seq<Obj>, id: Value)
  {
    exists r :: r in s && Get(r, "Id") == id
  }

  /** `Where` keeps exactly the records whose property equals `v`. */
  lemma {:induction false} WhereMembers(s: seq<Obj>, k: string, v: Value)
    ensures forall r :: r in Where(s, k, v) <==> r in s && Get(r, k) == v
    ensures |Where(s, k, v)| <= |s|
  {
    if s != [] {
      WhereMembers(s[1..], k, v);
      assert forall r :: r in s <==> r == s[0] || r in s[1..];
    }
  }

  /** `WhereNot` keeps exactly the records whose property differs from `v`. */
  lemma {:induction false} WhereNotMembers(s: seq<Obj>, k: string, v: Value)
    ensures forall r :: r in WhereNot(s, k, v) <==> r in s && Get(r, k) != v
    ensures |WhereNot(s, k, v)| <= |s|
  {
    if s != [] {
      WhereNotMembers(s[1..], k, v);
      assert forall r :: r in s <==> r == s[0] || r in s[1..];
    }
  }

  lemma {:induction false} WhereAppendKept(a: seq<Obj>, b: seq<Obj>, k: string, v: Value)
    ensures Where(a + b, k, v) == Where(a, k, v) + Where(b, k, v)
  {
    if a == [] {
      assert a + b == b;
    } else {
      assert (a + b)[1..] == a[1..] + b;
      WhereAppendKept(a[1..], b, k, v);
    }
  }

  lemma {:induction false} WhereAppendDropped(a: seq<Obj>, b: seq<Obj>, k: string, v: Value)
    ensures WhereNot(a + b, k, v) == WhereNot(a, k, v) + WhereNot(b, k, v)
  {
    if a == [] {
      assert a + b == b;
    } else {
      assert (a + b)[1..] == a[1..] + b;
      WhereAppendDropped(a[1..], b, k, v);
    }
  }

  /** Filtering works piecewise, so the kept records stay in their original order. */
  lemma WhereAppend(a: seq<Obj>, b: seq<Obj>, k: string, v: Value)
    ensures Where(a + b, k, v) == Where(a, k, v) + Where(b, k, v)
    ensures WhereNot(a + b, k, v) == WhereNot(a, k, v) + WhereNot(b, k, v)
  {
    WhereAppendKept(a, b, k, v);
    WhereAppendDropped(a, b, k, v);
  }

  /** The two filters split a list: together they hold every record exactly as often. */
  lemma {:induction false} WherePartition(s: seq<Obj>, k: string, v: Value)
    ensures multiset(Where(s, k, v)) + multiset(WhereNot(s, k, v)) == multiset(s)
    ensures |Where(s, k, v)| + |WhereNot(s, k, v)| == |s|
  {
    if s != [] {
      WherePartition(s[1..], k, v);
      assert s == [s[0]] + s[1..];
    }
  }

  /** A list in which no record has property value `v` is left as it is by `WhereNot`. */
  lemma {:induction false} WhereNotNoMatch(s: seq<Obj>, k: string, v: Value)
    requires forall r :: r in s ==> Get(r, k) != v
    ensures WhereNot(s, k, v) == s
    ensures Where(s, k, v) == []
  {
    if s != [] {
      assert s[0] in s;
      assert forall r :: r in s[1..] ==> r in s;
      WhereNotNoMatch(s[1..], k, v);
    }
  }

  /** Removing by `Id` deletes every entry with that `Id` and keeps all others in order. */
  lemma WithoutIdRemovesAll(s: seq<Obj>, id: Value)
    ensures forall r :: r in WithoutId(s, id) <==> r in s && Get(r, "Id") != id
    ensures !HasId(WithoutId(s, id), id)
    ensures forall a, b :: WithoutId(a + b, id) == WithoutId(a, id) + WithoutId(b, id)
  {
    WhereNotMembers(s, "Id", id);
    forall a, b ensures WithoutId(a + b, id) == WithoutId(a, id) + WithoutId(b, id) {
      WhereAppend(a, b, "Id", id);
    }
  }

  /** Removing an absent `Id` is a no-op, not an error. */
  lemma WithoutAbsentId(s: seq<Obj>, id: Value)
    requires !HasId(s, id)
    ensures WithoutId(s, id) == s
  {
    WhereNotNoMatch(s, "Id", id);
  }

  /** Removing an `Id` twice is the same as removing it once. */
  lemma WithoutIdIdempotent(s: seq<Obj>, id: Value)
    ensures WithoutId(WithoutId(s, id), id) == WithoutId(s, id)
  {
    WithoutIdRemovesAll(s, id);
    WithoutAbsentId(WithoutId(s, id), id);
  }
}
