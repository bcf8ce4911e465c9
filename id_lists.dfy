/**
 * The immutable list updates the list components hand to React's state
 * setters: `[...xs, x]`, `xs.map(x => x.id === id ? v : x)` and
 * `xs.filter(x => x.id !== id)`. They are generic in the element type; the
 * `key` argument reads the element's `id`.
 */
module IdLists {

  /** `[...s, x]`: the old list, unchanged, then `x`. */
  function Append<T>(s: seq<T>, x: T): (r: seq<T>)
    ensures |r| == |s| + 1 && r[..|s|] == s && r[|s|] == x
  {
    s + [x]
  }

  /** `s.map(e => key(e) === id ? v : e)`. */
  function ReplaceId<T>(s: seq<T>, id: int, key: T -> int, v: T): (r: seq<T>)
    ensures |r| == |s|
    ensures forall i :: 0 <= i < |s| && key(s[i]) == id ==> r[i] == v
    ensures forall i :: 0 <= i < |s| && key(s[i]) != id ==> r[i] == s[i]
  {
    if s == [] then []
    else [if key(s[0]) == id then v else s[0]] + ReplaceId(s[1..], id, key, v)
  }

  /** `s.filter(e => key(e) !== id)`. */
  function RemoveId<T(==)>(s: seq<T>, id: int, key: T -> int): (r: seq<T>)
    ensures |r| <= |s|
    ensures forall i :: 0 <= i < |r| ==> key(r[i]) != id && r[i] in s
    ensures forall i :: 0 <= i < |s| && key(s[i]) != id ==> s[i] in r
  {
    if s == [] then []
    else (if key(s[0]) == id then [] else [s[0]]) + RemoveId(s[1..], id, key)
  }

  /** Filtering works piece by piece, so the survivors keep their order. */
  lemma {:induction false} RemoveIdDistributes<T>(a: seq<T>, b: seq<T>, id: int, key: T -> int)
    ensures RemoveId(a + b, id, key) == RemoveId(a, id, key) + RemoveId(b, id, key)
  {
    if a != [] {
      RemoveIdDistributes(a[1..], b, id, key);
      assert (a + b)[0] == a[0] && (a + b)[1..] == a[1..] + b;
      var head := if key(a[0]) == id then [] else [a[0]];
      assert RemoveId(a + b, id, key) == head + RemoveId(a[1..] + b, id, key);
      assert RemoveId(a, id, key) == head + RemoveId(a[1..], id, key);
    } else {
      assert a + b == b;
    }
  }

  /** With no element carrying the id, the filter changes nothing. */
  lemma {:induction false} RemoveIdAbsent<T>(s: seq<T>, id: int, key: T -> int)
    requires forall i :: 0 <= i < |s| ==> key(s[i]) != id
    ensures RemoveId(s, id, key) == s
  {
    if s != [] {
      RemoveIdAbsent(s[1..], id, key);
      assert [s[0]] + s[1..] == s;
    }
  }

  /** Removing the same id twice is removing it once. */
  lemma RemoveIdIdempotent<T>(s: seq<T>, id: int, key: T -> int)
    ensures RemoveId(RemoveId(s, id, key), id, key) == RemoveId(s, id, key)
  {
    RemoveIdAbsent(RemoveId(s, id, key), id, key);
  }

  /** Replacing with an element of the same id keeps every position's id. */
  lemma ReplaceIdKeepsIds<T>(s: seq<T>, id: int, key: T -> int, v: T)
    requires key(v) == id
    ensures forall i :: 0 <= i < |s| ==> key(ReplaceId(s, id, key, v)[i]) == key(s[i])
  {
  }

  /** With no element carrying the id, the replacement changes nothing. */
  lemma ReplaceIdAbsent<T>(s: seq<T>, id: int, key: T -> int, v: T)
    requires forall i :: 0 <= i < |s| ==> key(s[i]) != id
    ensures ReplaceId(s, id, key, v) == s
  {
  }
}
