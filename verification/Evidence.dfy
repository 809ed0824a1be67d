/**
 Selecting from a list and counting what was selected up to a key: the part of
 identity resolution that does not depend on what an identity is.
 */
module Evidence {
  function Keys<T>(ms: seq<T>, key: T -> string): set<string> { set i | 0 <= i < |ms| :: key(ms[i]) }

  lemma KeysAppend<T>(ms: seq<T>, m: T, key: T -> string)
    ensures Keys(ms + [m], key) == Keys(ms, key) + {key(m)}
  {
    var all := ms + [m];
    assert all[|ms|] == m;
    forall i | 0 <= i < |ms| ensures key(ms[i]) in Keys(all, key) {
      assert all[i] == ms[i];
    }
  }

  lemma FirstKey<T>(ms: seq<T>, key: T -> string)
    requires ms != []
    ensures key(ms[0]) in Keys(ms, key) && (|ms| == 1 ==> Keys(ms, key) == {key(ms[0])})
  {
  }

  /** The first of each key. */
  function Firsts<T>(hits: seq<T>, key: T -> string): seq<T> {
    if hits == [] then []
    else
      var front, h := Firsts(hits[..|hits| - 1], key), hits[|hits| - 1];
      if key(h) in Keys(front, key) then front else front + [h]
  }

  /** Keeping firsts keeps every key, once. */
  lemma {:induction false} FirstsKeepKeys<T>(hits: seq<T>, key: T -> string)
    ensures Keys(Firsts(hits, key), key) == Keys(hits, key) && |Firsts(hits, key)| == |Keys(hits, key)|
    ensures forall m | m in Firsts(hits, key) :: m in hits
  {
    if hits != [] {
      var n := |hits| - 1;
      FirstsKeepKeys(hits[..n], key);
      assert hits[..n] + [hits[n]] == hits;
      KeysAppend(hits[..n], hits[n], key);
      KeysAppend(Firsts(hits[..n], key), hits[n], key);
    }
  }

  function Filtered<T>(ms: seq<T>, hit: T -> bool): seq<T> {
    if ms == [] then []
    else Filtered(ms[..|ms| - 1], hit) + if hit(ms[|ms| - 1]) then [ms[|ms| - 1]] else []
  }

  predicate Has<T>(ms: seq<T>, id: T -> string, x: string) { exists i :: 0 <= i < |ms| && id(ms[i]) == x }

  function AddOnce<T>(bucket: seq<T>, m: T, id: T -> string): seq<T> {
    if Has(bucket, id, id(m)) then bucket else bucket + [m]
  }

  /** The first hit of each id. */
  function Scanned<T>(ms: seq<T>, hit: T -> bool, id: T -> string): seq<T> {
    if ms == [] then []
    else
      var front, m := Scanned(ms[..|ms| - 1], hit, id), ms[|ms| - 1];
      if hit(m) then AddOnce(front, m, id) else front
  }

  lemma {:induction false} FilteringAgrees<T(!new)>(ms: seq<T>, f: T -> bool, g: T -> bool)
    requires forall m :: f(m) == g(m)
    ensures Filtered(ms, f) == Filtered(ms, g)
  {
    if ms != [] { FilteringAgrees(ms[..|ms| - 1], f, g); }
  }

  lemma {:induction false} NoHits<T(!new)>(ms: seq<T>, hit: T -> bool, id: T -> string)
    requires forall m :: !hit(m)
    ensures Filtered(ms, hit) == [] && Scanned(ms, hit, id) == []
  {
    if ms != [] { NoHits(ms[..|ms| - 1], hit, id); }
  }

  /** The keys of all hits. */
  function Seen<T>(ms: seq<T>, hit: T -> bool, key: T -> string): set<string> {
    set i | 0 <= i < |ms| && hit(ms[i]) :: key(ms[i])
  }

  lemma SeenAppends<T>(ms: seq<T>, m: T, hit: T -> bool, key: T -> string)
    ensures Seen(ms + [m], hit, key) == Seen(ms, hit, key) + if hit(m) then {key(m)} else {}
  {
    var all := ms + [m];
    assert all[|ms|] == m;
    forall i | 0 <= i < |ms| && hit(ms[i]) ensures key(ms[i]) in Seen(all, hit, key) {
      assert all[i] == ms[i];
    }
  }

  lemma {:induction false} FilteringSees<T>(ms: seq<T>, hit: T -> bool, key: T -> string)
    ensures Keys(Filtered(ms, hit), key) == Seen(ms, hit, key)
    ensures forall m | m in Filtered(ms, hit) :: m in ms && hit(m)
  {
    if ms != [] {
      var n := |ms| - 1;
      FilteringSees(ms[..n], hit, key);
      assert ms[..n] + [ms[n]] == ms;
      SeenAppends(ms[..n], ms[n], hit, key);
      KeysAppend(Filtered(ms[..n], hit), ms[n], key);
      assert Filtered(ms[..n], hit) + [] == Filtered(ms[..n], hit);
    }
  }

  lemma AddOnceKeys<T>(bucket: seq<T>, m: T, id: T -> string, key: T -> string)
    requires forall i | 0 <= i < |bucket| && id(bucket[i]) == id(m) :: key(bucket[i]) == key(m)
    ensures Keys(AddOnce(bucket, m, id), key) == Keys(bucket, key) + {key(m)}
  {
    if !Has(bucket, id, id(m)) { KeysAppend(bucket, m, key); }
  }

  /** Leaving out later models of an id already listed loses no key, when the key goes by the id. */
  lemma {:induction false} ScanningSees<T(!new)>(ms: seq<T>, hit: T -> bool, id: T -> string, key: T -> string)
    requires forall a, b | id(a) == id(b) :: key(a) == key(b)
    ensures Keys(Scanned(ms, hit, id), key) == Seen(ms, hit, key)
    ensures forall m | m in Scanned(ms, hit, id) :: m in ms && hit(m)
  {
    if ms != [] {
      var n := |ms| - 1;
      ScanningSees(ms[..n], hit, id, key);
      assert ms[..n] + [ms[n]] == ms;
      SeenAppends(ms[..n], ms[n], hit, key);
      AddOnceKeys(Scanned(ms[..n], hit, id), ms[n], id, key);
    }
  }

  ghost predicate SameElements<T(!new)>(a: seq<T>, b: seq<T>) { forall m :: m in a <==> m in b }

  lemma SeenIsOrderFree<T(!new)>(a: seq<T>, b: seq<T>, hit: T -> bool, key: T -> string)
    requires SameElements(a, b)
    ensures Seen(a, hit, key) == Seen(b, hit, key)
  {
    SeenGrows(a, b, hit, key);
    SeenGrows(b, a, hit, key);
  }

  lemma SeenGrows<T>(a: seq<T>, b: seq<T>, hit: T -> bool, key: T -> string)
    requires forall m | m in a :: m in b
    ensures Seen(a, hit, key) <= Seen(b, hit, key)
  {
    forall i | 0 <= i < |a| && hit(a[i]) ensures key(a[i]) in Seen(b, hit, key) {
      assert a[i] in b;
      var j :| 0 <= j < |b| && b[j] == a[i];
    }
  }

  lemma {:induction false} HasIsOrderFree<T(!new)>(a: seq<T>, b: seq<T>, id: T -> string, x: string)
    requires SameElements(a, b)
    ensures Has(a, id, x) == Has(b, id, x)
  {
    if Has(a, id, x) {
      var i :| 0 <= i < |a| && id(a[i]) == x;
      assert a[i] in b;
    }
    if Has(b, id, x) {
      var i :| 0 <= i < |b| && id(b[i]) == x;
      assert b[i] in a;
    }
  }
}
