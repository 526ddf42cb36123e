/**
 * Python values as the HAL renderer sees them: JSON-like trees whose objects
 * are insertion-ordered dictionaries, plus the exceptions the renderer can
 * raise. A dictionary is a sequence of key/value pairs; on sequences whose
 * keys are distinct (every Python dict) Get, Put and Remove behave like
 * `d.get(k)`, `d[k] = v` and `d.pop(k)`.
 */
module Json {

  datatype Option<+T> = None | Some(value: T)

  /** The Python exceptions the modelled code lets escape. */
  datatype Error =
    | KeyError(key: string)        // dict.pop / dict[...] on a missing key
    | TypeError(key: string)       // item assignment with a string index on a list
    | AttributeError(name: string) // getattr on a missing attribute

  datatype Result<+T> = Ok(value: T) | Err(error: Error) {
    predicate IsFailure() { Err? }
    function PropagateFailure<U>(): Result<U> requires Err? { Err(error) }
    function Extract(): T requires Ok? { value }
  }

  datatype Json =
    | JNull
    | JBool(b: bool)
    | JInt(i: int)
    | JStr(s: string)
    | JList(items: seq<Json>)
    | JObj(entries: seq<(string, Json)>)

  type Entries = seq<(string, Json)>

  /** Python truthiness: None, False, 0, "", [] and {} are false. */
  predicate Truthy(v: Json) {
    match v
    case JNull => false
    case JBool(b) => b
    case JInt(i) => i != 0
    case JStr(s) => s != ""
    case JList(xs) => xs != []
    case JObj(es) => es != []
  }

  predicate NoDup(s: seq<string>) {
    forall i, j | 0 <= i < j < |s| :: s[i] != s[j]
  }

  function Keys(m: Entries): (ks: seq<string>)
    ensures |ks| == |m|
  {
    if m == [] then [] else [m[0].0] + Keys(m[1..])
  }

  predicate UniqueKeys(m: Entries) {
    NoDup(Keys(m))
  }

  lemma NoDupCons(x: string, s: seq<string>)
    ensures NoDup([x] + s) <==> x !in s && NoDup(s)
  {
    var t := [x] + s;
    if x !in s && NoDup(s) {
      forall i, j | 0 <= i < j < |t| ensures t[i] != t[j] {
        if i > 0 { assert t[i] == s[i - 1] && t[j] == s[j - 1]; }
        else { assert t[j] == s[j - 1]; }
      }
    }
    if NoDup(t) {
      forall i, j | 0 <= i < j < |s| ensures s[i] != s[j] {
        assert s[i] == t[i + 1] && s[j] == t[j + 1];
      }
      forall j | 0 <= j < |s| ensures s[j] != x {
        assert t[0] == x && t[j + 1] == s[j];
      }
    }
  }

  lemma NoDupTail(s: seq<string>)
    requires s != [] && NoDup(s)
    ensures NoDup(s[1..]) && s[0] !in s[1..]
  {
    assert s == [s[0]] + s[1..];
    NoDupCons(s[0], s[1..]);
  }

  /** Concatenating key lists is associative; used to regroup appended keys. */
  lemma ConcatAssoc(a: seq<string>, b: seq<string>, c: seq<string>)
    ensures a + b + c == a + (b + c)
  {
  }

  lemma UniqueKeysUncons(m: Entries)
    requires m != []
    ensures UniqueKeys(m) <==> m[0].0 !in Keys(m[1..]) && UniqueKeys(m[1..])
  {
    NoDupCons(m[0].0, Keys(m[1..]));
  }

  /** `d.get(k)`: the value of the first entry with key k. */
  function Get(m: Entries, k: string): (r: Option<Json>)
    ensures r.Some? <==> k in Keys(m)
  {
    if m == [] then None
    else if m[0].0 == k then Some(m[0].1)
    else Get(m[1..], k)
  }

  /** `d[k]` on a key known to be present. */
  function Lookup(m: Entries, k: string): (v: Json)
    requires k in Keys(m)
    ensures Get(m, k) == Some(v)
  {
    Get(m, k).value
  }

  /** The keys of ks that are not among gone, in their order. */
  function Without(ks: seq<string>, gone: seq<string>): seq<string>
    decreases |ks|
  {
    if ks == [] then []
    else (if ks[0] in gone then [] else [ks[0]]) + Without(ks[1..], gone)
  }

  lemma {:induction false} WithoutMembers(ks: seq<string>, gone: seq<string>, x: string)
    ensures x in Without(ks, gone) <==> x in ks && x !in gone
    decreases |ks|
  {
    if ks != [] { WithoutMembers(ks[1..], gone, x); }
  }

  lemma {:induction false} WithoutNothing(ks: seq<string>)
    ensures Without(ks, []) == ks
    decreases |ks|
  {
    if ks != [] { WithoutNothing(ks[1..]); }
  }

  /** Filtering twice filters out both lists at once. */
  lemma {:induction false} WithoutWithout(ks: seq<string>, a: seq<string>, b: seq<string>)
    ensures Without(Without(ks, a), b) == Without(ks, a + b)
    decreases |ks|
  {
    if ks != [] {
      WithoutWithout(ks[1..], a, b);
      var head := if ks[0] in a then [] else [ks[0]];
      var rest := Without(ks[1..], a);
      assert Without(ks, a) == head + rest;
      if head == [] {
        assert Without(ks, a) == rest;
      } else {
        assert (head + rest)[1..] == rest;
      }
    }
  }

  /** Only which names are filtered out matters, not their order or repetition. */
  lemma {:induction false} WithoutSameNames(ks: seq<string>, a: seq<string>, b: seq<string>)
    requires forall x :: x in a <==> x in b
    ensures Without(ks, a) == Without(ks, b)
    decreases |ks|
  {
    if ks != [] { WithoutSameNames(ks[1..], a, b); }
  }

  /** `d.pop(k)` without its result: every entry with key k is dropped. */
  function Remove(m: Entries, k: string): (r: Entries)
    ensures k !in Keys(r)
    ensures forall j | j != k :: Get(r, j) == Get(m, j)
    ensures forall j | j in Keys(r) :: j in Keys(m)
    ensures UniqueKeys(m) ==> UniqueKeys(r)
  {
    if m == [] then []
    else if m[0].0 == k then (UniqueKeysUncons(m); Remove(m[1..], k))
    else
      var r := [m[0]] + Remove(m[1..], k);
      UniqueKeysUncons(m);
      UniqueKeysUncons(r);
      r
  }

  /** The keys `d.pop(k)` leaves keep their order. */
  lemma {:induction false} RemoveKeyOrder(m: Entries, k: string)
    ensures Keys(Remove(m, k)) == Without(Keys(m), [k])
  {
    if m != [] { RemoveKeyOrder(m[1..], k); }
  }

  lemma RemoveAbsent(m: Entries, k: string)
    ensures k !in Keys(m) ==> Remove(m, k) == m
  {
  }

  /** What `d[k] = v` leaves: r maps k to v and agrees with m elsewhere, with keys in place. */
  ghost predicate PutResult(m: Entries, k: string, v: Json, r: Entries) {
    && Get(r, k) == Some(v)
    && (forall j | j != k :: Get(r, j) == Get(m, j))
    && (k !in Keys(m) ==> Keys(r) == Keys(m) + [k])
    && (UniqueKeys(m) && k in Keys(m) ==> Keys(r) == Keys(m))
    && (UniqueKeys(m) ==> UniqueKeys(r))
  }

  lemma PutAtHead(m: Entries, k: string, v: Json)
    requires m != [] && m[0].0 == k
    ensures PutResult(m, k, v, [(k, v)] + Remove(m[1..], k))
  {
    var r := [(k, v)] + Remove(m[1..], k);
    UniqueKeysUncons(m);
    UniqueKeysUncons(r);
    RemoveAbsent(m[1..], k);
  }

  lemma PutPastHead(m: Entries, k: string, v: Json, t: Entries)
    requires m != [] && m[0].0 != k
    requires PutResult(m[1..], k, v, t)
    ensures PutResult(m, k, v, [m[0]] + t)
  {
    var r := [m[0]] + t;
    assert r[1..] == t;
    UniqueKeysUncons(m);
    UniqueKeysUncons(r);
  }

  /**
   * `d[k] = v`: an existing key keeps its position and takes the new value,
   * a new key goes to the end.
   */
  function Put(m: Entries, k: string, v: Json): (r: Entries)
    ensures Get(r, k) == Some(v)
    ensures forall j | j != k :: Get(r, j) == Get(m, j)
    ensures k !in Keys(m) ==> Keys(r) == Keys(m) + [k]
    ensures UniqueKeys(m) && k in Keys(m) ==> Keys(r) == Keys(m)
    ensures UniqueKeys(m) ==> UniqueKeys(r)
  {
    if m == [] then [(k, v)]
    else if m[0].0 == k then
      PutAtHead(m, k, v);
      [(k, v)] + Remove(m[1..], k)
    else
      var t := Put(m[1..], k, v);
      PutPastHead(m, k, v, t);
      [m[0]] + t
  }

  /** `dict(m, **e)`: the entries of m, then those of e, later ones winning. */
  function Merge(m: Entries, e: Entries): (r: Entries)
    ensures UniqueKeys(e) ==>
      forall k :: Get(r, k) == if k in Keys(e) then Get(e, k) else Get(m, k)
    ensures UniqueKeys(m) && UniqueKeys(e) && (forall k | k in Keys(e) :: k !in Keys(m)) ==>
      Keys(r) == Keys(m) + Keys(e) && UniqueKeys(r)
    decreases |e|
  {
    if e == [] then m
    else
      UniqueKeysUncons(e);
      var m' := Put(m, e[0].0, e[0].1);
      var r := Merge(m', e[1..]);
      assert Keys(m) + Keys(e) == Keys(m) + [e[0].0] + Keys(e[1..]);
      r
  }
}
