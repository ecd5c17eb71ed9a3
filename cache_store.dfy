/**
 The browser's CacheStorage, seen as a value: the names of the caches in the
 order they were created, and for every name a cache that maps a request URL
 to the response stored for it. The operations are the ones the worker calls:
 `caches.open`, `cache.put`, `caches.delete` and `caches.match`.
 */
module CacheStore {

  type Url = string
  type CacheName = string

  datatype Option<T> = None | Some(value: T)

  /** A response, reduced to what the worker inspects or produces. */
  datatype Response = Response(status: int, statusText: string, contentType: string, body: string)

  /** One named cache: request URL to stored response (GET requests only). */
  type Cache = map<Url, Response>

  /** All caches of the origin; `order` is the order `caches.keys()` reports. */
  datatype Storage = Storage(order: seq<CacheName>, caches: map<CacheName, Cache>)

  predicate Distinct(s: seq<CacheName>)
  {
    forall i, j :: 0 <= i < j < |s| ==> s[i] != s[j]
  }

  /** Every existing cache is listed exactly once in the creation order. */
  predicate WellFormed(st: Storage)
  {
    && Distinct(st.order)
    && st.caches.Keys == set n | n in st.order
  }

  /** A list without repetitions has as many elements as it has names. */
  lemma {:induction false} DistinctCard(s: seq<CacheName>)
    requires Distinct(s)
    ensures |set x | x in s| == |s|
  {
    if s != [] {
      DistinctCard(s[1..]);
      assert (set x | x in s) == {s[0]} + (set x | x in s[1..]);
      assert s[0] !in s[1..];
    }
  }

  /** When no cache but `x` can exist, the order lists `x` alone, or nothing. */
  lemma OnlyNameLeft(st: Storage, x: CacheName)
    requires WellFormed(st) && forall n :: n in st.caches ==> n == x
    ensures st.order == if x in st.caches then [x] else []
  {
    DistinctCard(st.order);
    if x in st.caches {
      assert (set n | n in st.order) == {x};
      assert st.order[0] in st.order;
    } else {
      assert (set n | n in st.order) == {};
    }
  }

  /** `caches.open(name)`: an existing cache is reused; an absent one is created
      empty and becomes the newest. Nothing else changes. */
  function Open(st: Storage, name: CacheName): (r: Storage)
    requires WellFormed(st)
    ensures WellFormed(r) && name in r.caches
    ensures r.caches[name] == if name in st.caches then st.caches[name] else map[]
    ensures forall n :: n in st.caches ==> n in r.caches && r.caches[n] == st.caches[n]
    ensures forall n :: n in r.caches ==> n in st.caches || n == name
    ensures st.order <= r.order
  {
    if name in st.caches then st
    else
      var r := Storage(st.order + [name], st.caches[name := map[]]);
      assert forall i :: 0 <= i < |st.order| ==> r.order[i] == st.order[i];
      r
  }

  /** `cache.put(key, resp)` on the cache called `name`: only that entry of that
      cache changes. */
  function Put(st: Storage, name: CacheName, key: Url, resp: Response): (r: Storage)
    requires name in st.caches
    ensures r.order == st.order && r.caches.Keys == st.caches.Keys
    ensures key in r.caches[name] && r.caches[name][key] == resp
    ensures forall k :: k in st.caches[name] && k != key ==> k in r.caches[name] && r.caches[name][k] == st.caches[name][k]
    ensures forall k :: k in r.caches[name] ==> k in st.caches[name] || k == key
    ensures forall n :: n in st.caches && n != name ==> r.caches[n] == st.caches[n]
  {
    Storage(st.order, st.caches[name := st.caches[name][key := resp]])
  }

  /** The sequence `s` with every occurrence of `name` taken out. */
  function Without(s: seq<CacheName>, name: CacheName): (r: seq<CacheName>)
    ensures forall x :: x in r <==> x in s && x != name
    ensures Distinct(s) ==> Distinct(r)
    ensures |r| <= |s|
  {
    if s == [] then []
    else if s[0] == name then Without(s[1..], name)
    else
      var rest := Without(s[1..], name);
      assert Distinct(s) ==> s[0] !in s[1..];
      [s[0]] + rest
  }

  /** Taking a name out commutes with concatenation: the names that remain
      keep their relative order. */
  lemma {:induction false} WithoutConcat(a: seq<CacheName>, b: seq<CacheName>, name: CacheName)
    ensures Without(a + b, name) == Without(a, name) + Without(b, name)
  {
    if a == [] {
      assert a + b == b;
    } else {
      assert (a + b)[0] == a[0] && (a + b)[1..] == a[1..] + b;
      WithoutConcat(a[1..], b, name);
      if a[0] != name {
        assert [a[0]] + (Without(a[1..], name) + Without(b, name)) == ([a[0]] + Without(a[1..], name)) + Without(b, name);
      }
    }
  }

  /** Searching the order without `name` finds what searching the full order
      finds once the cache `name` is gone: deleting keeps the search order of
      the surviving caches. */
  lemma {:induction false} WithoutKeepsMatch(names: seq<CacheName>, caches: map<CacheName, Cache>, name: CacheName, key: Url)
    ensures MatchIn(Without(names, name), caches - {name}, key) == MatchIn(names, caches - {name}, key)
  {
    if names != [] {
      WithoutKeepsMatch(names[1..], caches, name, key);
    }
  }

  /** `caches.delete(name)`: the cache disappears from the map and from the
      order; every other cache is untouched. */
  function Delete(st: Storage, name: CacheName): (r: Storage)
    requires WellFormed(st)
    ensures WellFormed(r)
    ensures name !in r.caches
    ensures forall n :: n in r.caches <==> n in st.caches && n != name
    ensures forall n :: n in r.caches ==> r.caches[n] == st.caches[n]
  {
    Storage(Without(st.order, name), st.caches - {name})
  }

  /** After `caches.delete(name)`, `caches.match` searches the surviving
      caches in their old creation order. */
  lemma DeleteKeepsMatchOrder(st: Storage, name: CacheName, key: Url)
    requires WellFormed(st)
    ensures MatchAll(Delete(st, name), key) == MatchIn(st.order, st.caches - {name}, key)
  {
    WithoutKeepsMatch(st.order, st.caches, name, key);
  }

  /** Cache `names[i]` exists and holds an entry for `key`. */
  predicate HoldsAt(names: seq<CacheName>, caches: map<CacheName, Cache>, key: Url, i: int)
    requires 0 <= i < |names|
  {
    names[i] in caches && key in caches[names[i]]
  }

  /** `caches.match(key)`: the caches are searched in `names` order and the
      first stored response for `key` is returned. */
  function MatchIn(names: seq<CacheName>, caches: map<CacheName, Cache>, key: Url): (r: Option<Response>)
    ensures r.None? <==> forall n :: n in names ==> !(n in caches && key in caches[n])
    ensures r.Some? ==> exists n :: n in names && n in caches && key in caches[n] && caches[n][key] == r.value
  {
    if names == [] then None
    else if names[0] in caches && key in caches[names[0]] then
      Some(caches[names[0]][key])
    else
      assert forall n :: n in names ==> n == names[0] || n in names[1..];
      MatchIn(names[1..], caches, key)
  }

  /** `caches.match` over the whole storage, in creation order. */
  function MatchAll(st: Storage, key: Url): (r: Option<Response>)
    ensures r.None? <==> forall n :: n in st.order ==> !(n in st.caches && key in st.caches[n])
    ensures r.Some? ==> exists n :: n in st.order && n in st.caches && key in st.caches[n] && st.caches[n][key] == r.value
  {
    MatchIn(st.order, st.caches, key)
  }

  /** The response found is the one of the EARLIEST cache holding the key. */
  lemma {:induction false} MatchFirst(names: seq<CacheName>, caches: map<CacheName, Cache>, key: Url, i: nat)
    requires i < |names| && HoldsAt(names, caches, key, i)
    requires forall j :: 0 <= j < i ==> !HoldsAt(names, caches, key, j)
    ensures MatchIn(names, caches, key) == Some(caches[names[i]][key])
  {
    if i > 0 {
      assert !HoldsAt(names, caches, key, 0);
      assert forall j :: 0 <= j < i - 1 ==> HoldsAt(names, caches, key, j + 1) == HoldsAt(names[1..], caches, key, j);
      MatchFirst(names[1..], caches, key, i - 1);
    }
  }

  /** With a single cache left, matching is a lookup in that cache. */
  lemma MatchSingle(st: Storage, name: CacheName, key: Url)
    requires st.order == [name] && name in st.caches
    ensures MatchAll(st, key) == if key in st.caches[name] then Some(st.caches[name][key]) else None
  {
    assert st.order[1..] == [];
  }
}
