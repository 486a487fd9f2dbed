/** The callback dispatcher of callback_router.py: exact keys first, then the longest registered prefix. */
module CallbackRouter {
  import opened Common

  // ---------------------------------------------------------------- what resolution means

  /** The reference: try the data itself as a prefix, then without its last character, and so on. */
  function Lookup<H>(prefixes: map<string, H>, data: string): Option<H> {
    if data in prefixes then Some(prefixes[data])
    else if data == "" then None
    else Lookup(prefixes, data[..|data| - 1])
  }

  function Resolution<H>(exacts: map<string, H>, prefixes: map<string, H>, data: Option<string>): Option<H> {
    if data.None? then None
    else if data.value in exacts then Some(exacts[data.value])
    else Lookup(prefixes, data.value)
  }

  ghost predicate IsLongest<H>(prefixes: map<string, H>, data: string, p: string) {
    p in prefixes && p <= data && forall q :: q in prefixes && q <= data ==> |q| <= |p|
  }

  lemma PrefixOfSameLength(p: string, q: string, data: string)
    requires p <= data && q <= data && |p| == |q|
    ensures p == q
  {
    assert p == data[..|p|] && q == data[..|q|];
  }

  /** Lookup finds the longest registered prefix, of which there is only one, and None if there is none. */
  lemma {:induction false} LookupIsLongest<H>(prefixes: map<string, H>, data: string)
    ensures Lookup(prefixes, data) == None <==> forall p :: p in prefixes ==> !(p <= data)
    ensures forall p :: IsLongest(prefixes, data, p) ==> Lookup(prefixes, data) == Some(prefixes[p])
    ensures Lookup(prefixes, data).Some? ==> exists p :: IsLongest(prefixes, data, p)
    ensures forall p, q :: IsLongest(prefixes, data, p) && IsLongest(prefixes, data, q) ==> p == q
  {
    forall p, q | IsLongest(prefixes, data, p) && IsLongest(prefixes, data, q) ensures p == q {
      PrefixOfSameLength(p, q, data);
    }
    if data in prefixes {
      assert IsLongest(prefixes, data, data);
    } else if data != "" {
      var shorter := data[..|data| - 1];
      LookupIsLongest(prefixes, shorter);
      forall p | p in prefixes ensures p <= data <==> p <= shorter {
        ShorterPrefix(p, data);
      }
      forall p ensures IsLongest(prefixes, data, p) <==> IsLongest(prefixes, shorter, p) {
      }
    }
  }

  lemma ShorterPrefix(p: string, data: string)
    requires data != "" && p != data
    ensures p <= data <==> p <= data[..|data| - 1]
  {
    assert data[..|data|] == data;
  }

  /**
   * What resolving means: no data gets no handler; an exact key comes before every prefix; else the longest
   * registered prefix decides, and there is no handler exactly when none matches.
   */
  lemma ResolutionMeans<H>(exacts: map<string, H>, prefixes: map<string, H>, data: string)
    ensures Resolution(exacts, prefixes, None) == None
    ensures data in exacts ==> Resolution(exacts, prefixes, Some(data)) == Some(exacts[data])
    ensures data !in exacts ==>
              && (forall p :: IsLongest(prefixes, data, p) ==>
                    Resolution(exacts, prefixes, Some(data)) == Some(prefixes[p]))
              && (Resolution(exacts, prefixes, Some(data)) == None <==> forall p :: p in prefixes ==> !(p <= data))
  {
    LookupIsLongest(prefixes, data);
  }

  // ---------------------------------------------------------------- the list of prefixes

  ghost predicate Distinct<H>(ps: seq<(string, H)>) {
    forall i, j :: 0 <= i < j < |ps| ==> ps[i].0 != ps[j].0
  }

  ghost predicate ByLength<H>(ps: seq<(string, H)>) {
    forall i, j :: 0 <= i < j < |ps| ==> |ps[i].0| >= |ps[j].0|
  }

  /** The prefixes registered, as a map; with distinct prefixes their order does not matter. */
  function ToMap<H>(ps: seq<(string, H)>): map<string, H> {
    if ps == [] then map[] else ToMap(ps[1..])[ps[0].0 := ps[0].1]
  }

  lemma {:induction false} ToMapEntries<H>(ps: seq<(string, H)>)
    requires Distinct(ps)
    ensures forall i :: 0 <= i < |ps| ==> ps[i].0 in ToMap(ps) && ToMap(ps)[ps[i].0] == ps[i].1
    ensures forall p :: p in ToMap(ps) ==> exists i :: 0 <= i < |ps| && ps[i].0 == p
  {
    if ps != [] {
      ToMapEntries(ps[1..]);
      forall p | p in ToMap(ps) ensures exists i :: 0 <= i < |ps| && ps[i].0 == p {
        if p != ps[0].0 {
          var i :| 0 <= i < |ps[1..]| && ps[1..][i].0 == p;
          assert ps[i + 1].0 == p;
        }
      }
    }
  }

  /** Any two orders of the same registrations give the same map, and so the same answers. */
  lemma OrderDoesNotMatter<H>(ps: seq<(string, H)>, qs: seq<(string, H)>)
    requires Distinct(ps) && Distinct(qs) && multiset(ps) == multiset(qs)
    ensures ToMap(ps) == ToMap(qs)
  {
    ToMapEntries(ps);
    ToMapEntries(qs);
    forall p | p in ToMap(ps) ensures p in ToMap(qs) && ToMap(qs)[p] == ToMap(ps)[p] {
      var i :| 0 <= i < |ps| && ps[i].0 == p;
      assert ps[i] in multiset(qs);
    }
    forall q | q in ToMap(qs) ensures q in ToMap(ps) {
      var i :| 0 <= i < |qs| && qs[i].0 == q;
      assert qs[i] in multiset(ps);
    }
  }

  /** The stable sort by falling length. */
  function Insert<H>(p: (string, H), ps: seq<(string, H)>): seq<(string, H)> {
    if ps == [] || |p.0| >= |ps[0].0| then [p] + ps else [ps[0]] + Insert(p, ps[1..])
  }

  function SortByLength<H>(ps: seq<(string, H)>): seq<(string, H)> {
    if ps == [] then [] else Insert(ps[0], SortByLength(ps[1..]))
  }

  lemma {:induction false} InsertIsPermutation<H>(p: (string, H), ps: seq<(string, H)>)
    ensures multiset(Insert(p, ps)) == multiset(ps) + multiset{p}
  {
    if ps != [] {
      InsertIsPermutation(p, ps[1..]);
      assert ps == [ps[0]] + ps[1..];
    }
  }

  lemma {:induction false} InsertSorts<H>(p: (string, H), ps: seq<(string, H)>)
    requires ByLength(ps)
    ensures ByLength(Insert(p, ps))
  {
    if ps != [] && |p.0| < |ps[0].0| {
      InsertSorts(p, ps[1..]);
      InsertIsPermutation(p, ps[1..]);
      var rest := Insert(p, ps[1..]);
      forall i | 0 <= i < |rest| ensures |ps[0].0| >= |rest[i].0| {
        assert rest[i] in multiset(rest);
      }
    }
  }

  lemma {:induction false} SortIsPermutation<H>(ps: seq<(string, H)>)
    ensures ByLength(SortByLength(ps)) && multiset(SortByLength(ps)) == multiset(ps)
  {
    if ps != [] {
      SortIsPermutation(ps[1..]);
      InsertSorts(ps[0], SortByLength(ps[1..]));
      InsertIsPermutation(ps[0], SortByLength(ps[1..]));
      assert ps == [ps[0]] + ps[1..];
    }
  }

  lemma DistinctIsPermuted<H>(ps: seq<(string, H)>, qs: seq<(string, H)>)
    requires Distinct(ps) && multiset(ps) == multiset(qs)
    ensures Distinct(qs)
  {
    forall i, j | 0 <= i < j < |qs| ensures qs[i].0 != qs[j].0 {
      if qs[i].0 == qs[j].0 {
        assert qs[i] in multiset(ps) && qs[j] in multiset(ps);
        assert qs[i] == qs[j];
        assert qs == qs[..j] + [qs[j]] + qs[j + 1..];
        assert multiset(qs)[qs[i]] >= 2 by { assert qs[i] in qs[..j]; }
        AtMostOnce(ps, qs[i]);
        assert false;
      }
    }
  }

  lemma {:induction false} AtMostOnce<H>(ps: seq<(string, H)>, p: (string, H))
    requires Distinct(ps)
    ensures multiset(ps)[p] <= 1
  {
    if ps != [] {
      AtMostOnce(ps[1..], p);
      assert ps == [ps[0]] + ps[1..];
    }
  }

  ghost predicate Unique(keys: seq<string>) {
    forall i, j :: 0 <= i < j < |keys| ==> keys[i] != keys[j]
  }

  /** m' is m with exactly the given keys added, all bound to fn. */
  ghost predicate Extends<H>(m: map<string, H>, m': map<string, H>, keys: seq<string>, fn: H) {
    && (forall k :: k in m' <==> k in m || k in keys)
    && (forall k :: k in keys ==> k in m' && m'[k] == fn)
    && (forall k :: k in m && k !in keys ==> m'[k] == m[k])
  }

  // ---------------------------------------------------------------- the router

  class Router<H(==)> {
    var exacts: map<string, H>
    var prefixes: seq<(string, H)>
    var prefixSorted: bool

    ghost predicate Valid()
      reads this
    {
      Distinct(prefixes) && (prefixSorted ==> ByLength(prefixes))
    }

    constructor ()
      ensures Valid() && exacts == map[] && ToMap(prefixes) == map[]
    {
      exacts, prefixes, prefixSorted := map[], [], true;
    }

    /** Register fn for exact keys; a repeated key is an error, which ends the process. */
    method Exact(keys: seq<string>, fn: H) returns (ok: bool)
      requires Valid()
      modifies this`exacts
      ensures Valid()
      ensures ok == (Unique(keys) && forall k :: k in keys ==> k !in old(exacts))
      ensures ok ==> Extends(old(exacts), exacts, keys, fn)
    {
      var i := 0;
      while i < |keys|
        invariant 0 <= i <= |keys|
        invariant Extends(old(exacts), exacts, keys[..i], fn)
        invariant forall k :: k in keys[..i] ==> k !in old(exacts)
        invariant Unique(keys[..i])
      {
        assert keys[..i + 1] == keys[..i] + [keys[i]];
        if keys[i] in exacts {
          assert keys[i] in old(exacts) || keys[i] in keys[..i];
          return false;
        }
        exacts := exacts[keys[i] := fn];
        i := i + 1;
      }
      assert keys[..i] == keys;
      ok := true;
    }

    /** Register fn for prefixes; the list is only sorted when the next lookup needs it. */
    method Prefix(ps: seq<string>, fn: H) returns (ok: bool)
      requires Valid()
      modifies this
      ensures Valid() && exacts == old(exacts)
      ensures ok ==> prefixes == old(prefixes) + seq(|ps|, i requires 0 <= i < |ps| => (ps[i], fn)) && !prefixSorted
      ensures !ok ==> exists i :: 0 <= i < |ps| &&
                        ((exists j :: 0 <= j < |old(prefixes)| && old(prefixes)[j].0 == ps[i]) || ps[i] in ps[..i])
    {
      prefixSorted := false;
      var i := 0;
      while i < |ps|
        invariant 0 <= i <= |ps|
        invariant exacts == old(exacts) && !prefixSorted && Distinct(prefixes)
        invariant prefixes == old(prefixes) + seq(i, k requires 0 <= k < i => (ps[k], fn))
      {
        if exists j :: 0 <= j < |prefixes| && prefixes[j].0 == ps[i] {
          ghost var j :| 0 <= j < |prefixes| && prefixes[j].0 == ps[i];
          if j >= |old(prefixes)| {
            assert ps[i] == ps[..i][j - |old(prefixes)|];
          }
          return false;
        }
        prefixes := prefixes + [(ps[i], fn)];
        i := i + 1;
      }
      ok := true;
    }

    /** The lazy sort, in place: the same registrations, longest first. */
    method EnsureSorted()
      requires Valid()
      modifies this`prefixes, this`prefixSorted
      ensures Valid() && prefixSorted
      ensures multiset(prefixes) == multiset(old(prefixes)) && ToMap(prefixes) == ToMap(old(prefixes))
    {
      if !prefixSorted {
        SortIsPermutation(prefixes);
        DistinctIsPermuted(prefixes, SortByLength(prefixes));
        OrderDoesNotMatter(prefixes, SortByLength(prefixes));
        prefixes := SortByLength(prefixes);
        prefixSorted := true;
      }
    }

    /** The first prefix of the sorted list that matches. */
    method Scan(data: string) returns (r: Option<H>)
      requires Valid() && prefixSorted
      ensures r == Lookup(ToMap(prefixes), data)
    {
      ToMapEntries(prefixes);
      LookupIsLongest(ToMap(prefixes), data);
      var i := 0;
      while i < |prefixes|
        invariant 0 <= i <= |prefixes|
        invariant forall j :: 0 <= j < i ==> !(prefixes[j].0 <= data)
      {
        if prefixes[i].0 <= data {
          assert IsLongest(ToMap(prefixes), data, prefixes[i].0);
          return Some(prefixes[i].1);
        }
        i := i + 1;
      }
      r := None;
    }

    /** The handler for this data; the lazy in-place sort changes neither this answer nor any later one. */
    method Resolve(data: Option<string>) returns (r: Option<H>)
      requires Valid()
      modifies this`prefixes, this`prefixSorted
      ensures Valid() && ToMap(prefixes) == ToMap(old(prefixes))
      ensures multiset(prefixes) == multiset(old(prefixes))
      ensures r == Resolution(exacts, ToMap(old(prefixes)), data)
    {
      if data.None? {
        return None;
      }
      if data.value in exacts {
        return Some(exacts[data.value]);
      }
      EnsureSorted();
      r := Scan(data.value);
    }
  }
}
