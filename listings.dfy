/**
 Job postings and the Ruby `Hash` that holds them. A Ruby hash remembers the
 order in which its keys were first inserted, and the handler's output depends
 on that order (the ids in the summary, the blocks of the e-mail), so a hash is
 modelled as its key order together with its key-to-value lookup.
 */
module Listings {
  import opened Wrappers

  /** A posting id, after `to_sym` / `symbolize_names` (one canonical string form). */
  type Id = string

  /**
   One posting of the feed. A displayed field (`text`, `location`,
   `external_id`) that the feed leaves out is `nil` in Ruby and renders as "",
   so it is modelled as ""; the list-valued fields keep their absence as the
   feed gives it (both render as "" in the e-mail). The `id` is always a string.
   */
  datatype Listing = Listing(
    id: Id,
    text: string,
    team: Option<seq<string>>,
    organization: Option<seq<string>>,
    subteam: Option<seq<string>>,
    location: string,
    alternateLocations: Option<seq<string>>,
    externalId: string)

  /** No id occurs twice. */
  ghost predicate Distinct(ids: seq<Id>)
  {
    |ids| == 0 || (ids[0] !in ids[1..] && Distinct(ids[1..]))
  }

  /**
   A hash as its insertion-ordered keys and its lookup table; `Valid` says the
   two describe the same keys, each listed once.
   */
  datatype ListingHash = ListingHash(keys: seq<Id>, lookup: map<Id, Listing>) {
    ghost predicate Valid()
    {
      && Distinct(keys)
      && (forall k :: k in keys <==> k in lookup)
    }
  }

  /** `{}` */
  const Empty := ListingHash([], map[])

  /** The snapshot invariant: every key maps to the listing whose own id it is. */
  ghost predicate KeyedById(h: ListingHash)
  {
    forall k :: k in h.lookup ==> h.lookup[k].id == k
  }

  /** `h[k] = v`: a new key goes to the end, an existing key keeps its place. */
  function Store(h: ListingHash, k: Id, v: Listing): (r: ListingHash)
    ensures h.Valid() ==> r.Valid()
  {
    DistinctAppend(h.keys, k);
    if k in h.lookup then ListingHash(h.keys, h.lookup[k := v])
    else ListingHash(h.keys + [k], h.lookup[k := v])
  }

  /** `a - b` on arrays: the elements of `a` that do not occur in `b`, in `a`'s order. */
  function Minus(a: seq<Id>, b: seq<Id>): (r: seq<Id>)
    ensures forall x :: x in r <==> x in a && x !in b
    ensures |r| <= |a|
  {
    if |a| == 0 then []
    else if a[0] in b then Minus(a[1..], b)
    else [a[0]] + Minus(a[1..], b)
  }

  /** The elements of `a` that occur in `b`, in `a`'s order. */
  function Keep(a: seq<Id>, b: seq<Id>): (r: seq<Id>)
    ensures forall x :: x in r <==> x in a && x in b
    ensures Distinct(a) ==> Distinct(r)
  {
    if |a| == 0 then []
    else if a[0] in b then [a[0]] + Keep(a[1..], b)
    else Keep(a[1..], b)
  }

  /** `h.select { |k, _v| wanted.include?(k) }` */
  function Select(h: ListingHash, wanted: seq<Id>): (r: ListingHash)
    ensures h.Valid() ==> r.Valid()
  {
    ListingHash(Keep(h.keys, wanted), map k | k in h.lookup && k in wanted :: h.lookup[k])
  }

  /** Stores the entries of `other` under the keys `ks`, one after the other. */
  function MergeFrom(h: ListingHash, other: ListingHash, ks: seq<Id>): (r: ListingHash)
    requires forall k :: k in ks ==> k in other.lookup
    ensures h.Valid() ==> r.Valid()
    decreases |ks|
  {
    if |ks| == 0 then h
    else MergeFrom(Store(h, ks[0], other.lookup[ks[0]]), other, ks[1..])
  }

  /** `h.merge(other)`: every entry of `other` stored into `h`, in `other`'s order. */
  function Merge(h: ListingHash, other: ListingHash): (r: ListingHash)
    requires other.Valid()
    ensures h.Valid() ==> r.Valid()
  {
    MergeFrom(h, other, other.keys)
  }

  /** `h.values`, in key order. */
  function Values(h: ListingHash): (r: seq<Listing>)
    requires h.Valid()
    ensures |r| == |h.keys|
    ensures forall i :: 0 <= i < |h.keys| ==> r[i] == h.lookup[h.keys[i]]
    ensures forall k :: k in h.lookup ==> h.lookup[k] in r
  {
    var r := seq(|h.keys|, i requires 0 <= i < |h.keys| => h.lookup[h.keys[i]]);
    assert forall k :: k in h.lookup ==> h.lookup[k] in r by {
      forall k | k in h.lookup
        ensures h.lookup[k] in r
      {
        var i :| 0 <= i < |h.keys| && h.keys[i] == k;
        assert r[i] == h.lookup[k];
      }
    }
    r
  }

  /** Sequence concatenation regrouped; stated once so that proofs need not rediscover it. */
  lemma ConcatAssoc(a: seq<Id>, b: seq<Id>, c: seq<Id>)
    ensures a + b + c == a + (b + c)
  {
  }

  lemma {:induction false} MinusIgnores(a: seq<Id>, b: seq<Id>, x: Id)
    requires x !in a
    ensures Minus(a, b + [x]) == Minus(a, b)
    decreases |a|
  {
    if |a| > 0 {
      MinusIgnores(a[1..], b, x);
    }
  }

  lemma {:induction false} MinusNone(a: seq<Id>, b: seq<Id>)
    requires forall x :: x in a ==> x !in b
    ensures Minus(a, b) == a
    decreases |a|
  {
    if |a| > 0 {
      MinusNone(a[1..], b);
      assert [a[0]] + a[1..] == a;
    }
  }

  lemma {:induction false} MinusAll(a: seq<Id>, b: seq<Id>)
    requires forall x :: x in a ==> x in b
    ensures Minus(a, b) == []
    decreases |a|
  {
    if |a| > 0 {
      MinusAll(a[1..], b);
    }
  }

  lemma {:induction false} DistinctAppend(ids: seq<Id>, x: Id)
    ensures Distinct(ids) && x !in ids ==> Distinct(ids + [x])
    decreases |ids|
  {
    if |ids| > 0 {
      DistinctAppend(ids[1..], x);
      assert (ids + [x])[1..] == ids[1..] + [x];
    }
  }

  lemma {:induction false} KeepAll(a: seq<Id>, b: seq<Id>)
    requires forall x :: x in a ==> x in b
    ensures Keep(a, b) == a
    decreases |a|
  {
    if |a| > 0 {
      KeepAll(a[1..], b);
      assert [a[0]] + a[1..] == a;
    }
  }

  lemma {:induction false} KeepNone(a: seq<Id>)
    ensures Keep(a, []) == []
    decreases |a|
  {
    if |a| > 0 {
      KeepNone(a[1..]);
    }
  }

  /** Keeping the elements of `Minus(a, b)` from `a` is `Minus(a, b)` itself. */
  lemma {:induction false} KeepMinus(a: seq<Id>, b: seq<Id>)
    requires Distinct(a)
    ensures Keep(a, Minus(a, b)) == Minus(a, b)
    decreases |a|
  {
    if |a| > 0 {
      var rest := a[1..];
      KeepMinus(rest, b);
      assert a[0] !in rest;
      if a[0] in b {
        assert Minus(a, b) == Minus(rest, b);
        assert Keep(a, Minus(a, b)) == Keep(rest, Minus(rest, b));
      } else {
        assert Minus(a, b) == [a[0]] + Minus(rest, b);
        KeepIgnoresNew(rest, Minus(rest, b), a[0]);
      }
    }
  }

  lemma {:induction false} KeepIgnoresNew(a: seq<Id>, b: seq<Id>, x: Id)
    requires x !in a
    ensures Keep(a, [x] + b) == Keep(a, b)
    decreases |a|
  {
    if |a| > 0 {
      KeepIgnoresNew(a[1..], b, x);
    }
  }

  /** Storing keys one by one appends the new ones, in order, after the old ones. */
  lemma {:induction false} MergeFromKeys(h: ListingHash, other: ListingHash, ks: seq<Id>)
    requires h.Valid()
    requires forall k :: k in ks ==> k in other.lookup
    requires Distinct(ks)
    ensures MergeFrom(h, other, ks).keys == h.keys + Minus(ks, h.keys)
    decreases |ks|
  {
    if |ks| > 0 {
      var k0, rest := ks[0], ks[1..];
      var h' := Store(h, k0, other.lookup[k0]);
      assert k0 !in rest;
      MergeFromKeys(h', other, rest);
      assert MergeFrom(h, other, ks) == MergeFrom(h', other, rest);
      if k0 in h.lookup {
        assert h'.keys == h.keys;
        assert k0 in h.keys;
        assert Minus(ks, h.keys) == Minus(rest, h.keys);
      } else {
        assert h'.keys == h.keys + [k0];
        MinusIgnores(rest, h.keys, k0);
        assert Minus(ks, h.keys) == [k0] + Minus(rest, h.keys);
        ConcatAssoc(h.keys, [k0], Minus(rest, h.keys));
      }
    }
  }

  /** Storing keys one by one overrides the lookup with `other`'s values under those keys. */
  lemma {:induction false} MergeFromLookup(h: ListingHash, other: ListingHash, ks: seq<Id>)
    requires forall k :: k in ks ==> k in other.lookup
    ensures forall k :: k in MergeFrom(h, other, ks).lookup <==> k in h.lookup || k in ks
    ensures forall k :: k in ks ==> MergeFrom(h, other, ks).lookup[k] == other.lookup[k]
    ensures forall k :: k in h.lookup && k !in ks ==> MergeFrom(h, other, ks).lookup[k] == h.lookup[k]
    decreases |ks|
  {
    if |ks| > 0 {
      var k0, rest := ks[0], ks[1..];
      var h' := Store(h, k0, other.lookup[k0]);
      assert h'.lookup == h.lookup[k0 := other.lookup[k0]];
      MergeFromLookup(h', other, rest);
    }
  }

  /**
   `h.merge(other)` keeps `h`'s keys in place and appends those of `other`'s
   keys that `h` lacks, in `other`'s order; on a shared key `other` wins.
   */
  lemma MergeSpec(h: ListingHash, other: ListingHash)
    requires h.Valid() && other.Valid()
    ensures Merge(h, other).keys == h.keys + Minus(other.keys, h.keys)
    ensures Merge(h, other).lookup == h.lookup + other.lookup
  {
    MergeFromKeys(h, other, other.keys);
    MergeLookup(h, other);
  }

  lemma MergeLookup(h: ListingHash, other: ListingHash)
    requires other.Valid()
    ensures Merge(h, other).lookup == h.lookup + other.lookup
  {
    MergeFromLookup(h, other, other.keys);
    var m := Merge(h, other).lookup;
    assert forall k :: k in m <==> k in h.lookup + other.lookup;
  }

  /** With disjoint keys, `merge` appends `other` and leaves every entry of `h` as it was. */
  lemma MergeDisjoint(h: ListingHash, other: ListingHash)
    requires h.Valid() && other.Valid()
    requires forall k :: k in other.lookup ==> k !in h.lookup
    ensures Merge(h, other).keys == h.keys + other.keys
    ensures forall k :: k in h.lookup ==> k in Merge(h, other).lookup && Merge(h, other).lookup[k] == h.lookup[k]
    ensures forall k :: k in other.lookup ==> k in Merge(h, other).lookup && Merge(h, other).lookup[k] == other.lookup[k]
  {
    MergeSpec(h, other);
    MinusNone(other.keys, h.keys);
  }

  /** Merging the same hash twice is merging it once. */
  lemma MergeIdempotent(h: ListingHash, other: ListingHash)
    requires h.Valid() && other.Valid()
    ensures Merge(Merge(h, other), other) == Merge(h, other)
  {
    var m := Merge(h, other);
    MergeSpec(h, other);
    var mm := Merge(m, other);
    MergeFromKeys(m, other, other.keys);
    MinusAll(other.keys, m.keys);
    assert mm.keys == m.keys + [] == m.keys;
    MergeLookup(m, other);
    assert mm.lookup == m.lookup + other.lookup == h.lookup + other.lookup + other.lookup;
  }

  /** Merging `{}` changes nothing. */
  lemma MergeEmpty(h: ListingHash)
    ensures Merge(h, Empty) == h
  {
  }

  /** Merging into `{}` gives the merged hash itself. */
  lemma MergeIntoEmpty(h: ListingHash)
    requires h.Valid()
    ensures Merge(Empty, h) == h
  {
    MergeDisjoint(Empty, h);
    assert Merge(Empty, h).lookup == h.lookup;
  }

  /** Merging two snapshots keyed by id gives a snapshot keyed by id. */
  lemma MergeKeyedById(h: ListingHash, other: ListingHash)
    requires h.Valid() && other.Valid()
    requires KeyedById(h) && KeyedById(other)
    ensures KeyedById(Merge(h, other))
  {
    MergeSpec(h, other);
  }
}
