/**
 The `Fetch` class of handler.rb: keying the feed's postings by id, and the
 persisted snapshot of seen listings in the object store. The HTTP request and
 the S3 client are outside the model; what they hand back is state here: the
 parsed feed response, and the stored object (already inflated and parsed,
 since `put` followed by `get` gives back the hash that was written).
 */
module Fetch {
  import opened Wrappers
  import opened Listings

  /**
   The parsed feed: `postings` is what `jobs.dig(:records, :postings)` finds,
   `None` when that is missing, `nil` or `false`.
   */
  datatype FeedResponse = FeedResponse(postings: Option<seq<Listing>>)

  /** The ids of the postings, in feed order. */
  function Ids(postings: seq<Listing>): (r: seq<Id>)
    ensures |r| == |postings|
    ensures forall i :: 0 <= i < |postings| ==> r[i] == postings[i].id
  {
    if |postings| == 0 then [] else [postings[0].id] + Ids(postings[1..])
  }

  /** Stores every posting under its own id, in feed order: `to_h` of `[id, job]` pairs. */
  function IndexById(h: ListingHash, postings: seq<Listing>): (r: ListingHash)
    ensures h.Valid() ==> r.Valid()
    decreases |postings|
  {
    if |postings| == 0 then h
    else IndexById(Store(h, postings[0].id, postings[0]), postings[1..])
  }

  /** `current_listings` once the response is parsed: `{}` without postings. */
  function ListingsIn(response: FeedResponse): (r: ListingHash)
    ensures r.Valid() && KeyedById(r)
  {
    match response.postings
    case None => Empty
    case Some(postings) =>
      IndexByIdKeyed(Empty, postings);
      IndexById(Empty, postings)
  }

  /** What `previous_listings` yields for the stored object: its content, or `{}` if none. */
  function Previous(stored: Option<ListingHash>): (r: ListingHash)
    ensures (stored.Some? ==> stored.value.Valid()) ==> r.Valid()
  {
    match stored
    case None => Empty
    case Some(content) => content
  }

  lemma {:induction false} IndexByIdLookup(h: ListingHash, postings: seq<Listing>)
    ensures forall k :: k in IndexById(h, postings).lookup <==> k in h.lookup || k in Ids(postings)
    ensures forall k :: k in h.lookup && k !in Ids(postings) ==>
      IndexById(h, postings).lookup[k] == h.lookup[k]
    decreases |postings|
  {
    if |postings| > 0 {
      var p := postings[0];
      IndexByIdLookup(Store(h, p.id, p), postings[1..]);
      assert Ids(postings) == [p.id] + Ids(postings[1..]);
    }
  }

  /** A posting whose id does not occur again later is the value stored under that id. */
  lemma {:induction false} IndexByIdLastWins(h: ListingHash, postings: seq<Listing>, i: nat)
    requires i < |postings|
    requires postings[i].id !in Ids(postings[i + 1..])
    ensures postings[i].id in IndexById(h, postings).lookup
    ensures IndexById(h, postings).lookup[postings[i].id] == postings[i]
    decreases |postings|
  {
    var p := postings[0];
    var h' := Store(h, p.id, p);
    assert IndexById(h, postings) == IndexById(h', postings[1..]);
    if i == 0 {
      IndexByIdLookup(h', postings[1..]);
    } else {
      assert postings[1..][i - 1] == postings[i];
      assert postings[1..][i..] == postings[i + 1..];
      IndexByIdLastWins(h', postings[1..], i - 1);
    }
  }

  lemma {:induction false} IndexByIdKeyed(h: ListingHash, postings: seq<Listing>)
    requires KeyedById(h)
    ensures KeyedById(IndexById(h, postings))
    decreases |postings|
  {
    if |postings| > 0 {
      var p := postings[0];
      IndexByIdKeyed(Store(h, p.id, p), postings[1..]);
    }
  }

  /** With ids that repeat nowhere, the new ids are appended in feed order. */
  lemma {:induction false} IndexByIdOrder(h: ListingHash, postings: seq<Listing>)
    requires Distinct(Ids(postings))
    requires forall k :: k in Ids(postings) ==> k !in h.lookup
    ensures IndexById(h, postings).keys == h.keys + Ids(postings)
    decreases |postings|
  {
    if |postings| > 0 {
      var p := postings[0];
      var h' := Store(h, p.id, p);
      assert Ids(postings) == [p.id] + Ids(postings[1..]);
      IndexByIdOrder(h', postings[1..]);
      ConcatAssoc(h.keys, [p.id], Ids(postings[1..]));
    }
  }

  /**
   `current_listings`: `{}` when the response has no postings; otherwise every
   posting is reachable under its own id and nothing else is, the value under an
   id is the last posting carrying it, and with ids that do not repeat the keys
   follow the feed order.
   */
  lemma CurrentListingsSpec(response: FeedResponse)
    ensures ListingsIn(response).Valid() && KeyedById(ListingsIn(response))
    ensures response.postings.None? ==> ListingsIn(response) == Empty
    ensures response.postings.Some? ==>
      var postings := response.postings.value;
      && (forall k :: k in ListingsIn(response).lookup <==> k in Ids(postings))
      && (forall i :: 0 <= i < |postings| && postings[i].id !in Ids(postings[i + 1..]) ==>
            ListingsIn(response).lookup[postings[i].id] == postings[i])
      && (Distinct(Ids(postings)) ==> ListingsIn(response).keys == Ids(postings))
  {
    if response.postings.Some? {
      var postings := response.postings.value;
      IndexByIdLookup(Empty, postings);
      IndexByIdKeyed(Empty, postings);
      forall i | 0 <= i < |postings| && postings[i].id !in Ids(postings[i + 1..])
        ensures ListingsIn(response).lookup[postings[i].id] == postings[i]
      {
        IndexByIdLastWins(Empty, postings, i);
      }
      if Distinct(Ids(postings)) {
        IndexByIdOrder(Empty, postings);
      }
    }
  }

  /** `Fetch.current_listings` as seen by the runner: each call is one request to the feed. */
  class ListingFeed {
    const response: FeedResponse
    var requests: nat

    constructor (response: FeedResponse)
      ensures this.response == response && requests == 0
    {
      this.response := response;
      requests := 0;
    }

    method CurrentListings() returns (current: ListingHash)
      modifies this
      ensures requests == old(requests) + 1
      ensures current == ListingsIn(response)
      ensures current.Valid() && KeyedById(current)
    {
      requests := requests + 1;
      CurrentListingsSpec(response);
      current := ListingsIn(response);
    }
  }

  /**
   The object `netflix_jobs.gz` in bucket `ar-jobs`: `None` while it does not
   exist, otherwise the hash it holds.
   */
  class SnapshotStore {
    var stored: Option<ListingHash>
    var writes: nat

    ghost predicate Valid()
      reads this
    {
      stored.Some? ==> stored.value.Valid()
    }

    constructor (initial: Option<ListingHash>)
      requires initial.Some? ==> initial.value.Valid()
      ensures Valid() && stored == initial && writes == 0
    {
      stored := initial;
      writes := 0;
    }

    /** `object_exists?`: whether `head_object` finds the object. */
    method ObjectExists() returns (present: bool)
      ensures present <==> stored.Some?
    {
      present := stored.Some?;
    }

    /** `get`: the stored hash; `None` is the not-found error of a missing object. */
    method Get() returns (content: Option<ListingHash>)
      ensures content == stored
    {
      content := stored;
    }

    /** `put`: overwrites the whole object with `content`. */
    method Put(content: ListingHash)
      requires content.Valid()
      modifies this
      ensures Valid() && stored == Some(content) && writes == old(writes) + 1
    {
      stored := Some(content);
      writes := writes + 1;
    }

    /** `previous_listings`: creates the object as `{}` if it is missing, then reads it. */
    method PreviousListings() returns (prev: ListingHash)
      requires Valid()
      modifies this
      ensures Valid()
      ensures prev == Previous(old(stored)) && stored == Some(prev)
      ensures writes == old(writes) + if old(stored).None? then 1 else 0
    {
      var present := ObjectExists();
      if !present {
        Put(Empty);
      }
      var content := Get();
      prev := content.value;
    }

    /** `update_previous_listings`: reads the snapshot again, merges, writes it back. */
    method UpdatePreviousListings(newListings: ListingHash) returns (merged: ListingHash)
      requires Valid() && newListings.Valid()
      modifies this
      ensures Valid()
      ensures merged == Merge(Previous(old(stored)), newListings) && stored == Some(merged)
      ensures writes == old(writes) + if old(stored).None? then 2 else 1
    {
      var prev := PreviousListings();
      merged := Merge(prev, newListings);
      Put(merged);
    }

    /** `purge_data`: the snapshot becomes `{}`. */
    method PurgeData()
      modifies this
      ensures Valid() && stored == Some(Empty) && writes == old(writes) + 1
    {
      Put(Empty);
    }
  }
}
