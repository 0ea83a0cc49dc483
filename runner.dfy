/**
 The `Runner` class and the Lambda entry point `get_jobs` of handler.rb. One
 run fetches the feed, reads the snapshot of listings already seen, reports
 the listings that are new (by id), mails them as one e-mail, and merges them
 into the snapshot. `RunOutcome` states what a run does as a value; `Run`
 performs it step by step on the feed, the store and the mailer, and its
 postcondition ties the two together.
 */
module Runner {
  import opened Wrappers
  import opened Text
  import opened Listings
  import opened Fetch
  import opened Mail

  const NoNewJobs := "No new jobs"
  const PurgedData := "Purged data"
  /** What the summary message puts between the count and the ids. */
  const CountSuffix := " new listing(s): "

  /** `new.keys - prev.keys`, then `new.select { |k, _v| new_ids.include?(k) }`. */
  function NewJobs(current: ListingHash, previous: ListingHash): (r: ListingHash)
    ensures current.Valid() ==> r.Valid()
    ensures current.Valid() ==> forall k :: k in r.lookup <==> k in current.lookup && k !in previous.keys
    ensures forall k :: k in r.lookup ==> k in current.lookup && r.lookup[k] == current.lookup[k]
  {
    Select(current, Minus(current.keys, previous.keys))
  }

  /** The message a run returns: "No new jobs", or the count and the ids joined by commas. */
  function Summary(newJobs: ListingHash): (r: string)
    ensures |r| > 0
    ensures |newJobs.keys| > 0 ==> IsDigit(r[0])
  {
    if |newJobs.keys| == 0 then NoNewJobs
    else Decimal(|newJobs.keys|) + CountSuffix + Join(newJobs.keys, ",")
  }

  /** Reads a run's message back into the count and the ids it reports. */
  function ParseSummary(message: string): Option<(nat, seq<Id>)>
  {
    if message == NoNewJobs then Some((0, []))
    else
      var d := LeadingDigits(message);
      var rest := message[d..];
      if d == 0 || |rest| < |CountSuffix| || rest[..|CountSuffix|] != CountSuffix then None
      else Some((DecimalValue(message[..d]), Split(rest[|CountSuffix|..], ',')))
  }

  /**
   What one run does: the message it returns, the snapshot it leaves in the
   store, and the e-mails it sends.
   */
  datatype Outcome = Outcome(message: string, snapshot: ListingHash, sent: seq<Notification>)

  /** A run against the feed's listings `current` and the stored object `stored`. */
  function RunOutcome(current: ListingHash, stored: Option<ListingHash>): (r: Outcome)
    requires current.Valid()
    ensures Previous(stored).Valid() ==> r.snapshot.Valid()
    ensures r.sent == [] || (|r.sent| == 1 && r.sent[0].subject == Subject && |r.sent[0].jobs.keys| > 0)
  {
    var previous := Previous(stored);
    var newJobs := NewJobs(current, previous);
    var sent := if |newJobs.keys| == 0 then [] else [Notify(newJobs)];
    Outcome(Summary(newJobs), Merge(previous, newJobs), sent)
  }

  /**
   The new listings are exactly those of `current` whose ids the snapshot does
   not hold, with their current content, in the feed's order.
   */
  lemma NewJobsSpec(current: ListingHash, previous: ListingHash)
    requires current.Valid() && previous.Valid()
    ensures NewJobs(current, previous).Valid()
    ensures NewJobs(current, previous).keys == Minus(current.keys, previous.keys)
    ensures forall k :: k in NewJobs(current, previous).lookup <==>
      k in current.lookup && k !in previous.lookup
    ensures forall k :: k in NewJobs(current, previous).lookup ==>
      NewJobs(current, previous).lookup[k] == current.lookup[k]
  {
    KeepMinus(current.keys, previous.keys);
  }

  /** Against an empty snapshot every current listing is new. */
  lemma NewJobsFromEmpty(current: ListingHash)
    requires current.Valid()
    ensures NewJobs(current, Empty) == current
  {
    MinusNone(current.keys, []);
    KeepAll(current.keys, current.keys);
    var n := NewJobs(current, Empty);
    assert n.lookup == current.lookup;
  }

  /** Every id of `current` is in the snapshot: nothing is new. */
  lemma NewJobsNoneNew(current: ListingHash, previous: ListingHash)
    requires current.Valid() && previous.Valid()
    requires forall k :: k in current.lookup ==> k in previous.lookup
    ensures NewJobs(current, previous) == Empty
  {
    MinusAll(current.keys, previous.keys);
    var n := NewJobs(current, previous);
    KeepNone(current.keys);
    assert n.lookup == map[];
  }

  /**
   The snapshot a run writes keeps every listing it had and appends the new
   ones in feed order, so its ids are the old ids together with the current ones.
   */
  lemma RunSnapshotSpec(current: ListingHash, stored: Option<ListingHash>)
    requires current.Valid() && Previous(stored).Valid()
    ensures var previous := Previous(stored);
      var snapshot := RunOutcome(current, stored).snapshot;
      && snapshot.Valid()
      && snapshot.keys == previous.keys + NewJobs(current, previous).keys
      && (forall k :: k in previous.lookup ==> k in snapshot.lookup && snapshot.lookup[k] == previous.lookup[k])
      && (forall k :: k in current.lookup && k !in previous.lookup ==> k in snapshot.lookup && snapshot.lookup[k] == current.lookup[k])
      && (forall k :: k in snapshot.lookup <==> k in previous.lookup || k in current.lookup)
  {
    var previous := Previous(stored);
    NewJobsSpec(current, previous);
    MergeDisjoint(previous, NewJobs(current, previous));
  }

  /**
   A run reports and mails the same batch: the message is "No new jobs" and
   nothing is sent exactly when the batch is empty, otherwise exactly one
   e-mail about the whole batch goes out.
   */
  lemma RunOutcomeSpec(current: ListingHash, stored: Option<ListingHash>)
    requires current.Valid()
    ensures var newJobs := NewJobs(current, Previous(stored));
      var o := RunOutcome(current, stored);
      && (o.message == NoNewJobs <==> |newJobs.keys| == 0)
      && (o.sent == [] <==> |newJobs.keys| == 0)
      && (|newJobs.keys| > 0 ==> o.sent == [Notify(newJobs)] && o.sent[0].jobs == newJobs)
  {
    SummaryNeverQuiet(NewJobs(current, Previous(stored)));
  }

  /** A non-empty batch never reads as "No new jobs": its message starts with a digit. */
  lemma SummaryNeverQuiet(newJobs: ListingHash)
    ensures Summary(newJobs) == NoNewJobs <==> |newJobs.keys| == 0
  {
    if |newJobs.keys| > 0 {
      var s := Summary(newJobs);
      assert s[0] == Decimal(|newJobs.keys|)[0];
      assert IsDigit(s[0]);
      assert !IsDigit(NoNewJobs[0]);
    }
  }

  /**
   Running again against the same feed finds nothing new: it returns
   "No new jobs", sends nothing, and writes back the same snapshot.
   */
  lemma RerunIsQuiet(current: ListingHash, stored: Option<ListingHash>)
    requires current.Valid() && Previous(stored).Valid()
    ensures var first := RunOutcome(current, stored);
      RunOutcome(current, Some(first.snapshot)) == Outcome(NoNewJobs, first.snapshot, [])
  {
    var first := RunOutcome(current, stored);
    RunSnapshotSpec(current, stored);
    NewJobsNoneNew(current, first.snapshot);
    MergeEmpty(first.snapshot);
  }

  /** A feed that matches the snapshot leaves the snapshot as it is and mails nothing. */
  lemma UnchangedFeedIsQuiet(snapshot: ListingHash)
    requires snapshot.Valid()
    ensures RunOutcome(snapshot, Some(snapshot)) == Outcome(NoNewJobs, snapshot, [])
  {
    NewJobsNoneNew(snapshot, snapshot);
    MergeEmpty(snapshot);
  }

  /** The first run (no stored object) reports, mails and stores every current listing. */
  lemma FirstRunReportsAll(current: ListingHash)
    requires current.Valid()
    ensures RunOutcome(current, None).snapshot == current
    ensures RunOutcome(current, None).message == Summary(current)
    ensures |current.keys| > 0 ==> RunOutcome(current, None).sent == [Notify(current)]
    ensures |current.keys| == 0 ==> RunOutcome(current, None).sent == []
  {
    NewJobsFromEmpty(current);
    MergeIntoEmpty(current);
  }

  /** A response without postings loses nothing: the stored snapshot is kept as it was. */
  lemma MissingPostingsKeepSnapshot(stored: Option<ListingHash>)
    ensures RunOutcome(ListingsIn(FeedResponse(None)), stored) ==
      Outcome(NoNewJobs, Previous(stored), [])
  {
    var previous := Previous(stored);
    assert Minus([], previous.keys) == [];
    assert NewJobs(Empty, previous) == Empty;
    MergeEmpty(previous);
  }

  /** Every snapshot a run writes is keyed by id when the feed's listings and the old snapshot are. */
  lemma RunKeepsKeyedById(current: ListingHash, stored: Option<ListingHash>)
    requires current.Valid() && Previous(stored).Valid()
    requires KeyedById(current) && KeyedById(Previous(stored))
    ensures KeyedById(RunOutcome(current, stored).snapshot)
  {
    var previous := Previous(stored);
    NewJobsSpec(current, previous);
    MergeKeyedById(previous, NewJobs(current, previous));
  }

  /**
   The run's message is unambiguous when no id contains a comma: it reads back
   as the size of the batch and its ids in order.
   */
  lemma SummaryRoundTrip(newJobs: ListingHash)
    requires forall i :: 0 <= i < |newJobs.keys| ==> ',' !in newJobs.keys[i]
    ensures ParseSummary(Summary(newJobs)) == Some((|newJobs.keys|, newJobs.keys))
  {
    SummaryNeverQuiet(newJobs);
    var n := |newJobs.keys|;
    if n > 0 {
      var digits := Decimal(n);
      var tail := Join(newJobs.keys, ",");
      var s := digits + (CountSuffix + tail);
      assert Summary(newJobs) == s;
      assert !IsDigit(CountSuffix[0]);
      LeadingDigitsOfPrefix(digits, CountSuffix + tail);
      assert s[..|digits|] == digits;
      assert s[|digits|..] == CountSuffix + tail;
      assert (CountSuffix + tail)[|CountSuffix|..] == tail;
      DecimalRoundTrip(n);
      SplitJoin(newJobs.keys, ',');
    }
  }

  /** One new posting "9999" next to a known "1": the run says so and mails that one listing. */
  lemma OneNewListingExample(known: Listing, added: Listing)
    requires known.id == "1" && added.id == "9999"
    ensures var previous := ListingHash(["1"], map["1" := known]);
      var current := ListingHash(["1", "9999"], map["1" := known, "9999" := added]);
      var o := RunOutcome(current, Some(previous));
      && o.message == "1 new listing(s): 9999"
      && o.snapshot == current
      && o.sent == [Notify(ListingHash(["9999"], map["9999" := added]))]
  {
    var previous := ListingHash(["1"], map["1" := known]);
    var current := ListingHash(["1", "9999"], map["1" := known, "9999" := added]);
    var batch := ListingHash(["9999"], map["9999" := added]);
    ExampleBatch(known, added);
    ExampleSummary(batch);
    ExampleMerge(known, added);
  }

  lemma ExampleMerge(known: Listing, added: Listing)
    ensures Merge(ListingHash(["1"], map["1" := known]), ListingHash(["9999"], map["9999" := added]))
      == ListingHash(["1", "9999"], map["1" := known, "9999" := added])
  {
    var previous := ListingHash(["1"], map["1" := known]);
    var batch := ListingHash(["9999"], map["9999" := added]);
    assert "1" != "9999";
    MergeDisjoint(previous, batch);
  }

  lemma ExampleBatch(known: Listing, added: Listing)
    ensures NewJobs(ListingHash(["1", "9999"], map["1" := known, "9999" := added]), ListingHash(["1"], map["1" := known]))
      == ListingHash(["9999"], map["9999" := added])
  {
    var previous := ListingHash(["1"], map["1" := known]);
    var current := ListingHash(["1", "9999"], map["1" := known, "9999" := added]);
    assert "1" != "9999";
    assert Minus(current.keys, previous.keys) == ["9999"] by {
      assert current.keys[1..] == ["9999"];
      assert "9999" !in previous.keys;
    }
    assert Keep(current.keys, ["9999"]) == ["9999"];
  }

  lemma ExampleSummary(batch: ListingHash)
    requires batch.keys == ["9999"]
    ensures Summary(batch) == "1 new listing(s): 9999"
  {
    assert Decimal(1) == "1";
    assert Join(batch.keys, ",") == "9999";
  }

  /** A JSON value, as the Lambda runtime hands the event to `get_jobs` (object keys stay strings). */
  datatype Value =
    | Null
    | Bool(b: bool)
    | Number(n: int)
    | Str(s: string)
    | List(items: seq<Value>)
    | Object(fields: map<string, Value>)

  /** Ruby truthiness: only `nil` and `false` are falsy. */
  predicate Truthy(v: Value)
  {
    !(v.Null? || v == Bool(false))
  }

  /** `t` occurs in `s` as a substring. */
  predicate Contains(s: string, t: string)
    decreases |s|
  {
    |t| <= |s| && (s[..|t|] == t || (|s| > 0 && Contains(s[1..], t)))
  }

  /** What `event && event["purge_data"]` leads to: a purge, a run, or an exception. */
  datatype Decision = Purge | RunJobs | Raise

  /**
   `event && event["purge_data"]` for each kind of event. A falsy event
   short-circuits to a run. A hash looks the key up. A string answers the
   substring "purge_data" when it contains it, and `nil` otherwise. `true`, a
   number and an array raise: there is no `[]` for `true`, and an `Integer` or
   `Array` index must be a number.
   */
  function PurgeDecision(event: Value): (d: Decision)
    ensures !Truthy(event) ==> d == RunJobs
    ensures d == Purge ==> event.Str? || event.Object?
  {
    match event
    case Null => RunJobs
    case Bool(b) => if b then Raise else RunJobs
    case Number(_) => Raise
    case List(_) => Raise
    case Str(s) => if Contains(s, "purge_data") then Purge else RunJobs
    case Object(fields) =>
      if "purge_data" in fields && Truthy(fields["purge_data"]) then Purge else RunJobs
  }

  /**
   Ruby truthiness in the purge test: `0` and "" ask for a purge; `false`,
   `null` and a missing key do not; a `nil` or `false` event runs.
   */
  lemma PurgeTruthiness()
    ensures PurgeDecision(Object(map["purge_data" := Number(0)])) == Purge
    ensures PurgeDecision(Object(map["purge_data" := Str("")])) == Purge
    ensures PurgeDecision(Object(map["purge_data" := Bool(false)])) == RunJobs
    ensures PurgeDecision(Object(map["purge_data" := Null])) == RunJobs
    ensures forall m: map<string, Value> :: "purge_data" !in m ==> PurgeDecision(Object(m)) == RunJobs
    ensures PurgeDecision(Null) == RunJobs && PurgeDecision(Bool(false)) == RunJobs
    ensures PurgeDecision(Bool(true)) == Raise && PurgeDecision(List([])) == Raise
  {
  }

  /** Any string event that mentions "purge_data" purges. */
  lemma StringEventPurges(prefix: string, suffix: string)
    ensures PurgeDecision(Str(prefix + "purge_data" + suffix)) == Purge
  {
    ContainsInside(prefix, "purge_data", suffix);
  }

  /** A string event purges exactly when "purge_data" occurs in it. */
  lemma StringEventPurgesIff(s: string)
    ensures PurgeDecision(Str(s)) == Purge <==> exists p, q :: s == p + "purge_data" + q
  {
    if PurgeDecision(Str(s)) == Purge {
      ContainsWitness(s, "purge_data");
    } else if exists p, q :: s == p + "purge_data" + q {
      var p, q :| s == p + "purge_data" + q;
      StringEventPurges(p, q);
    }
  }

  /** A string event that does not mention "purge_data" runs. */
  lemma NoMentionRuns(s: string)
    requires forall p, q :: s != p + "purge_data" + q
    ensures PurgeDecision(Str(s)) == RunJobs
  {
    StringEventPurgesIff(s);
  }

  /** `Contains` means what it says: `t` occurs in `s` between some prefix and suffix. */
  lemma ContainsWitness(s: string, t: string)
    requires Contains(s, t)
    ensures exists p, q :: s == p + t + q
  {
    var i := ContainsOffset(s, t);
    assert s == s[..i] + t + s[i + |t|..];
  }

  /** Where `Contains` finds `t`: an offset at which `s` spells out `t`. */
  lemma {:induction false} ContainsOffset(s: string, t: string) returns (i: nat)
    requires Contains(s, t)
    ensures i + |t| <= |s| && s[i..i + |t|] == t
    decreases |s|
  {
    if s[..|t|] == t {
      i := 0;
    } else {
      var j := ContainsOffset(s[1..], t);
      i := j + 1;
      assert s[1..][j..j + |t|] == s[i..i + |t|];
    }
  }

  lemma {:induction false} ContainsInside(prefix: string, t: string, suffix: string)
    ensures Contains(prefix + t + suffix, t)
    decreases |prefix|
  {
    var s := prefix + t + suffix;
    if |prefix| == 0 {
      assert s[..|t|] == t;
    } else {
      ContainsInside(prefix[1..], t, suffix);
      assert s[1..] == prefix[1..] + t + suffix;
    }
  }

  /**
   `Runner.run`: one request to the feed; the store is written once, or twice
   when the object did not exist yet (it is created as `{}` first); the message,
   the new snapshot and the e-mails sent are those of `RunOutcome`.
   */
  method Run(feed: ListingFeed, store: SnapshotStore, mailer: Mailer) returns (message: string)
    requires store.Valid()
    modifies feed, store, mailer
    ensures store.Valid()
    ensures feed.requests == old(feed.requests) + 1
    ensures store.writes == old(store.writes) + if old(store.stored).None? then 2 else 1
    ensures var o := RunOutcome(ListingsIn(feed.response), old(store.stored));
      && message == o.message
      && store.stored == Some(o.snapshot)
      && mailer.outbox == old(mailer.outbox) + o.sent
  {
    var current := feed.CurrentListings();
    var previous := store.PreviousListings();
    var newIds := Minus(current.keys, previous.keys);
    var newJobs := Select(current, newIds);
    var merged := store.UpdatePreviousListings(newJobs);
    message := NoNewJobs;
    if |newJobs.keys| != 0 {
      message := Decimal(|newJobs.keys|) + CountSuffix + Join(newJobs.keys, ",");
      mailer.SendNotification(newJobs);
    }
  }

  /** The Lambda's reply: status 200, the message, and the event echoed back. */
  datatype Reply = Reply(statusCode: nat, message: string, input: Value)

  /**
   `get_jobs`: `None` is an exception raised by the purge test, before anything
   is touched. A purge empties the snapshot with one write and touches neither
   the feed nor the mailer. Any other event performs one run, which writes the
   snapshot even when nothing is new.
   */
  method GetJobs(event: Value, feed: ListingFeed, store: SnapshotStore, mailer: Mailer)
    returns (reply: Option<Reply>)
    requires store.Valid()
    modifies feed, store, mailer
    ensures store.Valid()
    ensures reply.None? <==> PurgeDecision(event) == Raise
    ensures reply.Some? ==> reply.value.statusCode == 200 && reply.value.input == event
    ensures PurgeDecision(event) == Raise ==>
      && store.stored == old(store.stored)
      && store.writes == old(store.writes)
      && feed.requests == old(feed.requests)
      && mailer.outbox == old(mailer.outbox)
    ensures PurgeDecision(event) == Purge ==>
      && reply == Some(Reply(200, PurgedData, event))
      && store.stored == Some(Empty)
      && store.writes == old(store.writes) + 1
      && feed.requests == old(feed.requests)
      && mailer.outbox == old(mailer.outbox)
    ensures PurgeDecision(event) == RunJobs ==>
      var o := RunOutcome(ListingsIn(feed.response), old(store.stored));
      && reply == Some(Reply(200, o.message, event))
      && store.stored == Some(o.snapshot)
      && store.writes == old(store.writes) + (if old(store.stored).None? then 2 else 1)
      && feed.requests == old(feed.requests) + 1
      && mailer.outbox == old(mailer.outbox) + o.sent
  {
    var decision := PurgeDecision(event);
    if decision == Raise {
      return None;
    }
    if decision == Purge {
      store.PurgeData();
      return Some(Reply(200, PurgedData, event));
    }
    var message := Run(feed, store, mailer);
    reply := Some(Reply(200, message, event));
  }

  /**
   Two invocations against the same feed: the second says "No new jobs", and
   only the first can have sent an e-mail.
   */
  method RunTwice(feed: ListingFeed, store: SnapshotStore, mailer: Mailer) returns (first: string, second: string)
    requires store.Valid()
    modifies feed, store, mailer
    ensures second == NoNewJobs
    ensures feed.requests == old(feed.requests) + 2
    ensures store.writes == old(store.writes) + (if old(store.stored).None? then 3 else 2)
    ensures var o := RunOutcome(ListingsIn(feed.response), old(store.stored));
      && first == o.message
      && store.stored == Some(o.snapshot)
      && mailer.outbox == old(mailer.outbox) + o.sent
  {
    ghost var before := store.stored;
    CurrentListingsSpec(feed.response);
    first := Run(feed, store, mailer);
    RerunIsQuiet(ListingsIn(feed.response), before);
    second := Run(feed, store, mailer);
  }
}
