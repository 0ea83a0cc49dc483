# netflix-jobs handler, modelled in Dafny

The handler is an AWS Lambda function, `get_jobs`, that watches the Netflix jobs
feed. Each run does the following:

- it fetches the current postings and keys them by id;
- it reads the snapshot of postings seen before, which lives in one S3 object and is created as `{}` if missing;
- it takes the postings whose ids the snapshot lacks;
- it merges them into the snapshot and writes it back;
- if there are any, it sends one e-mail listing them;
- it returns a summary message.

An event that asks for a purge resets the snapshot to `{}` instead. This is a hash whose `purge_data` entry is truthy, or a string that contains "purge_data".

The model is split into modules:

- `Wrappers`: `Option`, for Ruby's `nil`.
- `Text`: the string operations the handler relies on. These are `Array#join`, `Integer#to_s` and heredoc text. Each has an inverse (`Split`, `DecimalValue`) so that the formats can be shown to read back.
- `Listings`: a posting, and the Ruby `Hash` of postings. The hash is modelled as insertion-ordered keys plus a lookup table, because the summary and the e-mail list postings in hash order. It provides `h[k] = v` (`Store`), `Array#-` (`Minus`), `Hash#select` (`Select`) and `Hash#merge` (`Merge`). `Merge` is defined as the fold Ruby performs and is proved equal to its closed form.
- `Fetch`: keying the feed's postings by id. `ListingFeed` is the feed and counts its requests. `SnapshotStore` is the S3 object as a mutable field, counting its writes.
- `Mail`: the exact text of the notification e-mail. `Mailer` records each e-mail it sends in an outbox.
- `Runner`: the pure specification of one run (`RunOutcome`), the lemmas about it, and the imperative `Run` and `GetJobs` that are proved to perform it.

## Model

| member | source | states |
|---|---|---|
| Text.Join | handler.rb:142 | `Array#join`: `[]` gives "", a non-empty join starts with the first part and is as long as the parts plus one separator between each pair |
| Text.JoinAppend | handler.rb:17 | joining two non-empty lists is joining each with one separator between |
| Text.Unlines | handler.rb:42-50 | a heredoc's text is as long as its lines plus one newline each, and ends with a newline |
| Text.Decimal | handler.rb:11 | `Integer#to_s` of a natural number is a non-empty string of decimal digits |
| Text.DecimalRoundTrip | handler.rb:142 | the decimal form of a count reads back as that count |
| Text.SplitJoin | handler.rb:142 | `join` with a one-character separator that occurs in no part is undone by splitting at that character |
| Text.UnlinesIsJoin | handler.rb:42-50 | a heredoc's text is its lines joined by newlines followed by an empty piece |
| Listings.Store | handler.rb:67-69 | storing under a key keeps the hash well formed: keys distinct and in step with the lookup |
| Listings.Minus | handler.rb:133 | `a - b` holds exactly the elements of `a` not in `b`, and is no longer than `a` |
| Listings.Keep | handler.rb:135 | the elements of `a` that are in `b`, each once if `a` has no repeats |
| Listings.Select | handler.rb:135 | `select` of a well-formed hash is well formed |
| Listings.MergeFrom | handler.rb:90 | storing `other`'s entries key by key keeps the hash well formed |
| Listings.Values | handler.rb:15 | one value per key, in key order, and every stored listing is among them |
| Listings.Merge | handler.rb:90 | `merge` of well-formed hashes is well formed |
| Listings.MergeSpec | handler.rb:90 | `h.merge(o)`: `h`'s keys stay in place, `o`'s missing keys follow in `o`'s order, and `o` wins on shared keys |
| Listings.MergeLookup | handler.rb:90 | the merged lookup is `h`'s lookup overridden by `o`'s |
| Listings.MergeDisjoint | handler.rb:90 | with disjoint keys the merge appends `o` and leaves every entry of `h` unchanged |
| Listings.MergeIdempotent | handler.rb:90 | merging the same hash twice equals merging it once |
| Listings.MergeEmpty | handler.rb:90 | merging `{}` changes nothing |
| Listings.MergeIntoEmpty | handler.rb:90 | merging into `{}` yields the merged hash |
| Listings.MergeKeyedById | handler.rb:89-93 | merging two snapshots whose every key is its listing's own id gives such a snapshot |
| Fetch.ListingsIn | handler.rb:62-70 | the keyed postings, or `{}` without postings, form a well-formed hash in which every key is its listing's own id |
| Fetch.Previous | handler.rb:72-77 | what `previous_listings` yields, `{}` for a missing object, is well formed whenever the stored object is |
| Fetch.Ids | handler.rb:67-69 | the ids of the postings, position by position |
| Fetch.IndexById | handler.rb:67-69 | keying postings by id keeps the hash well formed |
| Fetch.IndexByIdLookup | handler.rb:67-69 | after keying, an id is present iff it was before or some posting has it; untouched entries stay |
| Fetch.IndexByIdLastWins | handler.rb:67-69 | a posting whose id does not occur later is the value stored under that id |
| Fetch.IndexByIdKeyed | handler.rb:67-69 | every key maps to the posting whose own id it is |
| Fetch.IndexByIdOrder | handler.rb:67-69 | with distinct ids, the ids are appended in feed order |
| Fetch.CurrentListingsSpec | handler.rb:62-70 | no postings gives `{}`; otherwise exactly the posted ids are keys, the last posting per id wins, every key is its listing's id, and distinct ids keep feed order |
| Fetch.ListingFeed.CurrentListings | handler.rb:62-70 | one request per call; returns the keyed postings of the response |
| Fetch.SnapshotStore.ObjectExists | handler.rb:79-87 | true iff the object exists |
| Fetch.SnapshotStore.Get | handler.rb:108-112 | returns the stored hash, or nothing for a missing object |
| Fetch.SnapshotStore.Put | handler.rb:99-106 | the object becomes exactly the given hash; one write |
| Fetch.SnapshotStore.PreviousListings | handler.rb:72-77 | returns the stored hash, or `{}` which it first writes when the object is missing; the object then holds what was returned |
| Fetch.SnapshotStore.UpdatePreviousListings | handler.rb:89-93 | re-reads the snapshot, stores and returns its merge with the new listings; one write, or two if the object was missing |
| Fetch.SnapshotStore.PurgeData | handler.rb:95-97 | the object becomes `{}`; one write |
| Mail.Listed | handler.rb:44-47 | `&.join(", ")` interpolated: `nil` and `[]` both give "", a single item gives that item |
| Mail.MessageLines | handler.rb:41-51 | a listing's message has seven lines and ends with the rule |
| Mail.Message | handler.rb:41-51 | the message text ends with a newline |
| Mail.HeadingLines | handler.rb:10-14 | the heading has three lines: the count line, an empty line, the rule |
| Mail.Heading | handler.rb:10-14 | the heading text ends with a newline |
| Mail.Body | handler.rb:17 | the body starts with the heading for the batch size |
| Mail.Notify | handler.rb:19-38 | the e-mail carries the whole batch, the subject "NEW NETFLIX JOBS!", and a body that starts with the heading |
| Mail.Messages | handler.rb:15 | one message per listing |
| Mail.Blocks | handler.rb:15-17 | eight lines per listing |
| Mail.BlockAt | handler.rb:41-51 | lines `8i` to `8i+7` of the blocks are the `i`-th listing's seven message lines and an empty line |
| Mail.MessagesAsBlocks | handler.rb:15-17 | the messages joined by newlines are the blocks joined by newlines |
| Mail.BodyAsLines | handler.rb:10-17 | the heading plus the joined messages is the body's lines joined by newlines |
| Mail.ListedAvoidsNewline | handler.rb:44-47 | `&.join(", ")` of single-line items is a single line |
| Mail.MessageLinesAvoidNewline | handler.rb:41-51 | a listing with single-line fields gives message lines without line breaks |
| Mail.BlocksAvoidNewline | handler.rb:15-17 | the same, for the blocks of all listings |
| Mail.HeadingLinesAvoidNewline | handler.rb:10-14 | the heading lines contain no line break |
| Mail.BodyLinesAvoidNewline | handler.rb:10-17 | no line of the body contains a line break |
| Mail.BodyRoundTrip | handler.rb:10-17 | split at line breaks, the body is the heading reporting the batch size, then each listing's seven lines and an empty line, in hash order |
| Mail.Mailer.SendNotification | handler.rb:8-39 | exactly one e-mail, about the whole batch, is added to the outbox |
| Runner.NewJobs | handler.rb:133-135 | the batch is well formed; an id is in it iff it is current and not in the snapshot, with its current listing |
| Runner.Summary | handler.rb:139-142 | the message is non-empty and, for a non-empty batch, starts with a digit |
| Runner.RunOutcome | handler.rb:130-146 | a run leaves a well-formed snapshot and sends at most one e-mail, with the fixed subject and a non-empty batch |
| Runner.NewJobsSpec | handler.rb:133-135 | the new listings are exactly the current ones whose ids the snapshot lacks, with current content, in feed order |
| Runner.NewJobsFromEmpty | handler.rb:133-135 | against `{}` every current listing is new |
| Runner.NewJobsNoneNew | handler.rb:133-135 | if the snapshot holds every current id, nothing is new |
| Runner.SummaryNeverQuiet | handler.rb:139-142 | the message is "No new jobs" iff the batch is empty |
| Runner.SummaryRoundTrip | handler.rb:139-142 | with comma-free ids the message reads back as the batch size and its ids in order |
| Runner.RunSnapshotSpec | handler.rb:137 | the written snapshot keeps all old entries unchanged, appends the new ones in feed order, and holds exactly the old and the current ids |
| Runner.RunOutcomeSpec | handler.rb:139-144 | the message is "No new jobs" and nothing is sent iff the batch is empty; otherwise exactly one e-mail, with the batch |
| Runner.RerunIsQuiet | handler.rb:130-146 | a second run against the same feed says "No new jobs", mails nothing and keeps the snapshot |
| Runner.UnchangedFeedIsQuiet | spec/handler_spec.rb:15-20 | a feed equal to the snapshot gives "No new jobs", no e-mail and an unchanged snapshot |
| Runner.FirstRunReportsAll | handler.rb:72-77 | with no stored object, every current listing is reported, mailed and stored |
| Runner.MissingPostingsKeepSnapshot | handler.rb:65 | a response without postings reports nothing and keeps the stored snapshot |
| Runner.RunKeepsKeyedById | handler.rb:130-146 | a run keeps the snapshot keyed by id |
| Runner.OneNewListingExample | spec/handler_spec.rb:22-28 | a new "9999" beside a known "1" gives "1 new listing(s): 9999", one e-mail about it, and a snapshot with both |
| Runner.PurgeDecision | handler.rb:150 | a `nil` or `false` event runs; only a string or a hash event can purge |
| Runner.PurgeTruthiness | handler.rb:150 | `0` and "" under "purge_data" purge; `false`, `null` and a missing key run; a `true` or array event raises |
| Runner.StringEventPurges | handler.rb:150 | any string event containing "purge_data" purges |
| Runner.StringEventPurgesIff | handler.rb:150 | a string event purges iff "purge_data" occurs in it |
| Runner.NoMentionRuns | handler.rb:150 | a string event that does not contain "purge_data" runs |
| Runner.ContainsWitness | handler.rb:150 | the substring test used for string events finds a real occurrence: a prefix, the text, a suffix |
| Runner.ContainsOffset | handler.rb:150 | when the substring test succeeds, it yields an offset at which the string spells out the searched text |
| Runner.Run | handler.rb:130-146 | one feed request; one store write, or two if the object was missing; the message, the snapshot and the e-mails are those of `RunOutcome` |
| Runner.GetJobs | handler.rb:149-157 | an event that makes the purge test raise changes nothing; a purge empties the snapshot with one write and neither fetches nor mails; any other event performs one run, one or two writes included; a reply has status 200 and echoes the event |
| Runner.RunTwice | handler.rb:130-146 | two runs against one feed: two requests, two or three writes, the second returns "No new jobs", and the outbox grows only by the first run's e-mails |

## Left out

- The HTTP request to the jobs API is not modelled. Neither is JSON parsing. The parsed response is a parameter: the posting list, or none when `records.postings` is missing.
- S3 is not modelled: the clients, the bucket and key names, Zlib and JSON encoding. The stored object holds the hash directly, because a `put` followed by a `get` returns it.
- Errors other than a missing object are not modelled. That covers network and permission failures, and exceptions from S3, SES or the HTTP call.
- The SES request envelope is not modelled: the sender and recipient addresses, and the nesting of the request. An e-mail is recorded as its batch, subject and body.
- The Lambda reply's body is not modelled as JSON text. The reply keeps the status code, the message and the echoed event as values.
- Ids are strings. In Ruby the hash keys are symbols, both from `to_sym` and from `symbolize_names: true` when the snapshot is read back. A listing's own `id` field stays a string. The model uses one string for both, so `KeyedById` equates a symbol key with the string id it came from.
- Concurrent invocations are not modelled. Two runs at once can interleave their reads and writes of the snapshot, including the second read inside `update_previous_listings`, and lose entries. The model runs one invocation at a time.
- The `context` argument of `get_jobs` is not modelled; the handler does not use it. JSON numbers are modelled as integers; a float event raises just as an integer one does.
- Displayed posting fields (`text`, `location`, `external_id`) that the feed leaves out are `nil` in Ruby and are modelled as "". Both render the same inside a string.
- A posting whose `id` is missing or not a string makes `current_listings` raise (`to_sym` is undefined for `nil` and for numbers), before the snapshot is read. The model's ids are always strings, so it does not represent that failure.
- Fetch.IndexByIdOrder: states key order only when the posting ids are distinct, as they are in the feed. With repeats, the key order is that of first occurrences; only membership and the last-wins value are proved.
- Fetch.CurrentListingsSpec: states key order only when the feed's ids are distinct. With repeated ids it states only membership and which posting wins.
- Mail.BodyRoundTrip: assumes that no field of a listing contains a line break. Without that, the body cannot be read back line by line.
- Runner.SummaryRoundTrip: assumes that no id contains a comma. Feed ids are numeric.
- The repository's spec tests that no longer match the code are not modelled. These include the subject "NEW NETFLIX JOB!", a heading without "new job(s)", and the key `netflix_jobs.json`. The model follows handler.rb.
