/**
 The `Mailer` class of handler.rb: the text of the notification e-mail (a
 heading that reports the size of the batch, then one block per new listing),
 and the sending of it. The SES client and the e-mail envelope are outside the
 model; a send is recorded in the mailer's outbox.
 */
module Mail {
  import opened Wrappers
  import opened Text
  import opened Listings

  const Subject := "NEW NETFLIX JOBS!"
  const Rule := "-------------"
  const LinkBase := "https://jobs.netflix.com/jobs/"

  /** `field&.join(", ")` as interpolated into a string: "" when the field is `nil`. */
  function Listed(field: Option<seq<string>>): (r: string)
    ensures field.None? || field.value == [] ==> r == ""
    ensures field.Some? && |field.value| == 1 ==> r == field.value[0]
  {
    match field
    case None => ""
    case Some(items) => Join(items, ", ")
  }

  /** The lines of `Mailer.message(job)` (the label "Organiztion" is spelled as in the e-mail). */
  function MessageLines(job: Listing): (r: seq<string>)
    ensures |r| == 7 && r[6] == Rule
  {
    [ "Title: " + job.text,
      "Team: " + Listed(job.team),
      "Organiztion: " + Listed(job.organization),
      "Subteam: " + Listed(job.subteam),
      "Locations: " + job.location + ", " + Listed(job.alternateLocations),
      "Link: " + LinkBase + job.externalId,
      Rule ]
  }

  /** `Mailer.message(job)`: a heredoc, so every line ends with a newline. */
  function Message(job: Listing): (r: string)
    ensures |r| > 0 && r[|r| - 1] == '\n'
  {
    Unlines(MessageLines(job))
  }

  function HeadingLines(count: nat): (r: seq<string>)
    ensures |r| == 3 && r[1] == "" && r[2] == Rule
  {
    ["There are currently " + Decimal(count) + " new job(s), they are:", "", Rule]
  }

  /** The heredoc heading of `send_notification` for a batch of `count` listings. */
  function Heading(count: nat): (r: string)
    ensures |r| > 0 && r[|r| - 1] == '\n'
  {
    Unlines(HeadingLines(count))
  }

  /** `jobs.map { |job| message(job) }` */
  function Messages(jobs: seq<Listing>): (r: seq<string>)
    ensures |r| == |jobs|
  {
    if |jobs| == 0 then [] else [Message(jobs[0])] + Messages(jobs[1..])
  }

  /** The e-mail body: `heading + jobs.join("\n")`, the blocks in the batch's order. */
  function Body(newJobs: ListingHash): (r: string)
    requires newJobs.Valid()
    ensures |Heading(|newJobs.keys|)| <= |r| && r[..|Heading(|newJobs.keys|)|] == Heading(|newJobs.keys|)
  {
    Heading(|newJobs.keys|) + Join(Messages(Values(newJobs)), "\n")
  }

  /** Each listing's lines followed by the empty line that `join("\n")` leaves after it. */
  function Blocks(jobs: seq<Listing>): (r: seq<string>)
    ensures |r| == 8 * |jobs|
  {
    if |jobs| == 0 then [] else MessageLines(jobs[0]) + [""] + Blocks(jobs[1..])
  }

  /** The body read line by line: the heading, then the blocks (or one empty line for none). */
  function BodyLines(jobs: seq<Listing>): seq<string>
  {
    HeadingLines(|jobs|) + if |jobs| == 0 then [""] else Blocks(jobs)
  }

  /** No field of the listing contains a line break. */
  ghost predicate SingleLine(job: Listing)
  {
    && '\n' !in job.text
    && '\n' !in job.location
    && '\n' !in job.externalId
    && ListedSingleLine(job.team)
    && ListedSingleLine(job.organization)
    && ListedSingleLine(job.subteam)
    && ListedSingleLine(job.alternateLocations)
  }

  ghost predicate ListedSingleLine(field: Option<seq<string>>)
  {
    field.Some? ==> forall i :: 0 <= i < |field.value| ==> '\n' !in field.value[i]
  }

  /** Block `i` of the body is the `i`-th listing's seven lines and an empty line. */
  lemma {:induction false} BlockAt(jobs: seq<Listing>, i: nat)
    requires i < |jobs|
    ensures Blocks(jobs)[8 * i .. 8 * i + 8] == MessageLines(jobs[i]) + [""]
    decreases |jobs|
  {
    var head := MessageLines(jobs[0]) + [""];
    assert Blocks(jobs) == head + Blocks(jobs[1..]);
    if i == 0 {
      SliceOfAppend(head, Blocks(jobs[1..]), 0, 0);
    } else {
      BlockAt(jobs[1..], i - 1);
      SliceOfAppend(head, Blocks(jobs[1..]), 8 * (i - 1), 8);
    }
  }

  lemma {:induction false} MessagesAsBlocks(jobs: seq<Listing>)
    requires |jobs| > 0
    ensures Join(Messages(jobs), "\n") == Join(Blocks(jobs), "\n")
    decreases |jobs|
  {
    var head := MessageLines(jobs[0]) + [""];
    UnlinesIsJoin(MessageLines(jobs[0]));
    if |jobs| == 1 {
      assert Blocks(jobs) == head;
    } else {
      MessagesAsBlocks(jobs[1..]);
      assert Messages(jobs) == [Message(jobs[0])] + Messages(jobs[1..]);
      JoinAppend([Message(jobs[0])], Messages(jobs[1..]), "\n");
      JoinAppend(head, Blocks(jobs[1..]), "\n");
    }
  }

  lemma BodyAsLines(jobs: seq<Listing>)
    ensures Heading(|jobs|) + Join(Messages(jobs), "\n") == Join(BodyLines(jobs), "\n")
  {
    var h := HeadingLines(|jobs|);
    if |jobs| == 0 {
      UnlinesIsJoin(h);
    } else {
      MessagesAsBlocks(jobs);
      UnlinesThenJoin(h, Blocks(jobs));
    }
  }

  lemma {:induction false} ListedAvoidsNewline(field: Option<seq<string>>)
    requires ListedSingleLine(field)
    ensures '\n' !in Listed(field)
  {
    if field.Some? {
      JoinAvoids(field.value, ", ", '\n');
    }
  }

  lemma MessageLinesAvoidNewline(job: Listing)
    requires SingleLine(job)
    ensures forall i :: 0 <= i < |MessageLines(job) + [""]| ==> '\n' !in (MessageLines(job) + [""])[i]
  {
    ListedAvoidsNewline(job.team);
    ListedAvoidsNewline(job.organization);
    ListedAvoidsNewline(job.subteam);
    ListedAvoidsNewline(job.alternateLocations);
    TeamLabelsAvoidNewline();
    PlaceLabelsAvoidNewline();
    LinkAvoidsNewline();
  }

  /** The labels are kept in small lemmas of their own: literal text is costly in a larger context. */
  lemma TeamLabelsAvoidNewline()
    ensures '\n' !in "Title: " && '\n' !in "Team: " && '\n' !in "Organiztion: "
  {
  }

  lemma PlaceLabelsAvoidNewline()
    ensures '\n' !in "Subteam: " && '\n' !in "Locations: " && '\n' !in ", "
  {
  }

  lemma LinkAvoidsNewline()
    ensures '\n' !in "Link: " && '\n' !in LinkBase && '\n' !in Rule
  {
  }

  lemma {:induction false} BlocksAvoidNewline(jobs: seq<Listing>)
    requires forall i :: 0 <= i < |jobs| ==> SingleLine(jobs[i])
    ensures forall i :: 0 <= i < |Blocks(jobs)| ==> '\n' !in Blocks(jobs)[i]
    decreases |jobs|
  {
    if |jobs| > 0 {
      MessageLinesAvoidNewline(jobs[0]);
      BlocksAvoidNewline(jobs[1..]);
      assert forall i :: 0 <= i < |Blocks(jobs)| ==> '\n' !in Blocks(jobs)[i] by {
        var head := MessageLines(jobs[0]) + [""];
        assert Blocks(jobs) == head + Blocks(jobs[1..]);
        forall i | 0 <= i < |Blocks(jobs)|
          ensures '\n' !in Blocks(jobs)[i]
        {
          if i >= |head| {
            assert Blocks(jobs)[i] == Blocks(jobs[1..])[i - |head|];
          }
        }
      }
    }
  }

  /**
   The body is unambiguous line by line: split at its line breaks it gives the
   heading (which reports the batch size), then for each listing of the batch,
   in the batch's order, its seven lines and an empty line.
   */
  lemma BodyRoundTrip(newJobs: ListingHash)
    requires newJobs.Valid()
    requires forall k :: k in newJobs.lookup ==> SingleLine(newJobs.lookup[k])
    ensures Split(Body(newJobs), '\n') == BodyLines(Values(newJobs))
    ensures |Values(newJobs)| == |newJobs.keys|
  {
    var jobs := Values(newJobs);
    BodyAsLines(jobs);
    BodyLinesAvoidNewline(jobs);
    SplitJoin(BodyLines(jobs), '\n');
  }

  lemma HeadingLinesAvoidNewline(count: nat)
    ensures forall i :: 0 <= i < |HeadingLines(count)| ==> '\n' !in HeadingLines(count)[i]
  {
    var digits := Decimal(count);
    forall i | 0 <= i < |digits|
      ensures digits[i] != '\n'
    {
    }
    var lines := HeadingLines(count);
    assert '\n' !in lines[0] && '\n' !in lines[1] && '\n' !in lines[2];
  }

  lemma BodyLinesAvoidNewline(jobs: seq<Listing>)
    requires forall i :: 0 <= i < |jobs| ==> SingleLine(jobs[i])
    ensures forall i :: 0 <= i < |BodyLines(jobs)| ==> '\n' !in BodyLines(jobs)[i]
  {
    HeadingLinesAvoidNewline(|jobs|);
    if |jobs| == 0 {
      assert BodyLines(jobs) == HeadingLines(0) + [""];
    } else {
      BlocksAvoidNewline(jobs);
      var lines := BodyLines(jobs);
      forall i | 0 <= i < |lines|
        ensures '\n' !in lines[i]
      {
        if i >= 3 {
          assert lines[i] == Blocks(jobs)[i - 3];
        }
      }
    }
  }

  /** One e-mail as handed to SES, with the batch it was sent for. */
  datatype Notification = Notification(jobs: ListingHash, subject: string, body: string)

  function Notify(newJobs: ListingHash): (r: Notification)
    requires newJobs.Valid()
    ensures r.jobs == newJobs && r.subject == "NEW NETFLIX JOBS!"
    ensures |Heading(|newJobs.keys|)| <= |r.body| && r.body[..|Heading(|newJobs.keys|)|] == Heading(|newJobs.keys|)
  {
    Notification(newJobs, Subject, Body(newJobs))
  }

  class Mailer {
    var outbox: seq<Notification>

    constructor ()
      ensures outbox == []
    {
      outbox := [];
    }

    /** `Mailer.send_notification(new_jobs)`: one e-mail about the whole batch. */
    method SendNotification(newJobs: ListingHash)
      requires newJobs.Valid()
      modifies this
      ensures outbox == old(outbox) + [Notify(newJobs)]
    {
      var body := Heading(|newJobs.keys|) + Join(Messages(Values(newJobs)), "\n");
      outbox := outbox + [Notification(newJobs, Subject, body)];
    }
  }
}
