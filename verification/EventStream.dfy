/** The event stream of a job (main.py): a polling cursor over the numbered log, and reconnection by Last-Event-ID. */
module EventStreams {
  import opened Wrappers
  import opened Decimals
  import opened Domain
  import opened Rows
  import opened Lifecycle
  import opened Frontier
  import opened Stages
  import opened Protocol
  import opened Runs
  import L = StatusLog

  /** What one turn of the loop sees: the connection, the committed log, then the job's status, read in this order. */
  datatype Poll = Poll(connected: bool, log: seq<Event>, terminal: bool)

  /** events_after: the rows above the cursor, in order. */
  function EventsAfter(log: seq<Event>, cursor: nat): seq<Event> {
    if log == [] then []
    else
      var n := |log| - 1;
      EventsAfter(log[..n], cursor) + if log[n].sequenceNo > cursor then [log[n]] else []
  }

  function CursorAfter(sent: seq<Event>, cursor: nat): nat {
    if sent == [] then cursor else sent[|sent| - 1].sequenceNo
  }

  /** Everything that one connection yields. */
  function Stream(polls: seq<Poll>, cursor: nat): seq<Event> {
    if polls == [] || !polls[0].connected then []
    else
      var sent := EventsAfter(polls[0].log, cursor);
      sent + if polls[0].terminal then [] else Stream(polls[1..], CursorAfter(sent, cursor))
  }

  /** The inner loop: one event is yielded at a time and moves the cursor. */
  method Yield(events: seq<Event>, sent: seq<Event>, cursor: nat) returns (more: seq<Event>, next: nat)
    ensures more == sent + events && next == CursorAfter(events, cursor)
  {
    more, next := sent, cursor;
    for k := 0 to |events|
      invariant more == sent + events[..k] && next == if k == 0 then cursor else events[k - 1].sequenceNo
    {
      next := events[k].sequenceNo;
      more := more + [events[k]];
    }
  }

  /** The loop of event_stream. */
  method StreamEvents(polls: seq<Poll>, after: nat) returns (sent: seq<Event>)
    ensures sent == Stream(polls, after)
  {
    hide EventsAfter, CursorAfter;
    sent := [];
    var cursor := after;
    var i := 0;
    while i < |polls|
      invariant i <= |polls|
      invariant Stream(polls, after) == sent + Stream(polls[i..], cursor)
    {
      ghost var rest := polls[i..];
      assert rest[0] == polls[i] && rest[1..] == polls[i + 1..];
      if !polls[i].connected {
        return;
      }
      var events := EventsAfter(polls[i].log, cursor);
      ghost var before := sent;
      sent, cursor := Yield(events, sent, cursor);
      if polls[i].terminal {
        return;
      }
      Associate(before, events, Stream(polls[i + 1..], cursor));
      i := i + 1;
    }
  }

  lemma Associate(a: seq<Event>, b: seq<Event>, c: seq<Event>)
    ensures a + (b + c) == (a + b) + c
  {
  }

  // What is delivered

  /** `sent` is a gap-free, duplicate-free, ordered piece of the log that starts at `after` + 1. */
  ghost predicate Segment(log: seq<Event>, after: nat, sent: seq<Event>) {
    sent == [] || (after + |sent| <= |log| && sent == log[after..after + |sent|])
  }

  /** The part of the log above the cursor. */
  function Rest(log: seq<Event>, cursor: nat): seq<Event> { if cursor < |log| then log[cursor..] else [] }

  lemma {:induction false} AfterIsSuffix(log: seq<Event>, cursor: nat)
    requires Numbered(log)
    ensures EventsAfter(log, cursor) == Rest(log, cursor)
  {
    if log != [] {
      var n := |log| - 1;
      var rest, last := log[..n], log[n];
      assert last.sequenceNo == n + 1;
      PrefixIsNumbered(rest, log);
      AfterIsSuffix(rest, cursor);
      hide Numbered;
      if cursor < n {
        SuffixOfPrefix(log, cursor);
      } else {
        assert EventsAfter(rest, cursor) == [];
      }
    }
  }

  lemma SuffixOfPrefix(log: seq<Event>, cursor: nat)
    requires cursor < |log|
    ensures log[cursor..] == log[..|log| - 1][cursor..] + [log[|log| - 1]]
  {
  }

  lemma SegmentCursor(log: seq<Event>, after: nat, sent: seq<Event>)
    requires Numbered(log) && Segment(log, after, sent)
    ensures CursorAfter(sent, after) == after + |sent|
  {
    if sent != [] { assert sent[|sent| - 1] == log[after + |sent| - 1]; }
  }

  lemma SegmentConcat(log: seq<Event>, after: nat, sent: seq<Event>, more: seq<Event>)
    requires Segment(log, after, sent) && Segment(log, after + |sent|, more)
    ensures Segment(log, after, sent + more)
  {
    if sent != [] && more != [] {
      assert log[after..after + |sent + more|] == sent + more;
    } else {
      assert sent + more == if sent == [] then more else sent;
    }
  }

  lemma SegmentPrefix(log: seq<Event>, after: nat, sent: seq<Event>, n: nat)
    requires Segment(log, after, sent) && n <= |sent|
    ensures Segment(log, after, sent[..n])
  {
  }

  lemma PrefixIsNumbered(log: seq<Event>, full: seq<Event>)
    requires Numbered(full) && log <= full
    ensures Numbered(log)
  {
  }

  ghost predicate PollsOf(log: seq<Event>, polls: seq<Poll>) { forall p <- polls :: p.log <= log }

  /** One connection yields a segment, whatever its polls have seen of the log. */
  lemma {:induction false} StreamIsSegment(log: seq<Event>, polls: seq<Poll>, after: nat)
    requires Numbered(log) && PollsOf(log, polls)
    ensures Segment(log, after, Stream(polls, after))
    decreases |polls|
  {
    if polls != [] && polls[0].connected {
      var seen := polls[0].log;
      PrefixIsNumbered(seen, log);
      AfterIsSuffix(seen, after);
      var sent := EventsAfter(seen, after);
      assert Segment(log, after, sent);
      SegmentCursor(log, after, sent);
      if !polls[0].terminal {
        StreamIsSegment(log, polls[1..], after + |sent|);
        SegmentConcat(log, after, sent, Stream(polls[1..], after + |sent|));
      }
    }
  }

  /** A client's connection: the server's polls, and how many events arrived before it broke. */
  datatype Connection = Connection(polls: seq<Poll>, received: nat)

  function Arrived(c: Connection, after: nat): seq<Event> {
    var sent := Stream(c.polls, after);
    sent[..Min(c.received, |sent|)]
  }

  /** The cursor that the Last-Event-ID header asks for: 0 when it is absent or not a number. */
  function CursorOf(header: Option<string>): nat {
    if header.Some? && IsDigits(header.value) then FromDecimal(header.value) else 0
  }

  /** The identifier that the server sends comes back as the same cursor. */
  lemma IdentifierRoundTrip(n: nat)
    ensures CursorOf(Some(Decimal(n))) == n
  {
    DecimalRoundTrip(n);
  }

  /** All that a client receives when it reconnects with the identifier of the last event it got. */
  function Client(connections: seq<Connection>, after: nat): seq<Event> {
    if connections == [] then []
    else
      var got := Arrived(connections[0], after);
      got + Client(connections[1..], CursorOf(Some(Decimal(CursorAfter(got, after)))))
  }

  /** Any number of reconnections, each cut anywhere, delivers one segment that starts at `after` + 1. */
  lemma {:induction false} ReconnectionIsGapFree(log: seq<Event>, connections: seq<Connection>, after: nat)
    requires Numbered(log) && forall c <- connections :: PollsOf(log, c.polls)
    ensures Segment(log, after, Client(connections, after))
    decreases |connections|
  {
    hide Numbered, PollsOf, Segment, Stream, Decimal, CursorOf, CursorAfter;
    if connections == [] {
      assert Segment(log, after, []) by { NothingIsSegment(log, after); }
    } else {
      var c := connections[0];
      StreamIsSegment(log, c.polls, after);
      var got := Arrived(c, after);
      SegmentPrefix(log, after, Stream(c.polls, after), |got|);
      SegmentCursor(log, after, got);
      IdentifierRoundTrip(after + |got|);
      ReconnectionIsGapFree(log, connections[1..], after + |got|);
      SegmentConcat(log, after, got, Client(connections[1..], after + |got|));
    }
  }

  lemma NothingIsSegment(log: seq<Event>, after: nat)
    ensures Segment(log, after, [])
  {
  }

  /** A segment of a numbered log is numbered without gaps. */
  lemma SegmentIsNumbered(log: seq<Event>, after: nat, sent: seq<Event>)
    requires Numbered(log) && Segment(log, after, sent)
    ensures forall i :: 0 <= i < |sent| ==> sent[i].sequenceNo == after + i + 1
  {
  }

  lemma RestConcat(seen: seq<Event>, last: seq<Event>, after: nat)
    requires seen <= last
    ensures Rest(seen, after) + Rest(last, after + |Rest(seen, after)|) == Rest(last, after)
  {
  }

  lemma RestSegment(log: seq<Event>, seen: seq<Event>, after: nat)
    requires seen <= log
    ensures Segment(log, after, Rest(seen, after))
  {
  }

  /** The connection stays up, the job ends at the last poll at the earliest, and the log grows. */
  ghost predicate StaysOpen(polls: seq<Poll>) {
    && (forall p <- polls :: p.connected)
    && forall i :: 0 <= i < |polls| - 1 ==> !polls[i].terminal && polls[i].log <= polls[i + 1].log
  }

  lemma StaysOpenTail(log: seq<Event>, polls: seq<Poll>)
    requires |polls| > 1 && StaysOpen(polls) && PollsOf(log, polls)
    ensures StaysOpen(polls[1..]) && PollsOf(log, polls[1..])
    ensures polls[0].connected && !polls[0].terminal && polls[0].log <= log
  {
  }

  /** Nothing is withheld: a connection that stays up delivers everything its last poll saw. */
  lemma {:induction false} StreamReaches(log: seq<Event>, polls: seq<Poll>, after: nat)
    requires Numbered(log) && PollsOf(log, polls) && polls != []
    requires StaysOpen(polls)
    ensures Stream(polls, after) == Rest(polls[|polls| - 1].log, after)
    decreases |polls|
  {
    hide Segment, EventsAfter, Rest, Stream, CursorAfter, Numbered, StaysOpen, PollsOf;
    var seen := polls[0].log;
    if |polls| == 1 {
      OneTurn(log, polls, after);
    } else {
      StaysOpenTail(log, polls);
      StreamTurn(log, polls, after);
      StreamReaches(log, polls[1..], after + |Rest(seen, after)|);
      LogsGrow(polls);
      assert polls[1..][|polls[1..]| - 1] == polls[|polls| - 1];
      RestConcat(seen, polls[|polls| - 1].log, after);
    }
  }

  /** One turn delivers what its poll sees above the cursor. */
  lemma StreamTurn(log: seq<Event>, polls: seq<Poll>, after: nat)
    requires Numbered(log) && polls != [] && polls[0].connected && polls[0].log <= log && !polls[0].terminal
    ensures var sent := Rest(polls[0].log, after);
            Stream(polls, after) == sent + Stream(polls[1..], after + |sent|)
  {
    hide Segment, Rest, Numbered, EventsAfter;
    var seen := polls[0].log;
    PrefixIsNumbered(seen, log);
    AfterIsSuffix(seen, after);
    RestSegment(log, seen, after);
    SegmentCursor(log, after, Rest(seen, after));
  }

  lemma OneTurn(log: seq<Event>, polls: seq<Poll>, after: nat)
    requires Numbered(log) && PollsOf(log, polls) && |polls| == 1 && StaysOpen(polls)
    ensures Stream(polls, after) == Rest(polls[0].log, after)
  {
    var seen := polls[0].log;
    assert polls[0] in polls;
    PrefixIsNumbered(seen, log);
    AfterIsSuffix(seen, after);
    assert Stream(polls[1..], CursorAfter(EventsAfter(seen, after), after)) == [];
  }

  /**
   * The status is read after the log, so a stream that ends with its job may miss the job's last events: it has
   * delivered everything exactly when its last poll saw the whole log.
   */
  lemma StreamIsComplete(log: seq<Event>, polls: seq<Poll>, after: nat)
    requires Numbered(log) && PollsOf(log, polls) && polls != [] && after < |log|
    requires StaysOpen(polls)
    ensures Stream(polls, after) == log[after..] <==> polls[|polls| - 1].log == log
  {
    var last := polls[|polls| - 1].log;
    StreamReaches(log, polls, after);
    if Rest(last, after) == log[after..] { assert |last| == |log|; }
  }

  /** A poll of a running job sees the log as it was at one moment, and the status at that moment or a later one. */
  ghost predicate Sees(dbs: seq<Db>, p: Poll, i: nat, j: nat) {
    i <= j < |dbs| && p.log == dbs[i].events && p.terminal == Terminal(dbs[j].job.status)
  }

  /**
   * It does happen: a job is cancelled between the two reads of a poll, and the stream ends without the event of the
   * cancellation. A reconnection with the identifier received delivers it.
   */
  lemma StreamEndsEarly(cfg: Config, formats: seq<Format>, maxAttempts: nat) returns (dbs: seq<Db>, steps: seq<Step>)
    ensures CallRun(cfg, dbs, steps) && |dbs| == 2 && Terminal(dbs[1].job.status)
    ensures var early, late := Poll(true, dbs[0].events, true), Poll(true, dbs[1].events, true);
            && Sees(dbs, early, 0, 1) && Sees(dbs, late, 1, 1)
            && Stream([early], 0) < dbs[1].events
            && Client([Connection([early], |dbs[1].events|), Connection([late], |dbs[1].events|)], 0) == dbs[1].events
  {
    hide EventsAfter, Stream, CursorOf, Decimal, CallRun;
    var first := Created(formats, maxAttempts);
    var step := Step(CancelCall, 0);
    CancelEnds(cfg, first, step);
    dbs, steps := [first, Apply(cfg, first, step).db], [step];
    assert CallRun(cfg, dbs, steps) by { OneStepRun(cfg, formats, maxAttempts, dbs, steps); }
    OneTurn(dbs[1].events, [Poll(true, dbs[0].events, true)], 0);
    OneTurn(dbs[1].events, [Poll(true, dbs[1].events, true)], 1);
    IdentifierRoundTrip(1);
    var early, late := Poll(true, dbs[0].events, true), Poll(true, dbs[1].events, true);
    var n := |dbs[1].events|;
    TwoConnections(early, late, n, dbs[0].events, dbs[1].events);
  }

  lemma OneStepRun(cfg: Config, formats: seq<Format>, maxAttempts: nat, dbs: seq<Db>, steps: seq<Step>)
    requires |dbs| == 2 && |steps| == 1 && dbs[0] == Created(formats, maxAttempts)
    requires dbs[1] == Apply(cfg, dbs[0], steps[0]).db
    ensures CallRun(cfg, dbs, steps)
  {
    hide Apply;
  }

  /** Cancelling a new job appends one event to its one event. */
  lemma CancelEnds(cfg: Config, db: Db, step: Step)
    requires step == Step(CancelCall, 0) && exists formats, maxAttempts :: db == Created(formats, maxAttempts)
    ensures var after := Apply(cfg, db, step).db;
            && Terminal(after.job.status) && |db.events| == 1 && |after.events| == 2 && db.events <= after.events
            && Numbered(after.events)
  {
    hide ClaimPlanning, CompletePlanning, FailPlanning, PrepareBrowser, CompleteBrowser, FailBrowser;
    hide ClaimDiscovery, CompleteDiscovery, FailDiscovery, ClaimExtraction, CompleteExtraction, FailExtraction;
    hide ClaimValidation, CompleteValidation, FailValidation, ClaimExport, CompleteExport, FailExport;
    hide Recover;
  }

  lemma TwoConnections(early: Poll, late: Poll, n: nat, seen: seq<Event>, log: seq<Event>)
    requires Stream([early], 0) == seen && |seen| == 1 && seen[0].sequenceNo == 1
    requires n == |log| == 2 && seen <= log && Stream([late], 1) == log[1..]
    ensures Client([Connection([early], n), Connection([late], n)], 0) == log
  {
    hide Stream, Decimal;
    var c, d := Connection([early], n), Connection([late], n);
    assert Arrived(c, 0) == seen && Arrived(d, 1) == log[1..];
    IdentifierRoundTrip(1);
    assert [c, d][1..] == [d] && [d][1..] == [];
    assert Client([d], 1) == log[1..] + Client([], CursorOf(Some(Decimal(CursorAfter(log[1..], 1)))));
    assert seen + log[1..] == log;
  }

  lemma {:induction false} LogsGrow(polls: seq<Poll>)
    requires polls != [] && StaysOpen(polls)
    ensures polls[0].log <= polls[|polls| - 1].log
    decreases |polls|
  {
    if |polls| > 1 { LogsGrow(polls[1..]); }
  }

  /** The polls of a stream see the logs that a run of the job has committed. */
  ghost predicate PollsRun(dbs: seq<Db>, polls: seq<Poll>) {
    forall p <- polls :: exists i :: 0 <= i < |dbs| && p.log == dbs[i].events
  }

  /**
   * Event log and stream together: over any run of the job, any number of reconnections by Last-Event-ID delivers a
   * gap-free, duplicate-free, ordered segment of the log, numbered from `after` + 1.
   */
  lemma StreamOfRun(cfg: Config, dbs: seq<Db>, steps: seq<Step>, connections: seq<Connection>, after: nat)
    requires CallRun(cfg, dbs, steps) && forall c <- connections :: PollsRun(dbs, c.polls)
    ensures Segment(dbs[|steps|].events, after, Client(connections, after))
    ensures forall i :: 0 <= i < |Client(connections, after)| ==>
              Client(connections, after)[i].sequenceNo == after + i + 1
  {
    hide Apply;
    var log := dbs[|steps|].events;
    RunIsSound(cfg, dbs, steps, |steps|);
    forall c <- connections
      ensures PollsOf(log, c.polls)
    {
      forall p <- c.polls
        ensures p.log <= log
      {
        var i :| 0 <= i < |dbs| && p.log == dbs[i].events;
        TerminalFreeze(cfg, dbs, steps, i, |steps|);
      }
    }
    ReconnectionIsGapFree(log, connections, after);
    SegmentIsNumbered(log, after, Client(connections, after));
  }

  /**
   * So a client of the stream, however often it reconnects, always shows a status that the job has had, and the current
   * one when it has received the whole log.
   */
  lemma ClientShowsStatus(cfg: Config, dbs: seq<Db>, steps: seq<Step>, connections: seq<Connection>)
    requires CallRun(cfg, dbs, steps) && forall c <- connections :: PollsRun(dbs, c.polls)
    ensures var got, last := Client(connections, 0), dbs[|steps|];
            && (exists j :: 0 <= j <= |steps| && L.Replay(Queued, got) == dbs[j].job.status)
            && (|got| == |last.events| ==> L.Replay(Queued, got) == last.job.status)
  {
    hide Apply, L.Replay, Client, PollsRun;
    StreamOfRun(cfg, dbs, steps, connections, 0);
    var got, log := Client(connections, 0), dbs[|steps|].events;
    assert got == log[..|got|];
    L.StatusFollowsLog(cfg, dbs, steps, |steps|, |got|);
    assert log[..|log|] == log;
  }
}
