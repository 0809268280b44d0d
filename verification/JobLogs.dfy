/** Job logs: appended to by agents, read from an offset by clients that follow a job. */
module JobLogs {
  import opened Wrappers
  import opened Bytes
  import opened Utf8
  import D = CoordinatorDb

  type Id = string

  datatype Row = Row(state: D.JobState, outputLog: Option<Str>)

  type Rows = map<Id, Row>

  /** COALESCE(output_log, '') */
  function LogOf(rows: Rows, id: Id): Str {
    if id in rows && rows[id].outputLog.Some? then rows[id].outputLog.value else []
  }

  predicate Ended(rows: Rows, id: Id) {
    id in rows && D.Terminal(rows[id].state)
  }

  function Join(a: Str, b: Str): Str {
    Concat(a, b);
    a + b
  }

  // ----- what other clients do to the table -----

  datatype Change = Insert(id: Id) | SetState(id: Id, state: D.JobState) | Append(id: Id, text: Str)

  function Apply(rows: Rows, c: Change): Rows {
    match c
    case Insert(id) => if id in rows then rows else rows[id := Row(D.Queued, None)]
    case SetState(id, s) => if id in rows then rows[id := rows[id].(state := s)] else rows
    case Append(id, text) =>
      if text == [] || id !in rows then rows
      else rows[id := rows[id].(outputLog := Some(Join(LogOf(rows, id), text)))]
  }

  // ----- one poll -----

  datatype Reply = NotFound | Panicked | Logs(output: Str, complete: bool, offset: nat)

  /** Slicing a string off a character boundary panics. */
  function Respond(rows: Rows, id: Id, offset: nat): (r: Reply) {
    if id !in rows then NotFound
    else
      var full := LogOf(rows, id);
      if |full| <= offset then Logs([], Ended(rows, id), offset)
      else if !IsCharBoundary(full, offset) then Panicked
      else
        CutIff(full, offset);
        Logs(full[offset..], Ended(rows, id), |full|)
  }

  datatype Status = Streaming | Finished | JobMissing

  datatype Client = Client(offset: nat, printed: seq<byte>, status: Status)

  const FRESH := Client(0, [], Streaming)

  /** None is a poll that failed on the way, or an error answer other than 404. A panic looks the same. */
  function Receive(c: Client, reply: Option<Reply>): Client {
    match reply
    case None => c
    case Some(Panicked) => c
    case Some(NotFound) => c.(status := JobMissing)
    case Some(Logs(output, complete, _)) =>
      Client(c.offset + |output|, c.printed + output, if complete then Finished else Streaming)
  }

  // ----- interleavings -----

  datatype Event = Other(change: Change) | Poll(delivered: bool)

  datatype World = World(rows: Rows, client: Client)

  function Step(w: World, id: Id, e: Event): World {
    match e
    case Other(c) => w.(rows := Apply(w.rows, c))
    case Poll(delivered) =>
      if w.client.status != Streaming then w
      else w.(client := Receive(w.client, if delivered then Some(Respond(w.rows, id, w.client.offset)) else None))
  }

  function Run(w: World, id: Id, events: seq<Event>): World
    decreases |events|
  {
    if events == [] then w else Run(Step(w, id, events[0]), id, events[1..])
  }

  lemma {:induction false} RunConcat(w: World, id: Id, a: seq<Event>, b: seq<Event>)
    ensures Run(w, id, a + b) == Run(Run(w, id, a), id, b)
    decreases |a|
  {
    if a == [] {
      assert a + b == b;
    } else {
      assert (a + b)[1..] == a[1..] + b;
      RunConcat(Step(w, id, a[0]), id, a[1..], b);
    }
  }

  lemma RunOne(w: World, id: Id, e: Event)
    ensures Run(w, id, [e]) == Step(w, id, e)
  {
    assert Run(Step(w, id, e), id, [e][1..]) == Step(w, id, e);
  }

  // ----- nothing is lost or repeated -----

  /** What was printed is the log up to the offset, and the offset may be sliced at. */
  predicate InStep(w: World, id: Id) {
    var full := LogOf(w.rows, id);
    && w.client.offset <= |full|
    && w.client.printed == full[..w.client.offset]
    && IsCharBoundary(full, w.client.offset)
  }

  lemma BoundaryStays(a: Str, b: Str, i: nat)
    requires i <= |a| && IsCharBoundary(a, i)
    ensures IsCharBoundary(a + b, i) && (a + b)[..i] == a[..i]
  {
    Concat(a, b);
    assert i < |a| ==> (a + b)[i] == a[i];
  }

  lemma ChangeStaysInStep(w: World, id: Id, c: Change)
    requires InStep(w, id)
    ensures InStep(Step(w, id, Other(c)), id)
  {
    hide IsUtf8, IsCharBoundary;
    if c.Append? {
      BoundaryStays(LogOf(w.rows, id), c.text, w.client.offset);
    }
  }

  lemma PollStaysInStep(w: World, id: Id, delivered: bool)
    requires InStep(w, id)
    ensures InStep(Step(w, id, Poll(delivered)), id)
  {
    var full, o := LogOf(w.rows, id), w.client.offset;
    assert full[..o] + full[o..] == full;
    assert full[..|full|] == full;
  }

  lemma StepStaysInStep(w: World, id: Id, e: Event)
    requires InStep(w, id)
    ensures InStep(Step(w, id, e), id)
  {
    hide InStep, Step;
    match e
    case Other(c) => ChangeStaysInStep(w, id, c);
    case Poll(delivered) => PollStaysInStep(w, id, delivered);
  }

  lemma {:induction false} RunStaysInStep(w: World, id: Id, events: seq<Event>)
    requires InStep(w, id)
    ensures InStep(Run(w, id, events), id)
    decreases |events|
  {
    if events == [] {
    } else {
      StepStaysInStep(w, id, events[0]);
      RunStaysInStep(Step(w, id, events[0]), id, events[1..]);
    }
  }

  /** For every interleaving: the printed text is the first `offset` bytes of the stored log, whole
      characters only, and the next poll cannot panic. */
  lemma StreamingIsLossless(rows: Rows, id: Id, events: seq<Event>)
    ensures var w := Run(World(rows, FRESH), id, events);
            var full := LogOf(w.rows, id);
            && w.client.offset <= |full|
            && w.client.printed == full[..w.client.offset] && IsUtf8(w.client.printed)
            && IsCharBoundary(full, w.client.offset)
            && Respond(w.rows, id, w.client.offset) != Panicked
  {
    RunStaysInStep(World(rows, FRESH), id, events);
    var w := Run(World(rows, FRESH), id, events);
    CutIff(LogOf(w.rows, id), w.client.offset);
  }

  /** A reply names the offset that the client computes for its next poll, and a job that does not exist
      stops the client with nothing printed. */
  lemma ReplyMatchesClient(rows: Rows, id: Id, c: Client)
    ensures var r := Respond(rows, id, c.offset);
            && (r.Logs? ==> r.offset == c.offset + |r.output| == Receive(c, Some(r)).offset
                            && (r.complete <==> id in rows && rows[id].state in {D.Complete, D.Failed, D.Cancelled}))
            && (r.NotFound? <==> id !in rows)
            && (r.NotFound? ==> Receive(c, Some(r)) == Client(c.offset, c.printed, JobMissing))
  {
  }

  // ----- when the whole log is printed -----

  function TextOf(e: Event, id: Id): Str {
    match e
    case Other(Append(j, text)) => if j == id then text else []
    case _ => []
  }

  /** The text that the events append to the job's log, when the job exists. */
  function Appended(events: seq<Event>, id: Id): (text: Str) {
    if events == [] then [] else Join(TextOf(events[0], id), Appended(events[1..], id))
  }

  lemma StepGrows(w: World, id: Id, e: Event)
    requires id in w.rows
    ensures var next := Step(w, id, e);
            id in next.rows && LogOf(next.rows, id) == LogOf(w.rows, id) + TextOf(e, id)
  {
  }

  lemma {:induction false} LogGrows(w: World, id: Id, events: seq<Event>)
    requires id in w.rows
    ensures var end := Run(w, id, events);
            id in end.rows && LogOf(end.rows, id) == LogOf(w.rows, id) + Appended(events, id)
    decreases |events|
  {
    hide Step, LogOf, TextOf, IsUtf8;
    if events == [] {
    } else {
      var next := Step(w, id, events[0]);
      var log: seq<byte>, text: seq<byte>, rest: seq<byte> := LogOf(w.rows, id), TextOf(events[0], id), Appended(events[1..], id);
      StepGrows(w, id, events[0]);
      LogGrows(next, id, events[1..]);
      assert log + text + rest == log + (text + rest);
    }
  }

  lemma {:induction false} StoppedClientStays(w: World, id: Id, events: seq<Event>)
    requires w.client.status != Streaming
    ensures Run(w, id, events).client == w.client
    decreases |events|
  {
    if events == [] {
    } else {
      StoppedClientStays(Step(w, id, events[0]), id, events[1..]);
    }
  }

  lemma PollPrintsTheRest(w: World, id: Id)
    requires InStep(w, id) && w.client.status == Streaming && id in w.rows
    ensures var full := LogOf(w.rows, id);
            Step(w, id, Poll(true))
              == World(w.rows, Client(|full|, full, if Ended(w.rows, id) then Finished else Streaming))
  {
    var full := LogOf(w.rows, id);
    assert full[..w.client.offset] + full[w.client.offset..] == full;
  }

  /** The first delivered poll after the job ended ends the loop with the log of that moment printed.
      That is the log for good exactly when nothing is appended later. */
  lemma FinalPollIff(rows: Rows, id: Id, before: seq<Event>, after: seq<Event>)
    requires var w := Run(World(rows, FRESH), id, before);
             w.client.status == Streaming && Ended(w.rows, id)
    ensures var seen := LogOf(Run(World(rows, FRESH), id, before).rows, id);
            var end := Run(World(rows, FRESH), id, before + [Poll(true)] + after);
            && end.client.status == Finished && end.client.printed == seen
            && (end.client.printed == LogOf(end.rows, id) <==> Appended(after, id) == [])
  {
    var start := World(rows, FRESH);
    var w := Run(start, id, before);
    RunStaysInStep(start, id, before);
    var polled := Step(w, id, Poll(true));
    PollPrintsTheRest(w, id);
    RunConcat(start, id, before + [Poll(true)], after);
    RunConcat(start, id, before, [Poll(true)]);
    RunOne(w, id, Poll(true));
    StoppedClientStays(polled, id, after);
    LogGrows(polled, id, after);
  }

  /** Every append comes before the job first reaches a terminal state. */
  predicate AppendsPrecedeTheEnd(w: World, id: Id, events: seq<Event>)
    decreases |events|
  {
    if Ended(w.rows, id) then Appended(events, id) == []
    else events == [] || AppendsPrecedeTheEnd(Step(w, id, events[0]), id, events[1..])
  }

  lemma {:induction false} WholeLogFrom(w: World, id: Id, events: seq<Event>)
    requires InStep(w, id) && w.client.status == Streaming && AppendsPrecedeTheEnd(w, id, events)
    ensures var end := Run(w, id, events);
            end.client.status == Finished ==> end.client.printed == LogOf(end.rows, id)
    decreases |events|
  {
    if events == [] {
    } else {
      var next := Step(w, id, events[0]);
      StepStaysInStep(w, id, events[0]);
      if next.client.status == Finished {
        PollPrintsTheRest(w, id);
        StoppedClientStays(next, id, events[1..]);
        LogGrows(next, id, events[1..]);
      } else if next.client.status == JobMissing {
        StoppedClientStays(next, id, events[1..]);
      } else {
        assert AppendsPrecedeTheEnd(next, id, events[1..]) by { QuietTail(w, id, events); }
        WholeLogFrom(next, id, events[1..]);
      }
    }
  }

  lemma QuietTail(w: World, id: Id, events: seq<Event>)
    requires events != [] && AppendsPrecedeTheEnd(w, id, events)
    ensures AppendsPrecedeTheEnd(Step(w, id, events[0]), id, events[1..])
  {
    if Ended(w.rows, id) {
      QuietPrecedes(Step(w, id, events[0]), id, events[1..]);
    }
  }

  lemma {:induction false} QuietPrecedes(w: World, id: Id, events: seq<Event>)
    requires Appended(events, id) == []
    ensures AppendsPrecedeTheEnd(w, id, events)
    decreases |events|
  {
    if events == [] {
    } else {
      QuietPrecedes(Step(w, id, events[0]), id, events[1..]);
    }
  }

  /** When all appends precede the terminal state, a loop that ends has printed the whole log once. */
  lemma WholeLogPrintedOnce(rows: Rows, id: Id, events: seq<Event>)
    requires AppendsPrecedeTheEnd(World(rows, FRESH), id, events)
    ensures var end := Run(World(rows, FRESH), id, events);
            end.client.status == Finished ==> end.client.printed == LogOf(end.rows, id)
  {
    WholeLogFrom(World(rows, FRESH), id, events);
  }

  /** A job cancelled while its agent still runs: the client stops at the cancellation, and the agent's
      final push is never printed. */
  lemma CancelledJobLosesItsLog()
    ensures var id := "job";
            var events := [Other(Insert(id)), Other(SetState(id, D.Cancelled)), Poll(true), Other(Append(id, [0x41]))];
            var end := Run(World(map[], FRESH), id, events);
            end.client.status == Finished && end.client.printed == [] && LogOf(end.rows, id) == [0x41]
  {
    var id := "job";
    var before := [Other(Insert(id)), Other(SetState(id, D.Cancelled))];
    var after := [Other(Append(id, [0x41]))];
    var start := World(map[], FRESH);
    var a := Step(start, id, before[0]);
    var b := Step(a, id, before[1]);
    var c := Step(b, id, Poll(true));
    assert Run(a, id, before[1..]) == Run(b, id, []) == b;
    assert Run(start, id, before) == b;
    FinalPollIff(map[], id, before, after);
    assert before + [Poll(true)] + after
        == [Other(Insert(id)), Other(SetState(id, D.Cancelled)), Poll(true), Other(Append(id, [0x41]))];
    RunConcat(start, id, before + [Poll(true)], after);
    RunConcat(start, id, before, [Poll(true)]);
    assert Run(b, id, [Poll(true)]) == Run(c, id, []) == c;
    LogGrows(c, id, after);
    assert after[1..] == [] && Appended(after[1..], id) == [];
    assert Appended(after, id) == [0x41];
  }

  // ----- the server and the following client -----

  /** What happens between two polls, and whether the poll gets through. */
  datatype Round = Round(changes: seq<Change>, delivered: bool)

  function Others(changes: seq<Change>): seq<Event> {
    if changes == [] then [] else Others(changes[..|changes| - 1]) + [Other(changes[|changes| - 1])]
  }

  function Flatten(rounds: seq<Round>): seq<Event> {
    if rounds == [] then []
    else
      var last := rounds[|rounds| - 1];
      Flatten(rounds[..|rounds| - 1]) + (Others(last.changes) + [Poll(last.delivered)])
  }

  function ApplyAll(rows: Rows, changes: seq<Change>): Rows {
    if changes == [] then rows else Apply(ApplyAll(rows, changes[..|changes| - 1]), changes[|changes| - 1])
  }

  lemma {:induction false} RunOthers(w: World, id: Id, changes: seq<Change>)
    ensures Run(w, id, Others(changes)) == w.(rows := ApplyAll(w.rows, changes))
    decreases |changes|
  {
    if changes == [] {
    } else {
      var n := |changes| - 1;
      RunOthers(w, id, changes[..n]);
      RunConcat(w, id, Others(changes[..n]), [Other(changes[n])]);
      RunOne(Run(w, id, Others(changes[..n])), id, Other(changes[n]));
    }
  }

  lemma {:induction false} RunRound(w0: World, id: Id, rounds: seq<Round>, n: nat)
    requires n < |rounds|
    ensures var w := Run(w0, id, Flatten(rounds[..n]));
            Run(w0, id, Flatten(rounds[..n + 1]))
              == Step(w.(rows := ApplyAll(w.rows, rounds[n].changes)), id, Poll(rounds[n].delivered))
  {
    var others, poll := Others(rounds[n].changes), Poll(rounds[n].delivered);
    assert rounds[..n + 1][..n] == rounds[..n];
    RunConcat(w0, id, Flatten(rounds[..n]), others + [poll]);
    var w := Run(w0, id, Flatten(rounds[..n]));
    RunOthers(w, id, rounds[n].changes);
    RunConcat(w, id, others, [poll]);
    RunOne(Run(w, id, others), id, poll);
  }

  class LogService {
    var rows: Rows

    constructor ()
      ensures rows == map[]
    {
      rows := map[];
    }

    method AppendJobLog(id: Id, text: Str)
      modifies this
      ensures rows == Apply(old(rows), Append(id, text))
    {
      if text == [] {
        return;
      }
      if id in rows {
        rows := rows[id := rows[id].(outputLog := Some(Join(LogOf(rows, id), text)))];
      }
    }

    method GetJobLogs(id: Id, offset: nat) returns (r: Reply)
      ensures r == Respond(rows, id, offset)
    {
      if id !in rows {
        return NotFound;
      }
      var complete := D.Terminal(rows[id].state);
      var full := LogOf(rows, id);
      if |full| > offset {
        if !IsCharBoundary(full, offset) {
          return Panicked;
        }
        CutIff(full, offset);
        var output := full[offset..];
        return Logs(output, complete, offset + |output|);
      }
      return Logs([], complete, offset);
    }

    method Elapse(changes: seq<Change>)
      modifies this
      ensures rows == ApplyAll(old(rows), changes)
    {
      var i := 0;
      while i < |changes|
        invariant 0 <= i <= |changes|
        invariant rows == ApplyAll(old(rows), changes[..i])
      {
        assert changes[..i + 1][..i] == changes[..i];
        match changes[i] {
          case Append(id, text) => AppendJobLog(id, text);
          case Insert(id) =>
            if id !in rows {
              rows := rows[id := Row(D.Queued, None)];
            }
          case SetState(id, s) =>
            if id in rows {
              rows := rows[id := rows[id].(state := s)];
            }
        }
        i := i + 1;
      }
      assert changes[..i] == changes;
    }

    /** The loop of `job logs --follow` against a schedule of rounds. `printed` is the client's output. */
    method StreamLogs(id: Id, rounds: seq<Round>) returns (printed: seq<byte>, status: Status, n: nat)
      modifies this
      ensures n <= |rounds| && (status == Streaming ==> n == |rounds|)
      ensures World(rows, Client(|printed|, printed, status)) == Run(World(old(rows), FRESH), id, Flatten(rounds[..n]))
      ensures printed <= LogOf(rows, id) && IsUtf8(printed)
    {
      var offset := 0;
      printed, status, n := [], Streaming, 0;
      while n < |rounds| && status == Streaming
        invariant 0 <= n <= |rounds| && offset == |printed|
        invariant World(rows, Client(offset, printed, status)) == Run(World(old(rows), FRESH), id, Flatten(rounds[..n]))
      {
        RunRound(World(old(rows), FRESH), id, rounds, n);
        Elapse(rounds[n].changes);
        if rounds[n].delivered {
          var reply := GetJobLogs(id, offset);
          match reply {
            case NotFound => status := JobMissing;
            case Panicked =>
            case Logs(output, complete, _) =>
              if output != [] {
                printed := printed + output;
                offset := offset + |output|;
              }
              if complete {
                status := Finished;
              }
          }
        }
        n := n + 1;
      }
      StreamingIsLossless(old(rows), id, Flatten(rounds[..n]));
    }
  }
}
