/** The incremental scanner over the client's error stream, for any way the stream is cut into reads. */
module StderrScanner {
  import opened Results
  import opened Bytes

  const NEWLINE: Byte := 10
  const LIMIT := 65536

  datatype Message = Endpoint(line: seq<Byte>) | LimitExceeded | Unavailable

  /** The index of the first newline at or after `from`, or the length. */
  function LineEnd(s: seq<Byte>, from: nat): (end: nat)
    requires from <= |s|
    ensures from <= end <= |s|
    ensures forall i | from <= i < end :: s[i] != NEWLINE
    ensures end < |s| ==> s[end] == NEWLINE
    decreases |s| - from
  {
    if from == |s| || s[from] == NEWLINE then from else LineEnd(s, from + 1)
  }

  /** The first newline-terminated line that `accepts` takes. */
  function FirstAccepted(accepts: seq<Byte> -> bool, s: seq<Byte>): Option<seq<Byte>>
    decreases |s|
  {
    var end := LineEnd(s, 0);
    if end == |s| then None
    else if accepts(s[..end + 1]) then Some(s[..end + 1])
    else FirstAccepted(accepts, s[end + 1..])
  }

  /** What is left of the stream after its last newline. */
  function Unfinished(s: seq<Byte>): seq<Byte>
    decreases |s|
  {
    var end := LineEnd(s, 0);
    if end == |s| then s else Unfinished(s[end + 1..])
  }

  lemma LineEndOfPrefix(s: seq<Byte>, t: seq<Byte>)
    requires LineEnd(s, 0) < |s|
    ensures LineEnd(s + t, 0) == LineEnd(s, 0)
  {
    var e, f := LineEnd(s, 0), LineEnd(s + t, 0);
    assert forall i | 0 <= i <= e :: (s + t)[i] == s[i];
  }

  /** Reading more never changes a line already found. */
  lemma {:induction false} AcceptedStays(accepts: seq<Byte> -> bool, s: seq<Byte>, t: seq<Byte>)
    requires FirstAccepted(accepts, s).Some?
    ensures FirstAccepted(accepts, s + t) == FirstAccepted(accepts, s)
    decreases |s|
  {
    var e := LineEnd(s, 0);
    LineEndOfPrefix(s, t);
    var st := s + t;
    assert st[..e + 1] == s[..e + 1];
    if !accepts(s[..e + 1]) {
      assert st[e + 1..] == s[e + 1..] + t;
      AcceptedStays(accepts, s[e + 1..], t);
    }
  }

  /** While nothing is accepted, only the unfinished rest matters for what comes next. */
  lemma {:induction false} SearchResumes(accepts: seq<Byte> -> bool, s: seq<Byte>, t: seq<Byte>)
    requires FirstAccepted(accepts, s).None?
    ensures FirstAccepted(accepts, s + t) == FirstAccepted(accepts, Unfinished(s) + t)
    ensures Unfinished(s + t) == Unfinished(Unfinished(s) + t)
    decreases |s|
  {
    var e := LineEnd(s, 0);
    if e < |s| {
      LineEndOfPrefix(s, t);
      assert (s + t)[..e + 1] == s[..e + 1];
      assert (s + t)[e + 1..] == s[e + 1..] + t;
      SearchResumes(accepts, s[e + 1..], t);
    }
  }

  function Concat(chunks: seq<seq<Byte>>): seq<Byte> {
    if chunks == [] then [] else Concat(chunks[..|chunks| - 1]) + chunks[|chunks| - 1]
  }

  /** The message for a whole stream within the limit. */
  function Expected(accepts: seq<Byte> -> bool, s: seq<Byte>): Message {
    match FirstAccepted(accepts, s)
    case Some(line) => Endpoint(line)
    case None => Unavailable
  }

  function Found(accepts: seq<Byte> -> bool, s: seq<Byte>): Option<Message> {
    match FirstAccepted(accepts, s)
    case Some(line) => Some(Endpoint(line))
    case None => None
  }

  /** The message after some reads, if any: it depends on the cuts only once the limit is passed. */
  function Verdict(accepts: seq<Byte> -> bool, chunks: seq<seq<Byte>>): Option<Message> {
    if chunks == [] then None
    else
      match Verdict(accepts, chunks[..|chunks| - 1])
      case Some(m) => Some(m)
      case None => if |Concat(chunks)| > LIMIT then Some(LimitExceeded) else Found(accepts, Concat(chunks))
  }

  /** The line that ends at `j`: it starts after the last newline before. */
  ghost predicate LineAt(s: seq<Byte>, i: int, j: int) {
    && 0 <= i <= j < |s| && s[j] == NEWLINE && (i == 0 || s[i - 1] == NEWLINE)
    && forall k | i <= k < j :: s[k] != NEWLINE
  }

  ghost predicate AcceptedAt(accepts: seq<Byte> -> bool, s: seq<Byte>, i: int, j: int) {
    LineAt(s, i, j) && accepts(s[i..j + 1])
  }

  /** What is found is the first accepted line from `from` on, if there is one. */
  ghost predicate FirstFrom(accepts: seq<Byte> -> bool, s: seq<Byte>, from: int, found: Option<seq<Byte>>) {
    match found
    case None => forall i, j | from <= i :: !AcceptedAt(accepts, s, i, j)
    case Some(line) =>
      exists i, j :: && from <= i && AcceptedAt(accepts, s, i, j) && line == s[i..j + 1]
                     && forall a, b | from <= a < i :: !AcceptedAt(accepts, s, a, b)
  }

  lemma FirstFromEarlier(accepts: seq<Byte> -> bool, s: seq<Byte>, from: int, next: int, found: Option<seq<Byte>>)
    requires FirstFrom(accepts, s, next, found) && from <= next
    requires forall a, b | from <= a && AcceptedAt(accepts, s, a, b) :: next <= a
    ensures FirstFrom(accepts, s, from, found)
  {}

  lemma NoLineEnds(accepts: seq<Byte> -> bool, s: seq<Byte>, from: nat)
    requires from <= |s| && LineEnd(s[from..], 0) == |s| - from
    ensures FirstFrom(accepts, s, from, None)
  {
    forall j | from <= j < |s| ensures s[j] != NEWLINE { assert s[from..][j - from] == s[j]; }
  }

  lemma {:induction false} FirstAcceptedFrom(accepts: seq<Byte> -> bool, s: seq<Byte>, from: nat)
    requires from <= |s| && (from == 0 || s[from - 1] == NEWLINE)
    ensures FirstFrom(accepts, s, from, FirstAccepted(accepts, s[from..]))
    decreases |s| - from
  {
    var rest := s[from..];
    var end := LineEnd(rest, 0);
    if end == |rest| {
      NoLineEnds(accepts, s, from);
    } else {
      assert forall k | 0 <= k <= end :: rest[k] == s[from + k];
      assert rest[..end + 1] == s[from..from + end + 1] && rest[end + 1..] == s[from + end + 1..];
      assert LineAt(s, from, from + end);
      if accepts(rest[..end + 1]) {
        assert AcceptedAt(accepts, s, from, from + end);
      } else {
        FirstAcceptedFrom(accepts, s, from + end + 1);
        LaterLines(accepts, s, from, from + end);
        FirstFromEarlier(accepts, s, from, from + end + 1, FirstAccepted(accepts, rest));
      }
    }
  }

  /** If the first line is not accepted, every accepted one comes after it. */
  lemma LaterLines(accepts: seq<Byte> -> bool, s: seq<Byte>, i: int, j: int)
    requires LineAt(s, i, j) && !accepts(s[i..j + 1])
    ensures forall a, b | i <= a && AcceptedAt(accepts, s, a, b) :: j + 1 <= a
  {
    NextLine(s, i, j);
  }

  /** After one line comes the next. */
  lemma NextLine(s: seq<Byte>, i: int, j: int)
    requires LineAt(s, i, j)
    ensures forall a, b | i <= a && LineAt(s, a, b) :: (a == i && b == j) || a > j
  {}

  /** The line found is the first newline-terminated one that is accepted; none is found exactly if there is none. */
  lemma FirstAcceptedIsFirst(accepts: seq<Byte> -> bool, s: seq<Byte>)
    ensures var found := FirstAccepted(accepts, s);
            if found.None? then forall i, j :: !AcceptedAt(accepts, s, i, j)
            else exists i, j :: && AcceptedAt(accepts, s, i, j) && found.value == s[i..j + 1]
                                && forall a, b | a < i :: !AcceptedAt(accepts, s, a, b)
  {
    assert s[0..] == s;
    FirstAcceptedFrom(accepts, s, 0);
  }

  /** Past the limit: the line accepted within it if there was one, and otherwise that the limit is exceeded. */
  lemma {:induction false} LimitIsExact(accepts: seq<Byte> -> bool, chunks: seq<seq<Byte>>)
    requires |Concat(chunks)| > LIMIT
    ensures exists k :: && 0 <= k < |chunks| && |Concat(chunks[..k])| <= LIMIT < |Concat(chunks[..k + 1])|
                        && Verdict(accepts, chunks) ==
                             match FirstAccepted(accepts, Concat(chunks[..k]))
                             case Some(line) => Some(Endpoint(line))
                             case None => Some(LimitExceeded)
  {
    var n := |chunks| - 1;
    var head := chunks[..n];
    assert chunks == head + [chunks[n]] && chunks[..n + 1] == chunks;
    if |Concat(head)| <= LIMIT {
      CutsDoNotMatter(accepts, head);
    } else {
      LimitIsExact(accepts, head);
      var k :| && 0 <= k < |head| && |Concat(head[..k])| <= LIMIT < |Concat(head[..k + 1])|
               && Verdict(accepts, head) == match FirstAccepted(accepts, Concat(head[..k]))
                                            case Some(line) => Some(Endpoint(line)) case None => Some(LimitExceeded);
      assert head[..k] == chunks[..k] && head[..k + 1] == chunks[..k + 1];
    }
  }

  /** Within the limit the verdict is the first accepted line of the stream, however it was cut. */
  lemma {:induction false} CutsDoNotMatter(accepts: seq<Byte> -> bool, chunks: seq<seq<Byte>>)
    requires |Concat(chunks)| <= LIMIT
    ensures Verdict(accepts, chunks) == Found(accepts, Concat(chunks))
  {
    if chunks != [] {
      var head := chunks[..|chunks| - 1];
      CutsDoNotMatter(accepts, head);
      if Verdict(accepts, head).Some? { AcceptedStays(accepts, Concat(head), chunks[|chunks| - 1]); }
    }
  }

  // ----- the startup capture

  /** A read from the channel, or the owner switching the startup capture on anew or off. */
  datatype Event = Read(chunk: seq<Byte>) | Switch(on: bool)

  function Chunks(events: seq<Event>): seq<seq<Byte>> {
    if events == [] then []
    else
      Chunks(events[..|events| - 1])
      + (match events[|events| - 1] case Read(chunk) => [chunk] case Switch(_) => [])
  }

  /** At most the first part of what was read. */
  function Capture(s: seq<Byte>): seq<Byte> {
    s[..if |s| < LIMIT then |s| else LIMIT]
  }

  function Captured(first: Option<seq<Byte>>, events: seq<Event>): Option<seq<Byte>> {
    if events == [] then first
    else
      var before := Captured(first, events[..|events| - 1]);
      match events[|events| - 1]
      case Switch(on) => if on then Some([]) else None
      case Read(chunk) => if before.Some? then Some(Capture(before.value + chunk)) else None
  }

  lemma OneMore(first: Option<seq<Byte>>, events: seq<Event>, i: nat)
    requires i < |events|
    ensures Chunks(events[..i + 1]) ==
              if events[i].Read? then Chunks(events[..i]) + [events[i].chunk] else Chunks(events[..i])
    ensures Captured(first, events[..i + 1]) ==
              match events[i]
              case Switch(on) => if on then Some([]) else None
              case Read(chunk) =>
                var before := Captured(first, events[..i]);
                if before.Some? then Some(Capture(before.value + chunk)) else None
  {
    assert events[..i + 1][..i] == events[..i] && events[..i + 1][i] == events[i];
    assert Chunks(events[..i]) + [] == Chunks(events[..i]);
  }

  predicate ReadsOnly(events: seq<Event>) {
    forall e | e in events :: e.Read?
  }

  /** Since the capture was last switched on it holds the first part of what was read since then. */
  lemma {:induction false} CaptureIsWhatWasRead(first: Option<seq<Byte>>, before: seq<Event>, later: seq<Event>)
    requires ReadsOnly(later) && Captured(first, before) == Some([])
    ensures Captured(first, before + later) == Some(Capture(Concat(Chunks(later))))
    decreases |later|
  {
    if later == [] {
      assert before + later == before;
    } else {
      var less := later[..|later| - 1];
      assert (before + later)[..|before + later| - 1] == before + less;
      assert (before + later)[|before + later| - 1] == later[|later| - 1];
      CaptureIsWhatWasRead(first, before, less);
      var chunks, chunk := Chunks(less), later[|later| - 1].chunk;
      assert Chunks(later) == chunks + [chunk] && (chunks + [chunk])[..|chunks|] == chunks;
      CaptureOnce(Concat(chunks), chunk);
    }
  }

  /** Cutting twice cuts once. */
  lemma CaptureOnce(s: seq<Byte>, chunk: seq<Byte>)
    ensures Capture(Capture(s) + chunk) == Capture(s + chunk)
  {
  }

  class Scanner {
    var pending: seq<Byte>
    var scanned: nat
    var delivered: bool
    var sent: seq<Message>
    var startup: Option<seq<Byte>>

    constructor (capture: bool)
      ensures pending == [] && scanned == 0 && !delivered && sent == []
      ensures startup == if capture then Some([]) else None
    {
      pending, scanned, delivered, sent := [], 0, false, [];
      startup := if capture then Some([]) else None;
    }

    /** The fields after these reads. */
    ghost predicate After(accepts: seq<Byte> -> bool, chunks: seq<seq<Byte>>)
      reads this
    {
      match Verdict(accepts, chunks)
      case Some(m) => delivered && sent == [m]
      case None =>
        && !delivered && sent == []
        && scanned == |Concat(chunks)| <= LIMIT && pending == Unfinished(Concat(chunks))
    }

    /** Pull finished lines off the front until one is accepted. */
    method DrainLines(accepts: seq<Byte> -> bool)
      requires !delivered && sent == []
      modifies this`pending, this`delivered, this`sent
      ensures FirstAccepted(accepts, old(pending)).Some? ==>
                delivered && sent == [Endpoint(FirstAccepted(accepts, old(pending)).value)]
      ensures FirstAccepted(accepts, old(pending)).None? ==>
                !delivered && sent == [] && pending == Unfinished(old(pending))
    {
      while true
        invariant !delivered && sent == []
        invariant FirstAccepted(accepts, pending) == FirstAccepted(accepts, old(pending))
        invariant Unfinished(pending) == Unfinished(old(pending))
        decreases |pending|
      {
        var end := LineEnd(pending, 0);
        if end == |pending| { return; }
        var line := pending[..end + 1];
        pending := pending[end + 1..];
        if accepts(line) {
          sent := sent + [Endpoint(line)];
          delivered := true;
          pending := [];
          return;
        }
      }
    }

    /** The part of a read that still fits is kept while the capture is on. */
    method Keep(chunk: seq<Byte>)
      requires startup.Some? ==> |startup.value| <= LIMIT
      modifies this`startup
      ensures startup == if old(startup).Some? then Some(Capture(old(startup).value + chunk)) else None
    {
      if startup.Some? {
        var room := LIMIT - |startup.value|;
        var keep := if |chunk| < room then |chunk| else room;
        assert startup.value + chunk[..keep] == Capture(startup.value + chunk);
        startup := Some(startup.value + chunk[..keep]);
      }
    }

    /** One read from the channel. */
    method Receive(accepts: seq<Byte> -> bool, ghost before: seq<seq<Byte>>, chunk: seq<Byte>)
      requires After(accepts, before) && (startup.Some? ==> |startup.value| <= LIMIT)
      modifies this
      ensures After(accepts, before + [chunk])
      ensures startup == if old(startup).Some? then Some(Capture(old(startup).value + chunk)) else None
    {
      assert (before + [chunk])[..|before|] == before;
      Keep(chunk);
      if delivered { return; }
      scanned := scanned + |chunk|;
      if scanned > LIMIT {
        sent := sent + [LimitExceeded];
        delivered := true;
        return;
      }
      pending := pending + chunk;
      CutsDoNotMatter(accepts, before);
      SearchResumes(accepts, Concat(before), chunk);
      DrainLines(accepts);
    }

    /** The channel has closed. */
    method Finish()
      modifies this
      ensures sent == if old(delivered) then old(sent) else old(sent) + [Unavailable]
      ensures delivered && startup == old(startup)
    {
      if !delivered {
        sent := sent + [Unavailable];
        delivered := true;
      }
    }
  }

  /**
   * Exactly one message for every stream and every way of cutting it into reads, whatever is done to
   * the startup capture in between. Within the limit it is the first accepted line of the whole
   * stream, or that there is none. The capture holds what was read since it was last switched on.
   */
  method Drain(accepts: seq<Byte> -> bool, capture: bool, events: seq<Event>)
    returns (sent: seq<Message>, startup: Option<seq<Byte>>)
    ensures var verdict := Verdict(accepts, Chunks(events));
            sent == [if verdict.Some? then verdict.value else Unavailable]
    ensures var stream := Concat(Chunks(events));
            |stream| <= LIMIT ==> sent == [Expected(accepts, stream)]
    ensures startup == Captured(if capture then Some([]) else None, events)
  {
    var scanner := new Scanner(capture);
    ghost var first := scanner.startup;
    var i := 0;
    while i < |events|
      invariant 0 <= i <= |events| && fresh(scanner)
      invariant scanner.After(accepts, Chunks(events[..i]))
      invariant scanner.startup == Captured(first, events[..i])
      invariant scanner.startup.Some? ==> |scanner.startup.value| <= LIMIT
    {
      OneMore(first, events, i);
      match events[i] {
        case Read(chunk) => scanner.Receive(accepts, Chunks(events[..i]), chunk);
        case Switch(on) => scanner.startup := if on then Some([]) else None;
      }
      i := i + 1;
    }
    assert events[..i] == events;
    if |Concat(Chunks(events))| <= LIMIT { CutsDoNotMatter(accepts, Chunks(events)); }
    scanner.Finish();
    sent, startup := scanner.sent, scanner.startup;
  }
}
