/**
 Paged reading of a workspace's activity stream. A page scans bounded batches, and following its
 cursors must neither skip nor repeat an entry, also while new activity is appended.
 */
module ActivityPages {
  import opened Results

  /** A stream identifier, as its rank in the stream's (milliseconds, sequence) order. */
  type StreamId = nat

  datatype Row = Row(path: string, prevPath: string, sessionId: string)

  /** A stream message; `row` is absent when the payload is not a listed activity. */
  datatype Message = Message(id: StreamId, row: Option<Row>)

  datatype Entry = Entry(id: StreamId, row: Row)

  type Stream = seq<Message>

  /** A textual bound of a request: absent, a stream identifier, or neither. */
  datatype Bound = Unset | At(id: StreamId) | Malformed

  datatype Request = Request(path: string, sessionId: string, cursor: Bound, since: Bound, until: Bound,
                             newestFirst: bool, limit: int)

  /** A place in the stream, or its edge. */
  datatype Position = Edge | Beyond(id: StreamId)

  /** A page ends the listing when its cursor is the edge. */
  datatype Page = Page(entries: seq<Entry>, nextCursor: Position)

  datatype PageError = LimitOutOfRange | CursorWithBounds | NotAStreamId

  const DEFAULT_LIMIT := 100
  const MAX_LIMIT := 1000
  const BATCH_SIZE := 128
  const MAX_SCANNED := 4096

  // ---- Streams ---------------------------------------------------------------

  function Reversed(stream: Stream): (r: Stream)
    ensures |r| == |stream| && forall i :: 0 <= i < |r| ==> r[i] == stream[|stream| - 1 - i]
  {
    seq(|stream|, i requires 0 <= i < |stream| => stream[|stream| - 1 - i])
  }

  /** The stream in reading direction. */
  function Directed(stream: Stream, newestFirst: bool): Stream {
    if newestFirst then Reversed(stream) else stream
  }

  predicate Ahead(newestFirst: bool, a: StreamId, b: StreamId) {
    if newestFirst then a > b else a < b
  }

  ghost predicate Ordered(view: Stream, newestFirst: bool) {
    || view == []
    || ((forall m :: m in view[1..] ==> Ahead(newestFirst, view[0].id, m.id)) && Ordered(view[1..], newestFirst))
  }

  ghost predicate Increasing(stream: Stream) {
    Ordered(stream, false)
  }

  lemma {:induction false} OrderedAt(view: Stream, newestFirst: bool, i: nat, j: nat)
    requires Ordered(view, newestFirst) && i < j < |view|
    ensures Ahead(newestFirst, view[i].id, view[j].id)
  {
    if i == 0 {
      assert view[j] == view[1..][j - 1];
    } else {
      OrderedAt(view[1..], newestFirst, i - 1, j - 1);
    }
  }

  lemma {:induction false} OrderedSnoc(view: Stream, newestFirst: bool, m: Message)
    requires Ordered(view, newestFirst) && forall x :: x in view ==> Ahead(newestFirst, x.id, m.id)
    ensures Ordered(view + [m], newestFirst)
  {
    if view != [] {
      OrderedSnoc(view[1..], newestFirst, m);
      assert (view + [m])[1..] == view[1..] + [m];
    }
  }

  lemma {:induction false} ReversedIsOrdered(stream: Stream)
    requires Ordered(stream, false)
    ensures Ordered(Reversed(stream), true)
  {
    if stream != [] {
      ReversedIsOrdered(stream[1..]);
      OrderedSnoc(Reversed(stream[1..]), true, stream[0]);
      assert Reversed(stream) == Reversed(stream[1..]) + [stream[0]];
    }
  }

  lemma DirectedIsOrdered(stream: Stream, newestFirst: bool)
    requires Increasing(stream)
    ensures Ordered(Directed(stream, newestFirst), newestFirst)
  {
    ReversedIsOrdered(stream);
  }

  /** Exclusive bounds. */
  predicate InRange(id: StreamId, start: Position, end: Position) {
    (start.Beyond? ==> start.id < id) && (end.Beyond? ==> id < end.id)
  }

  function Between(view: Stream, start: Position, end: Position): Stream {
    if view == [] then []
    else if InRange(view[0].id, start, end) then [view[0]] + Between(view[1..], start, end)
    else Between(view[1..], start, end)
  }

  function Take(view: Stream, count: nat): Stream {
    if |view| <= count then view else view[..count]
  }

  /** The store's bounded range read in either direction. */
  function RangeRead(stream: Stream, start: Position, end: Position, newestFirst: bool, count: nat): Stream {
    Take(Between(Directed(stream, newestFirst), start, end), count)
  }

  // ---- Reading on from a cursor ----------------------------------------------

  lemma Associative<T>(x: T, a: seq<T>, b: seq<T>)
    ensures [x] + (a + b) == ([x] + a) + b
  {
  }

  lemma {:induction false} BetweenConcat(a: Stream, b: Stream, start: Position, end: Position)
    ensures Between(a + b, start, end) == Between(a, start, end) + Between(b, start, end)
  {
    if a == [] {
      assert a + b == b;
    } else {
      BetweenConcat(a[1..], b, start, end);
      assert (a + b)[0] == a[0] && (a + b)[1..] == a[1..] + b;
      Associative(a[0], Between(a[1..], start, end), Between(b, start, end));
    }
  }

  lemma {:induction false} BetweenMembers(view: Stream, start: Position, end: Position)
    ensures forall m :: m in Between(view, start, end) <==> m in view && InRange(m.id, start, end)
  {
    if view != [] {
      BetweenMembers(view[1..], start, end);
      assert forall m :: m in view <==> m == view[0] || m in view[1..];
    }
  }

  lemma {:induction false} BetweenNothing(view: Stream, start: Position, end: Position)
    requires forall i :: 0 <= i < |view| ==> !InRange(view[i].id, start, end)
    ensures Between(view, start, end) == []
  {
    if view != [] {
      BetweenNothing(view[1..], start, end);
    }
  }

  lemma {:induction false} BetweenSame(view: Stream, start: Position, end: Position, start': Position, end': Position)
    requires forall i :: 0 <= i < |view| ==> (InRange(view[i].id, start, end) <==> InRange(view[i].id, start', end'))
    ensures Between(view, start, end) == Between(view, start', end')
  {
    if view != [] {
      BetweenSame(view[1..], start, end, start', end');
    }
  }

  lemma {:induction false} BetweenAll(view: Stream, start: Position, end: Position)
    requires forall i :: 0 <= i < |view| ==> InRange(view[i].id, start, end)
    ensures Between(view, start, end) == view
  {
    if view != [] {
      BetweenAll(view[1..], start, end);
    }
  }

  /** The bounds that read on from a message. */
  function StartFrom(newestFirst: bool, start: Position, id: StreamId): Position {
    if newestFirst then start else Beyond(id)
  }

  function EndFrom(newestFirst: bool, end: Position, id: StreamId): Position {
    if newestFirst then Beyond(id) else end
  }

  /** In an ordered view, what is beyond a later message excludes the first. */
  lemma HeadIsPassed(view: Stream, newestFirst: bool, start: Position, end: Position, m: Message)
    requires view != [] && Ordered(view, newestFirst) && m in Between(view[1..], start, end)
    ensures !InRange(view[0].id, StartFrom(newestFirst, start, m.id), EndFrom(newestFirst, end, m.id))
  {
    BetweenMembers(view[1..], start, end);
  }

  lemma RestIsAhead(view: Stream, newestFirst: bool, start: Position, end: Position)
    requires view != [] && Ordered(view, newestFirst) && InRange(view[0].id, start, end)
    ensures Between(view[1..], StartFrom(newestFirst, start, view[0].id), EndFrom(newestFirst, end, view[0].id)) ==
              Between(view[1..], start, end)
  {
    var start', end' := StartFrom(newestFirst, start, view[0].id), EndFrom(newestFirst, end, view[0].id);
    forall i | 0 <= i < |view[1..]|
      ensures InRange(view[1..][i].id, start, end) <==> InRange(view[1..][i].id, start', end')
    {
      assert view[1..][i] in view[1..];
    }
    BetweenSame(view[1..], start, end, start', end');
  }

  /** Reading again from the last message of a prefix gives exactly the rest. */
  lemma {:induction false} ReadOn(view: Stream, newestFirst: bool, start: Position, end: Position, q: Stream, k: nat)
    requires Ordered(view, newestFirst) && q == Between(view, start, end) && 0 < k <= |q|
    ensures Between(view, StartFrom(newestFirst, start, q[k - 1].id), EndFrom(newestFirst, end, q[k - 1].id)) == q[k..]
  {
    var rest := Between(view[1..], start, end);
    if !InRange(view[0].id, start, end) {
      assert q == rest;
      ReadOn(view[1..], newestFirst, start, end, rest, k);
      HeadIsPassed(view, newestFirst, start, end, q[k - 1]);
    } else if k > 1 {
      assert q == [view[0]] + rest;
      ReadOn(view[1..], newestFirst, start, end, rest, k - 1);
      HeadIsPassed(view, newestFirst, start, end, rest[k - 2]);
    } else {
      assert q == [view[0]] + rest;
      RestIsAhead(view, newestFirst, start, end);
    }
  }

  // ---- Matching ----------------------------------------------------------------

  predicate Matches(request: Request, message: Message) {
    && message.row.Some?
    && (request.path == "" || message.row.value.path == request.path || message.row.value.prevPath == request.path)
    && (request.sessionId == "" || message.row.value.sessionId == request.sessionId)
  }

  function Listed(request: Request, message: Message): seq<Entry> {
    if Matches(request, message) then [Entry(message.id, message.row.value)] else []
  }

  /** What a reader who saw every message would list. */
  function Matching(request: Request, view: Stream): seq<Entry> {
    if view == [] then [] else Listed(request, view[0]) + Matching(request, view[1..])
  }

  /** What a request asks for: activity of its path, or renamed from it, and of its session. */
  predicate Asks(request: Request, row: Row) {
    request.path in {"", row.path, row.prevPath} && request.sessionId in {"", row.sessionId}
  }

  /** The entries are the rows that are asked for, and no others, in reading order, none twice. */
  ghost predicate ListsExactly(request: Request, stream: Stream, entries: seq<Entry>) {
    && (forall e :: e in entries <==> Message(e.id, Some(e.row)) in stream && Asks(request, e.row))
    && (forall i, j :: 0 <= i < j < |entries| ==>
          if request.newestFirst then entries[i].id > entries[j].id else entries[i].id < entries[j].id)
  }

  lemma {:induction false} MatchingIsAsked(request: Request, view: Stream, e: Entry)
    ensures e in Matching(request, view) <==> Message(e.id, Some(e.row)) in view && Asks(request, e.row)
  {
    if view != [] {
      MatchingIsAsked(request, view[1..], e);
      assert Message(e.id, Some(e.row)) in view <==>
             Message(e.id, Some(e.row)) == view[0] || Message(e.id, Some(e.row)) in view[1..];
    }
  }

  lemma {:induction false} MatchingIsOrdered(request: Request, view: Stream, i: nat, j: nat)
    requires Ordered(view, request.newestFirst) && i < j < |Matching(request, view)|
    ensures Ahead(request.newestFirst, Matching(request, view)[i].id, Matching(request, view)[j].id)
  {
    var first, rest := Listed(request, view[0]), Matching(request, view[1..]);
    assert Matching(request, view) == first + rest;
    if i >= |first| {
      MatchingIsOrdered(request, view[1..], i - |first|, j - |first|);
    } else {
      var e := rest[j - |first|];
      assert e in rest;
      MatchingIsAsked(request, view[1..], e);
      assert Message(e.id, Some(e.row)) in view[1..];
    }
  }

  lemma MatchingListsExactly(request: Request, stream: Stream)
    requires Increasing(stream)
    ensures ListsExactly(request, stream, Matching(request, Directed(stream, request.newestFirst)))
  {
    var view := Directed(stream, request.newestFirst);
    DirectedIsOrdered(stream, request.newestFirst);
    forall e ensures e in Matching(request, view) <==> Message(e.id, Some(e.row)) in stream && Asks(request, e.row) {
      MatchingIsAsked(request, view, e);
      DirectedHolds(stream, request.newestFirst, Message(e.id, Some(e.row)));
    }
    forall i, j | 0 <= i < j < |Matching(request, view)|
      ensures Ahead(request.newestFirst, Matching(request, view)[i].id, Matching(request, view)[j].id)
    {
      MatchingIsOrdered(request, view, i, j);
    }
  }

  lemma DirectedHolds(stream: Stream, newestFirst: bool, m: Message)
    ensures m in Directed(stream, newestFirst) <==> m in stream
  {
    if newestFirst && m in stream {
      var i :| 0 <= i < |stream| && stream[i] == m;
      assert Reversed(stream)[|stream| - 1 - i] == m;
    }
  }

  lemma {:induction false} MatchingConcat(request: Request, a: Stream, b: Stream)
    ensures Matching(request, a + b) == Matching(request, a) + Matching(request, b)
  {
    if a == [] {
      assert a + b == b;
    } else {
      assert (a + b)[1..] == a[1..] + b;
      MatchingConcat(request, a[1..], b);
    }
  }

  lemma MatchingSnoc(request: Request, view: Stream, k: nat)
    requires k < |view|
    ensures Matching(request, view[..k + 1]) == Matching(request, view[..k]) + Listed(request, view[k])
  {
    assert view[..k + 1] == view[..k] + [view[k]];
    MatchingConcat(request, view[..k], [view[k]]);
    assert [view[k]][1..] == [];
  }

  // ---- One page ------------------------------------------------------------------

  function Limit(request: Request): int {
    if request.limit == 0 then DEFAULT_LIMIT else request.limit
  }

  function Start(request: Request): Position {
    if request.cursor.At? && !request.newestFirst then Beyond(request.cursor.id)
    else if request.since.At? then Beyond(request.since.id) else Edge
  }

  function End(request: Request): Position {
    if request.cursor.At? && request.newestFirst then Beyond(request.cursor.id)
    else if request.until.At? then Beyond(request.until.id) else Edge
  }

  /** What the request leaves to read, in reading direction. */
  function Remaining(stream: Stream, request: Request): Stream {
    Between(Directed(stream, request.newestFirst), Start(request), End(request))
  }

  /** A page lists the matches among the first `k` remaining messages. It ends the listing only when
      nothing remains, and otherwise is full or has spent its scan budget. */
  ghost predicate PageOf(request: Request, remaining: Stream, page: Page, k: nat) {
    && k <= |remaining| && k <= MAX_SCANNED
    && page.entries == Matching(request, remaining[..k]) && |page.entries| <= Limit(request)
    && (page.nextCursor.Edge? ==> k == |remaining|)
    && (page.nextCursor.Beyond? ==> 0 < k && page.nextCursor.id == remaining[k - 1].id)
    && (page.nextCursor.Beyond? ==> |page.entries| == Limit(request) || k == MAX_SCANNED)
  }

  predicate Refused(request: Request) {
    || Limit(request) < 1 || Limit(request) > MAX_LIMIT
    || (!request.cursor.Unset? && !(request.since.Unset? && request.until.Unset?))
    || request.cursor.Malformed? || request.since.Malformed? || request.until.Malformed?
  }

  method GetFileHistoryChanges(stream: Stream, request: Request) returns (r: Result<Page, PageError>, ghost k: nat)
    requires Increasing(stream)
    ensures r.Err? <==> Refused(request)
    ensures r.Ok? ==> PageOf(request, Remaining(stream, request), r.value, k)
  {
    k := 0;
    var limit := if request.limit == 0 then DEFAULT_LIMIT else request.limit;
    if limit < 1 || limit > MAX_LIMIT {
      return Err(LimitOutOfRange), k;
    }
    var since, until := request.since, request.until;
    if !request.cursor.Unset? {
      if !since.Unset? || !until.Unset? {
        return Err(CursorWithBounds), k;
      }
      if request.newestFirst {
        until := request.cursor;
      } else {
        since := request.cursor;
      }
    }
    if since.Malformed? || until.Malformed? {
      return Err(NotAStreamId), k;
    }
    var start: Position, end: Position := Edge, Edge;
    if since.At? {
      start := Beyond(since.id);
    }
    if until.At? {
      end := Beyond(until.id);
    }
    var page;
    ghost var remaining := Remaining(stream, request);
    ghost var resumes := (from: Position, to: Position, k: nat) =>
      Resumes(stream, request.newestFirst, from, to, remaining, k);
    assert resumes(start, end, 0);
    page, k := ScanPage(stream, request, start, end, remaining, resumes);
    return Ok(page), k;
  }

  method ScanPage(stream: Stream, request: Request, start0: Position, end0: Position, ghost remaining: Stream,
                  ghost resumes: Resumption)
    returns (page: Page, ghost k: nat)
    requires Increasing(stream) && Limit(request) >= 1
    requires Tracks(stream, request.newestFirst, remaining, resumes) && resumes(start0, end0, 0)
    ensures PageOf(request, remaining, page, k)
  {
    var start, end := start0, end0;
    var entries: seq<Entry>, nextCursor: Position := [], Edge;
    var scanned, done := 0, false;
    ghost var batches := 0;
    k := 0;
    while scanned < MAX_SCANNED
      invariant scanned == k == 128 * batches && batches <= 32
      invariant resumes(start, end, k)
      invariant Scanned(request, remaining, k, entries, nextCursor) && |entries| < Limit(request)
    {
      assert batches < 32;
      entries, nextCursor, start, end, done, k :=
        NextBatch(stream, request, start, end, remaining, resumes, k, entries, nextCursor);
      if done {
        return Page(entries, nextCursor), k;
      }
      scanned := scanned + BATCH_SIZE;
      batches := batches + 1;
    }
    return Page(entries, nextCursor), k;
  }

  ghost predicate Scanned(request: Request, remaining: Stream, k: nat, entries: seq<Entry>, nextCursor: Position) {
    && k <= |remaining| && entries == Matching(request, remaining[..k])
    && nextCursor == if k == 0 then Edge else Beyond(remaining[k - 1].id)
  }

  /** Reads and scans one batch; unless the page is done, the bounds then read on after it. */
  method NextBatch(stream: Stream, request: Request, start0: Position, end0: Position, ghost remaining: Stream,
                   ghost resumes: Resumption, ghost from: nat, entries0: seq<Entry>, cursor0: Position)
    returns (entries: seq<Entry>, nextCursor: Position, start: Position, end: Position, done: bool, ghost k: nat)
    requires Increasing(stream) && Tracks(stream, request.newestFirst, remaining, resumes)
    requires resumes(start0, end0, from)
    requires Scanned(request, remaining, from, entries0, cursor0) && |entries0| < Limit(request)
    ensures k <= |remaining| && k <= from + BATCH_SIZE && entries == Matching(request, remaining[..k])
    ensures |entries| <= Limit(request)
    ensures !done ==>
              && k == from + BATCH_SIZE && |entries| < Limit(request)
              && Scanned(request, remaining, k, entries, nextCursor)
    ensures !done ==> resumes(start, end, k)
    ensures done && nextCursor.Edge? ==> k == |remaining|
    ensures done && nextCursor.Beyond? ==> k > 0 && nextCursor.id == remaining[k - 1].id && |entries| == Limit(request)
  {
    start, end := start0, end0;
    var messages := ReadBatch(stream, request.newestFirst, start, end, remaining, resumes, from);
    var full;
    entries, nextCursor, full, k := ScanBatch(request, remaining, from, messages, entries0, cursor0);
    if full {
      done := true;
      return;
    }
    if |messages| < BATCH_SIZE {
      nextCursor, done := Edge, true;
      return;
    }
    done := false;
    BatchRead(stream, request.newestFirst, start, end, remaining, resumes, from);
    if request.newestFirst {
      end := nextCursor;
    } else {
      start := nextCursor;
    }
  }

  /** The bounds read on after the first `k` of the remaining messages. */
  ghost predicate Resumes(stream: Stream, newestFirst: bool, start: Position, end: Position, remaining: Stream,
                          k: nat) {
    k <= |remaining| && Between(Directed(stream, newestFirst), start, end) == remaining[k..]
  }

  type Resumption = (Position, Position, nat) -> bool

  ghost predicate Tracks(stream: Stream, newestFirst: bool, remaining: Stream, resumes: Resumption) {
    forall start, end, k: nat {:trigger Resumes(stream, newestFirst, start, end, remaining, k)} ::
      resumes(start, end, k) <==> Resumes(stream, newestFirst, start, end, remaining, k)
  }

  method ReadBatch(stream: Stream, newestFirst: bool, start: Position, end: Position, ghost remaining: Stream,
                   ghost resumes: Resumption, ghost from: nat)
    returns (messages: Stream)
    requires Tracks(stream, newestFirst, remaining, resumes) && resumes(start, end, from)
    ensures from <= |remaining| && messages == Take(remaining[from..], BATCH_SIZE)
  {
    assert Resumes(stream, newestFirst, start, end, remaining, from);
    messages := RangeRead(stream, start, end, newestFirst, BATCH_SIZE);
  }

  lemma BatchRead(stream: Stream, newestFirst: bool, start: Position, end: Position, remaining: Stream,
                  resumes: Resumption, from: nat)
    requires Increasing(stream) && Tracks(stream, newestFirst, remaining, resumes)
    requires from + BATCH_SIZE <= |remaining| && resumes(start, end, from)
    ensures var last := remaining[from + BATCH_SIZE - 1].id;
            resumes(StartFrom(newestFirst, start, last), EndFrom(newestFirst, end, last), from + BATCH_SIZE)
  {
    var last := remaining[from + BATCH_SIZE - 1].id;
    assert Resumes(stream, newestFirst, start, end, remaining, from);
    DirectedIsOrdered(stream, newestFirst);
    ReadOn(Directed(stream, newestFirst), newestFirst, start, end, remaining[from..], BATCH_SIZE);
    assert remaining[from..][BATCH_SIZE..] == remaining[from + BATCH_SIZE..];
    assert Resumes(stream, newestFirst, StartFrom(newestFirst, start, last), EndFrom(newestFirst, end, last),
                   remaining, from + BATCH_SIZE);
  }

  /** Scans one batch, stopping when the page is full. */
  method ScanBatch(request: Request, ghost remaining: Stream, ghost from: nat, messages: Stream, entries0: seq<Entry>,
                   cursor0: Position)
    returns (entries: seq<Entry>, nextCursor: Position, full: bool, ghost k: nat)
    requires from <= |remaining| && messages == Take(remaining[from..], BATCH_SIZE)
    requires entries0 == Matching(request, remaining[..from]) && |entries0| < Limit(request)
    ensures from <= k <= from + |messages| <= |remaining| && entries == Matching(request, remaining[..k])
    ensures if full then |entries| == Limit(request) && k > from
            else |entries| < Limit(request) && k == from + |messages|
    ensures !full ==> nextCursor == if messages == [] then cursor0 else Beyond(remaining[k - 1].id)
    ensures full ==>
              nextCursor == if k == |remaining| && |messages| < BATCH_SIZE then Edge else Beyond(remaining[k - 1].id)
  {
    entries, nextCursor, full, k := entries0, cursor0, false, from;
    var index := 0;
    while index < |messages|
      invariant 0 <= index <= |messages| && k == from + index && !full
      invariant entries == Matching(request, remaining[..k]) && |entries| < Limit(request)
      invariant nextCursor == if index == 0 then cursor0 else Beyond(remaining[k - 1].id)
    {
      var message := messages[index];
      assert message == remaining[k];
      MatchingSnoc(request, remaining, k);
      nextCursor := Beyond(message.id);
      if Matches(request, message) {
        entries := entries + [Entry(message.id, message.row.value)];
      }
      k := k + 1;
      if |entries| == Limit(request) {
        if index == |messages| - 1 && |messages| < BATCH_SIZE {
          nextCursor := Edge;
        }
        full := true;
        return;
      }
      index := index + 1;
    }
  }

  // ---- Following cursors -----------------------------------------------------------

  /** One page of a listing: the stream as it was read, the limit asked for, and the answer. */
  datatype Visit = Visit(stream: Stream, limit: int, page: Page)

  function Asking(request: Request, limit: int, cursor: Position): Request {
    request.(limit := limit, cursor := if cursor.Beyond? then At(cursor.id) else Unset)
  }

  ghost predicate Answers(request: Request, cursor: Position, visit: Visit) {
    var asked := Asking(request, visit.limit, cursor);
    exists k :: PageOf(asked, Remaining(visit.stream, asked), visit.page, k)
  }

  /** Every page continues from the previous page's cursor, on the stream as it has grown since; only
      the last page, read from `last`, carries no cursor. */
  ghost predicate Listing(request: Request, cursor: Position, visits: seq<Visit>, last: Stream)
    decreases |visits|
  {
    && visits != [] && Answers(request, cursor, visits[0])
    && Increasing(visits[0].stream) && Increasing(last) && visits[0].stream <= last
    && (if |visits| == 1 then visits[0].page.nextCursor.Edge? && visits[0].stream == last
        else && visits[0].page.nextCursor.Beyond? && visits[0].stream <= visits[1].stream
             && Listing(request, visits[0].page.nextCursor, visits[1..], last))
  }

  function Entries(visits: seq<Visit>): seq<Entry> {
    if visits == [] then [] else visits[0].page.entries + Entries(visits[1..])
  }

  ghost predicate Unbounded(request: Request) {
    request.cursor.Unset? && request.since.Unset? && request.until.Unset?
  }

  function After(stream: Stream, request: Request, cursor: Position): Stream {
    Remaining(stream, Asking(request, 1, cursor))
  }

  lemma {:induction false} MatchingIgnoresLimit(request: Request, limit: int, cursor: Position, view: Stream)
    ensures Matching(Asking(request, limit, cursor), view) == Matching(request, view)
  {
    if view != [] {
      MatchingIgnoresLimit(request, limit, cursor, view[1..]);
    }
  }

  lemma SplitMatching(request: Request, view: Stream, k: nat)
    requires k <= |view|
    ensures Matching(request, view) == Matching(request, view[..k]) + Matching(request, view[k..])
  {
    assert view == view[..k] + view[k..];
    MatchingConcat(request, view[..k], view[k..]);
  }

  /** What was left to read is a prefix of what is left now, oldest first. */
  lemma EarlierIsPrefix(request: Request, cursor: Position, earlier: Stream, later: Stream)
    requires earlier <= later && (request.newestFirst ==> earlier == later)
    ensures After(earlier, request, cursor) <= After(later, request, cursor)
  {
    if !request.newestFirst {
      var asked := Asking(request, 1, cursor);
      assert later == earlier + later[|earlier|..];
      BetweenConcat(earlier, later[|earlier|..], Start(asked), End(asked));
    }
  }

  lemma ContinuesAt(request: Request, cursor: Position, stream: Stream, k: nat)
    requires Unbounded(request) && Increasing(stream) && 0 < k <= |After(stream, request, cursor)|
    ensures var q := After(stream, request, cursor);
            After(stream, request, Beyond(q[k - 1].id)) == q[k..] && q[k - 1] in stream
  {
    var asked := Asking(request, 1, cursor);
    var view := Directed(stream, request.newestFirst);
    DirectedIsOrdered(stream, request.newestFirst);
    ReadOn(view, request.newestFirst, Start(asked), End(asked), After(stream, request, cursor), k);
    BetweenMembers(view, Start(asked), End(asked));
    assert After(stream, request, cursor)[k - 1] in view;
  }

  lemma ListedFirst(request: Request, limit: int, cursor: Position, seen: Stream, all: Stream, page: Page, k: nat)
    requires seen <= all && PageOf(Asking(request, limit, cursor), seen, page, k)
    ensures Matching(request, all) == page.entries + Matching(request, all[k..])
    ensures page.nextCursor.Beyond? ==> page.nextCursor.id == all[k - 1].id
  {
    assert seen[..k] == all[..k];
    MatchingIgnoresLimit(request, limit, cursor, all[..k]);
    SplitMatching(request, all, k);
  }

  /** A page together with what follows its cursor is what the page was asked for. */
  lemma PageSplits(request: Request, cursor: Position, visit: Visit, stream: Stream)
    requires Unbounded(request) && Increasing(stream) && Answers(request, cursor, visit)
    requires visit.stream <= stream && (request.newestFirst ==> visit.stream == stream)
    requires visit.page.nextCursor.Beyond?
    ensures Matching(request, After(stream, request, cursor))
         == visit.page.entries + Matching(request, After(stream, request, visit.page.nextCursor))
    ensures |After(stream, request, visit.page.nextCursor)| < |After(stream, request, cursor)|
    ensures exists m :: m in stream && m.id == visit.page.nextCursor.id
  {
    var asked := Asking(request, visit.limit, cursor);
    var q0 := Remaining(visit.stream, asked);
    assert q0 == After(visit.stream, request, cursor);
    var k: nat :| PageOf(asked, q0, visit.page, k);
    EarlierIsPrefix(request, cursor, visit.stream, stream);
    ListedFirst(request, visit.limit, cursor, q0, After(stream, request, cursor), visit.page, k);
    ContinuesAt(request, cursor, stream, k);
  }

  /** Activity appended later is never behind a newest-first cursor. */
  lemma LaterIsNotOlder(request: Request, earlier: Stream, later: Stream, cursor: StreamId)
    requires Unbounded(request) && request.newestFirst && Increasing(later) && earlier <= later
    requires exists m :: m in earlier && m.id == cursor
    ensures After(later, request, Beyond(cursor)) == After(earlier, request, Beyond(cursor))
  {
    var added := later[|earlier|..];
    var asked := Asking(request, 1, Beyond(cursor));
    assert Reversed(later) == Reversed(added) + Reversed(earlier);
    BetweenConcat(Reversed(added), Reversed(earlier), Start(asked), End(asked));
    var m :| m in earlier && m.id == cursor;
    var at :| 0 <= at < |earlier| && earlier[at] == m;
    forall i | 0 <= i < |added| ensures !InRange(Reversed(added)[i].id, Start(asked), End(asked)) {
      OrderedAt(later, false, at, |earlier| + |added| - 1 - i);
    }
    BetweenNothing(Reversed(added), Start(asked), End(asked));
  }

  lemma LastPage(request: Request, cursor: Position, visit: Visit)
    requires Answers(request, cursor, visit) && visit.page.nextCursor.Edge?
    ensures visit.page.entries == Matching(request, After(visit.stream, request, cursor))
  {
    var asked := Asking(request, visit.limit, cursor);
    var k: nat :| PageOf(asked, Remaining(visit.stream, asked), visit.page, k);
    assert Remaining(visit.stream, asked)[..k] == Remaining(visit.stream, asked);
    MatchingIgnoresLimit(request, visit.limit, cursor, Remaining(visit.stream, asked));
  }

  /** Oldest first, a listing has every match beyond the cursor once, in order, including the activity
      appended while it was being read. */
  lemma {:induction false} ForwardListing(request: Request, cursor: Position, visits: seq<Visit>, last: Stream)
    requires Unbounded(request) && !request.newestFirst && Listing(request, cursor, visits, last)
    ensures Entries(visits) == Matching(request, After(last, request, cursor))
    ensures |visits| <= |After(last, request, cursor)| + 1
    decreases |visits|
  {
    var visit, rest := visits[0], visits[1..];
    assert Entries(visits) == visit.page.entries + Entries(rest);
    if rest == [] {
      LastPage(request, cursor, visit);
    } else {
      ForwardListing(request, visit.page.nextCursor, rest, last);
      PageSplits(request, cursor, visit, last);
    }
  }

  /** Newest first, a listing has every match that was older than the cursor when it began, once, in
      order, whatever is appended meanwhile. */
  lemma {:induction false} NewestFirstListing(request: Request, cursor: Position, visits: seq<Visit>, last: Stream)
    requires Unbounded(request) && request.newestFirst && Listing(request, cursor, visits, last)
    ensures Entries(visits) == Matching(request, After(visits[0].stream, request, cursor))
    ensures |visits| <= |After(visits[0].stream, request, cursor)| + 1
    decreases |visits|
  {
    var visit, rest := visits[0], visits[1..];
    assert Entries(visits) == visit.page.entries + Entries(rest);
    if rest == [] {
      LastPage(request, cursor, visit);
    } else {
      NewestFirstListing(request, visit.page.nextCursor, rest, last);
      PageSplits(request, cursor, visit, visit.stream);
      LaterIsNotOlder(request, visit.stream, rest[0].stream, visit.page.nextCursor.id);
    }
  }

  lemma {:induction false} AfterNothing(stream: Stream, request: Request)
    requires Unbounded(request)
    ensures After(stream, request, Edge) == Directed(stream, request.newestFirst)
  {
    BetweenAll(Directed(stream, request.newestFirst), Edge, Edge);
  }

  /** Following cursors from the first page lists the whole activity: the stream as last read, oldest
      first, or as first read, newest first. */
  lemma ListingIsComplete(request: Request, visits: seq<Visit>, last: Stream)
    requires Unbounded(request) && Listing(request, Edge, visits, last)
    ensures var stream := if request.newestFirst then visits[0].stream else last;
            Entries(visits) == Matching(request, Directed(stream, request.newestFirst)) && |visits| <= |stream| + 1
  {
    if request.newestFirst {
      NewestFirstListing(request, Edge, visits, last);
      AfterNothing(visits[0].stream, request);
    } else {
      ForwardListing(request, Edge, visits, last);
      AfterNothing(last, request);
    }
  }

  // ---- The reader ------------------------------------------------------------------

  /** Follows cursors to the end. Before each further page one of `appends` arrives; once no more
      arrive, every page leaves less to read, so the reader stops. */
  method FollowCursors(stream: Stream, appends: seq<Stream>, request: Request, cursor: Position)
    returns (entries: seq<Entry>, pages: nat, ghost visits: seq<Visit>, ghost last: Stream)
    requires Unbounded(request) && 1 <= Limit(request) <= MAX_LIMIT && Increasing(stream + Joined(appends))
    ensures Listing(request, cursor, visits, last) && entries == Entries(visits) && pages == |visits|
    ensures visits[0].stream == stream && last <= stream + Joined(appends)
    decreases |appends|, |After(stream, request, cursor)|
  {
    IncreasingPrefix(stream, Joined(appends));
    var r, k := GetFileHistoryChanges(stream, Asking(request, request.limit, cursor));
    var page := r.value;
    ghost var visit := Visit(stream, request.limit, page);
    assert Answers(request, cursor, visit);
    if page.nextCursor.Edge? {
      assert Entries([visit]) == page.entries;
      return page.entries, 1, [visit], stream;
    }
    PageSplits(request, cursor, visit, stream);
    var grown, later := stream, appends;
    if appends != [] {
      grown, later := stream + appends[0], appends[1..];
      assert grown + Joined(later) == stream + Joined(appends);
    }
    var rest, count;
    ghost var visits';
    rest, count, visits', last := FollowCursors(grown, later, request, page.nextCursor);
    entries, pages, visits := page.entries + rest, count + 1, [visit] + visits';
    ListingCons(request, cursor, visit, visits', last);
  }

  /** The whole activity, page by page: oldest first it has what was appended while it was read, newest
      first what there was when it began; every match once, in order, in at most one page per message
      and one more. */
  method ListActivity(stream: Stream, appends: seq<Stream>, request: Request)
    returns (r: Result<seq<Entry>, PageError>, pages: nat, ghost last: Stream)
    requires Unbounded(request) && Increasing(stream + Joined(appends))
    ensures r.Err? <==> Refused(request)
    ensures stream <= last <= stream + Joined(appends)
    ensures r.Ok? ==>
              var listed := if request.newestFirst then stream else last;
              r.value == Matching(request, Directed(listed, request.newestFirst)) && 1 <= pages <= |listed| + 1
    ensures r.Ok? ==> ListsExactly(request, if request.newestFirst then stream else last, r.value)
  {
    pages, last := 0, stream;
    if Limit(request) < 1 || Limit(request) > MAX_LIMIT {
      return Err(LimitOutOfRange), pages, last;
    }
    var entries;
    ghost var visits;
    entries, pages, visits, last := FollowCursors(stream, appends, request, Edge);
    ListingIsComplete(request, visits, last);
    ReadIsIncreasing(stream, last, stream + Joined(appends));
    MatchingListsExactly(request, if request.newestFirst then stream else last);
    return Ok(entries), pages, last;
  }

  function Joined(appends: seq<Stream>): Stream {
    if appends == [] then [] else appends[0] + Joined(appends[1..])
  }

  lemma {:induction false} IncreasingPrefix(a: Stream, b: Stream)
    requires Increasing(a + b)
    ensures Increasing(a)
  {
    if a != [] {
      assert (a + b)[1..] == a[1..] + b;
      IncreasingPrefix(a[1..], b);
      forall m | m in a[1..] ensures Ahead(false, a[0].id, m.id) {
        assert m in (a + b)[1..];
      }
    }
  }

  lemma ReadIsIncreasing(stream: Stream, last: Stream, all: Stream)
    requires stream <= last <= all && Increasing(all)
    ensures Increasing(stream) && Increasing(last)
  {
    assert all == last + all[|last|..] && all == stream + all[|stream|..];
    IncreasingPrefix(last, all[|last|..]);
    IncreasingPrefix(stream, all[|stream|..]);
  }

  lemma ListingCons(request: Request, cursor: Position, visit: Visit, rest: seq<Visit>, last: Stream)
    requires Answers(request, cursor, visit) && Increasing(visit.stream) && visit.page.nextCursor.Beyond?
    requires Listing(request, visit.page.nextCursor, rest, last) && visit.stream <= rest[0].stream
    ensures Listing(request, cursor, [visit] + rest, last)
    ensures Entries([visit] + rest) == visit.page.entries + Entries(rest)
  {
    assert ([visit] + rest)[1..] == rest;
    assert rest[0].stream <= last;
  }
}
