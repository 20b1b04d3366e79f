/** The guest agent transport: finding the first answer that belongs to us in a stream that
    may begin with anything, however the stream is cut into pieces. */
module Qga {
  import opened Bytes

  const DELIMITER: byte := 255
  const NEWLINE: byte := 10
  const LIMIT := 8 * 1024 * 1024

  /** Reading byte by byte: outside a delimited line, inside one, or past the answer. */
  datatype Sync = Idle | Open(line: Bytes) | Done(rest: Bytes)

  function StepByte(s: Sync, b: byte, matches: Bytes -> bool): Sync {
    match s
    case Idle => if b == DELIMITER then Open([]) else Idle
    case Open(line) =>
      if b == DELIMITER then Open([])
      else if b == NEWLINE then if matches(line) then Done([]) else Idle
      else Open(line + [b])
    case Done(rest) => Done(rest + [b])
  }

  /** The reference reader. */
  function Scan(s: Sync, stream: Bytes, matches: Bytes -> bool): Sync {
    if stream == [] then s
    else StepByte(Scan(s, stream[..|stream| - 1], matches), stream[|stream| - 1], matches)
  }

  // ---- what the reference reader finds ----

  /** `stream[i..n]` is a delimiter, a line that is the answer, and its newline. */
  ghost predicate Delimited(stream: Bytes, i: nat, n: nat, matches: Bytes -> bool) {
    && i + 1 < n <= |stream|
    && stream[i] == DELIMITER && stream[n - 1] == NEWLINE
    && Plain(stream[i + 1..n - 1]) && matches(stream[i + 1..n - 1])
  }

  predicate Plain(line: Bytes) {
    DELIMITER !in line && NEWLINE !in line
  }

  ghost predicate Answered(stream: Bytes, n: nat, matches: Bytes -> bool) {
    exists i: nat :: Delimited(stream, i, n, matches)
  }

  /** Being inside a line means that the stream so far ends in a delimiter and that line. */
  ghost predicate Explains(s: Sync, stream: Bytes, matches: Bytes -> bool) {
    match s
    case Idle =>
      && (forall i: nat, n: nat :: !Delimited(stream, i, n, matches))
      && (forall i: nat :: i < |stream| && stream[i] == DELIMITER ==> NEWLINE in stream[i + 1..])
    case Open(line) =>
      && (forall i: nat, n: nat :: !Delimited(stream, i, n, matches))
      && |line| < |stream| && Plain(line)
      && stream[|stream| - |line| - 1] == DELIMITER && stream[|stream| - |line|..] == line
    case Done(rest) =>
      && |rest| <= |stream| && stream[|stream| - |rest|..] == rest
      && Answered(stream, |stream| - |rest|, matches)
      && (forall i: nat, n: nat :: Delimited(stream, i, n, matches) ==> |stream| - |rest| <= n)
  }

  lemma DelimitedGrows(stream: Bytes, b: byte, matches: Bytes -> bool)
    ensures forall i: nat, n: nat :: n <= |stream| ==>
              (Delimited(stream + [b], i, n, matches) <==> Delimited(stream, i, n, matches))
  {
    forall i: nat, n: nat | n <= |stream|
      ensures Delimited(stream + [b], i, n, matches) <==> Delimited(stream, i, n, matches)
    {
      assert i + 1 < n ==> (stream + [b])[i + 1..n - 1] == stream[i + 1..n - 1];
    }
  }

  lemma ExplainsIdle(stream: Bytes, b: byte, matches: Bytes -> bool)
    requires Explains(Idle, stream, matches)
    ensures Explains(StepByte(Idle, b, matches), stream + [b], matches)
  {
    var more := stream + [b];
    DelimitedGrows(stream, b, matches);
    forall i: nat | i < |stream| && stream[i] == DELIMITER
      ensures NEWLINE in more[i + 1..] && NEWLINE in more[i + 1..|more| - 1]
    {
      assert more[i + 1..|more| - 1] == stream[i + 1..];
      assert more[i + 1..] == stream[i + 1..] + [b];
    }
  }

  lemma ExplainsOpen(line: Bytes, stream: Bytes, b: byte, matches: Bytes -> bool)
    requires Explains(Open(line), stream, matches)
    ensures Explains(StepByte(Open(line), b, matches), stream + [b], matches)
  {
    var more := stream + [b];
    DelimitedGrows(stream, b, matches);
    var start := |stream| - |line| - 1;
    assert more[start + 1..|more| - 1] == line;
    forall i: nat, n: nat | Delimited(more, i, n, matches)
      ensures n == |more| && i == start && b == NEWLINE && matches(line)
    {
      OnlyStart(line, stream, b, i, start);
    }
    if b == NEWLINE && matches(line) {
      assert Delimited(more, start, |more|, matches);
    } else if b == NEWLINE {
      forall i: nat | i < |more| && more[i] == DELIMITER
        ensures NEWLINE in more[i + 1..]
      {
        assert more[i + 1..][|more| - i - 2] == NEWLINE;
      }
    } else if b != DELIMITER {
      assert more[start + 1..] == line + [b];
    }
  }

  /** Only the last delimiter can begin a plain line that reaches to the end. */
  lemma OnlyStart(line: Bytes, stream: Bytes, b: byte, i: nat, start: nat)
    requires |line| < |stream| && start == |stream| - |line| - 1 && Plain(line)
    requires stream[start] == DELIMITER && stream[start + 1..] == line
    requires i < |stream| && stream[i] == DELIMITER && Plain((stream + [b])[i + 1..|stream|])
    ensures i == start
  {
  }

  lemma ExplainsStep(s: Sync, stream: Bytes, b: byte, matches: Bytes -> bool)
    requires Explains(s, stream, matches)
    ensures Explains(StepByte(s, b, matches), stream + [b], matches)
  {
    match s {
      case Idle => ExplainsIdle(stream, b, matches);
      case Open(line) => ExplainsOpen(line, stream, b, matches);
      case Done(rest) =>
        DelimitedGrows(stream, b, matches);
        var n := |stream| - |rest|;
        var i: nat :| Delimited(stream, i, n, matches);
        assert Delimited(stream + [b], i, n, matches);
    }
  }

  /** The reader stops exactly at the end of the first delimited answer in the stream. */
  lemma {:induction false} ScanFindsFirst(stream: Bytes, matches: Bytes -> bool)
    ensures Explains(Scan(Idle, stream, matches), stream, matches)
  {
    if stream != [] {
      var front := stream[..|stream| - 1];
      ScanFindsFirst(front, matches);
      ExplainsStep(Scan(Idle, front, matches), front, stream[|stream| - 1], matches);
      assert front + [stream[|stream| - 1]] == stream;
    }
  }

  lemma {:induction false} ScanAppend(s: Sync, a: Bytes, b: Bytes, matches: Bytes -> bool)
    ensures Scan(s, a + b, matches) == Scan(Scan(s, a, matches), b, matches)
  {
    if b == [] {
      assert a + b == a;
    } else {
      assert (a + b)[..|a + b| - 1] == a + b[..|b| - 1];
      ScanAppend(s, a, b[..|b| - 1], matches);
    }
  }

  lemma {:induction false} ScanPlain(line: Bytes, more: Bytes, matches: Bytes -> bool)
    requires Plain(more)
    ensures Scan(Open(line), more, matches) == Open(line + more)
  {
    if more == [] {
      assert line + more == line;
    } else {
      ScanPlain(line, more[..|more| - 1], matches);
      assert line + more[..|more| - 1] + [more[|more| - 1]] == line + more;
    }
  }

  lemma {:induction false} ScanDone(rest: Bytes, more: Bytes, matches: Bytes -> bool)
    ensures Scan(Done(rest), more, matches) == Done(rest + more)
  {
    if more == [] {
      assert rest + more == rest;
    } else {
      ScanDone(rest, more[..|more| - 1], matches);
      assert rest + more[..|more| - 1] + [more[|more| - 1]] == rest + more;
    }
  }

  lemma {:induction false} ScanIdle(more: Bytes, matches: Bytes -> bool)
    requires DELIMITER !in more
    ensures Scan(Idle, more, matches) == Idle
  {
    if more != [] {
      ScanIdle(more[..|more| - 1], matches);
    }
  }

  lemma ScanOne(s: Sync, b: byte, matches: Bytes -> bool)
    ensures Scan(s, [b], matches) == StepByte(s, b, matches)
  {
  }

  /** Noise without an answer, a delimiter, the answer, a newline: the reader ends right
      behind the newline. */
  lemma NoiseThenAnswer(noise: Bytes, line: Bytes, rest: Bytes, matches: Bytes -> bool)
    requires forall i: nat, n: nat :: !Delimited(noise, i, n, matches)
    requires Plain(line) && matches(line)
    ensures Scan(Idle, noise + [DELIMITER] + line + [NEWLINE] + rest, matches) == Done(rest)
  {
    ScanFindsFirst(noise, matches);
    var s := Scan(Idle, noise, matches);
    assert !s.Done?;
    ScanAppend(Idle, noise, [DELIMITER], matches);
    ScanOne(s, DELIMITER, matches);
    ScanAppend(Idle, noise + [DELIMITER], line, matches);
    ScanPlain([], line, matches);
    assert [] + line == line;
    ScanAppend(Idle, noise + [DELIMITER] + line, [NEWLINE], matches);
    ScanOne(Open(line), NEWLINE, matches);
    ScanAppend(Idle, noise + [DELIMITER] + line + [NEWLINE], rest, matches);
    ScanDone([], rest, matches);
    assert [] + rest == rest;
  }

  // ---- reading in pieces ----

  /** What follows the last delimiter. */
  function AfterLast(b: Bytes): (r: Bytes)
    ensures DELIMITER !in r
    ensures |r| <= |b| && r == b[|b| - |r|..]
    ensures DELIMITER in b <==> |r| < |b|
    ensures |r| < |b| ==> b[|b| - |r| - 1] == DELIMITER
  {
    if b == [] || b[|b| - 1] == DELIMITER then []
    else
      var t := AfterLast(b[..|b| - 1]);
      assert b[..|b| - 1] + [b[|b| - 1]] == b;
      t + [b[|b| - 1]]
  }

  /** One received piece: everything before its last delimiter is thrown away unread. */
  function Feed(s: Sync, piece: Bytes, matches: Bytes -> bool): Sync {
    if DELIMITER in piece then Scan(Open([]), AfterLast(piece), matches) else Scan(s, piece, matches)
  }

  datatype Outcome = Found(rest: Bytes, unread: seq<Bytes>) | TooLarge | NoMoreData

  function Pieces(s: Sync, pieces: seq<Bytes>, matches: Bytes -> bool): Outcome
    decreases |pieces|
  {
    if s.Done? then Found(s.rest, pieces)
    else if s.Open? && |s.line| > LIMIT then TooLarge
    else if pieces == [] then NoMoreData
    else Pieces(Feed(s, pieces[0], matches), pieces[1..], matches)
  }

  function Flatten(pieces: seq<Bytes>): Bytes {
    if pieces == [] then [] else pieces[0] + Flatten(pieces[1..])
  }

  /** The piece up to its last delimiter. */
  function BeforeLast(piece: Bytes): (r: Bytes)
    requires DELIMITER in piece
    ensures r + [DELIMITER] + AfterLast(piece) == piece
  {
    piece[..|piece| - |AfterLast(piece)| - 1]
  }

  lemma ScanAtLast(s: Sync, piece: Bytes, matches: Bytes -> bool)
    requires DELIMITER in piece
    ensures var t := Scan(s, BeforeLast(piece), matches);
            Scan(s, piece, matches) == if t.Done? then Done(t.rest + [DELIMITER] + AfterLast(piece))
                                       else Scan(Open([]), AfterLast(piece), matches)
  {
    hide Scan, AfterLast;
    var head, tail := BeforeLast(piece), AfterLast(piece);
    var t := Scan(s, head, matches);
    ScanAppend(s, head, [DELIMITER], matches);
    ScanOne(t, DELIMITER, matches);
    ScanAppend(s, head + [DELIMITER], tail, matches);
    if t.Done? {
      ScanDone(t.rest + [DELIMITER], tail, matches);
    }
  }

  /** Unless an answer ends inside it, a piece may be read as a whole. */
  lemma FeedAgrees(s: Sync, piece: Bytes, matches: Bytes -> bool)
    requires !Scan(s, piece, matches).Done?
    ensures Feed(s, piece, matches) == Scan(s, piece, matches)
  {
  }

  /** If an answer ends inside a piece, it is found exactly when no delimiter follows it
      within that piece. */
  lemma FeedFinds(s: Sync, piece: Bytes, matches: Bytes -> bool)
    requires !s.Done? && Scan(s, piece, matches).Done?
    ensures var rest := Scan(s, piece, matches).rest;
            Feed(s, piece, matches) == Done(rest) <==> DELIMITER !in rest
  {
    hide Scan, AfterLast;
    if DELIMITER in piece {
      var tail := AfterLast(piece);
      ScanAtLast(s, piece, matches);
      RestIsSuffix(Open([]), tail, matches);
      var t := Scan(s, BeforeLast(piece), matches);
      if t.Done? {
        assert (t.rest + [DELIMITER] + tail)[|t.rest|] == DELIMITER;
      }
    } else {
      RestIsSuffix(s, piece, matches);
    }
  }

  lemma {:induction false} RestIsSuffix(s: Sync, piece: Bytes, matches: Bytes -> bool)
    requires !s.Done?
    ensures var t := Scan(s, piece, matches);
            t.Done? ==> |t.rest| < |piece| && t.rest == piece[|piece| - |t.rest|..]
  {
    if piece != [] {
      var front := piece[..|piece| - 1];
      RestIsSuffix(s, front, matches);
    }
  }

  /** What is left of the piece in which byte n lies, and the pieces after it. */
  function Tail(pieces: seq<Bytes>, n: nat): (r: Outcome)
    requires 0 < n <= |Flatten(pieces)|
    ensures r.Found?
    decreases |pieces|
  {
    if n <= |pieces[0]| then Found(pieces[0][n..], pieces[1..])
    else Tail(pieces[1..], n - |pieces[0]|)
  }

  lemma {:induction false} TailIsFound(pieces: seq<Bytes>, n: nat)
    requires 0 < n <= |Flatten(pieces)|
    ensures |Tail(pieces, n).unread| < |pieces|
    ensures Tail(pieces, n).rest + Flatten(Tail(pieces, n).unread) == Flatten(pieces)[n..]
    decreases |pieces|
  {
    if n <= |pieces[0]| {
      assert Flatten(pieces)[n..] == pieces[0][n..] + Flatten(pieces[1..]);
    } else {
      TailIsFound(pieces[1..], n - |pieces[0]|);
      assert Flatten(pieces)[n..] == Flatten(pieces[1..])[n - |pieces[0]|..];
    }
  }

  /** No unfinished line before the answer is longer than the limit. */
  ghost predicate LinesFit(s: Sync, stream: Bytes, matches: Bytes -> bool) {
    forall k :: 0 <= k <= |stream| ==>
      var t := Scan(s, stream[..k], matches); t.Open? ==> |t.line| <= LIMIT
  }

  lemma {:induction false} PiecesShrink(s: Sync, pieces: seq<Bytes>, matches: Bytes -> bool)
    ensures var o := Pieces(s, pieces, matches); o.Found? ==> |o.unread| <= |pieces|
    decreases |pieces|
  {
    if !s.Done? && pieces != [] {
      PiecesShrink(Feed(s, pieces[0], matches), pieces[1..], matches);
    }
  }

  /** For every way of cutting a stream that holds an answer: the client stops right behind
      the first answer exactly when the piece in which that answer ends holds no further
      delimiter after it. */
  lemma {:induction false} FirstAnswerExactly(s: Sync, pieces: seq<Bytes>, matches: Bytes -> bool)
    requires !s.Done? && Scan(s, Flatten(pieces), matches).Done?
    requires LinesFit(s, Flatten(pieces), matches)
    ensures var n := |Flatten(pieces)| - |Scan(s, Flatten(pieces), matches).rest|;
            && 0 < n <= |Flatten(pieces)|
            && (Pieces(s, pieces, matches) == Tail(pieces, n) <==> DELIMITER !in Tail(pieces, n).rest)
    decreases |pieces|
  {
    hide Feed, Scan;
    var stream := Flatten(pieces);
    RestIsSuffix(s, stream, matches);
    var n := |stream| - |Scan(s, stream, matches).rest|;
    TailIsFound(pieces, n);
    EmptyScan(s, matches);
    var first, later := pieces[0], Flatten(pieces[1..]);
    assert stream == first + later;
    ScanAppend(s, first, later, matches);
    var t := Scan(s, first, matches);
    assert stream[..0] == [];
    if t.Done? {
      ScanDone(t.rest, later, matches);
      RestIsSuffix(s, first, matches);
      assert n == |first| - |t.rest|;
      assert Tail(pieces, n) == Found(t.rest, pieces[1..]);
      FeedFinds(s, first, matches);
      PiecesShrink(Feed(s, first, matches), pieces[1..], matches);
      FoundLater(Feed(s, first, matches), t.rest, pieces[1..], matches);
    } else {
      FeedAgrees(s, first, matches);
      forall k | 0 <= k <= |later|
        ensures Scan(t, later[..k], matches) == Scan(s, stream[..|first| + k], matches)
      {
        ScanAppend(s, first, later[..k], matches);
        assert stream[..|first| + k] == first + later[..k];
      }
      RestIsSuffix(t, later, matches);
      FirstAnswerExactly(t, pieces[1..], matches);
    }
  }

  lemma EmptyScan(s: Sync, matches: Bytes -> bool)
    ensures Scan(s, [], matches) == s
  {
  }

  /** A reader that is not done after a piece cannot report that nothing of the pieces after
      it was read. */
  lemma FoundLater(s: Sync, rest: Bytes, pieces: seq<Bytes>, matches: Bytes -> bool)
    ensures Pieces(s, pieces, matches) == Found(rest, pieces) <==> s == Done(rest)
  {
    if !s.Done? && pieces != [] {
      PiecesShrink(Feed(s, pieces[0], matches), pieces[1..], matches);
    }
  }

  /** Any answer can be missed: here the piece that ends it also brings a stray delimiter. */
  lemma AnswerCanBeMissed(line: Bytes, matches: Bytes -> bool)
    requires Plain(line) && matches(line)
    ensures var piece := [DELIMITER] + line + [NEWLINE, DELIMITER];
            && Scan(Idle, piece, matches) == Done([DELIMITER])
            && Pieces(Idle, [piece], matches) == NoMoreData
  {
    var piece := [DELIMITER] + line + [NEWLINE, DELIMITER];
    assert [] + [DELIMITER] + line + [NEWLINE] + [DELIMITER] == piece;
    assert forall i: nat, n: nat :: !Delimited([], i, n, matches);
    NoiseThenAnswer([], line, [DELIMITER], matches);
    assert AfterLast(piece) == [];
    assert Feed(Idle, piece, matches) == Open([]);
  }

  // ---- the client ----

  class Client {
    var buffer: Bytes
    /** What the socket will still deliver before the deadline, piece by piece. */
    var pending: seq<Bytes>
    const matches: Bytes -> bool

    constructor (pending: seq<Bytes>, matches: Bytes -> bool)
      ensures this.pending == pending && this.matches == matches && buffer == []
    {
      this.pending, this.matches, buffer := pending, matches, [];
    }

    ghost function Unread(): Bytes
      reads this
    {
      buffer + Flatten(pending)
    }

    /** `_recv`: the next piece, or a timeout or disconnection. */
    method Receive() returns (piece: Option<Bytes>)
      modifies this`pending
      ensures piece.None? <==> old(pending) == []
      ensures piece.Some? ==> old(pending) == [piece.value] + pending
      ensures piece.None? ==> pending == []
    {
      if pending == [] {
        return None;
      }
      piece := Some(pending[0]);
      pending := pending[1..];
    }

    /** The state that a buffer stands for at the head of the loop. */
    ghost function Reads(delimited: bool): Sync
      reads this
    {
      Feed(if delimited then Open([]) else Idle, buffer, matches)
    }

    /** `_synchronize`. */
    method Synchronize() returns (r: Outcome)
      requires buffer == []
      modifies this
      ensures r == Pieces(Idle, old(pending), matches)
      ensures r.Found? ==> buffer == r.rest && pending == r.unread
    {
      hide Scan;
      var delimited := false;
      EmptyScan(Idle, matches);
      while true
        invariant Pieces(Reads(delimited), pending, matches) == Pieces(Idle, old(pending), matches)
        decreases |pending|, DELIMITER in buffer || delimited
      {
        ghost var state := Reads(delimited);
        if DELIMITER in buffer {
          buffer := AfterLast(buffer);
          delimited := true;
        }
        assert Reads(delimited) == state;
        if delimited && NEWLINE in buffer {
          var n := IndexOf(buffer, NEWLINE);
          var line := buffer[..n];
          LineRead(buffer, n, matches);
          buffer := buffer[n + 1..];
          if matches(line) {
            return Found(buffer, pending);
          }
          delimited := false;
          ScanIdle(buffer, matches);
          continue;
        }
        if !delimited {
          ScanIdle(buffer, matches);
          buffer := [];
        } else {
          ScanPlain([], buffer, matches);
          assert [] + buffer == buffer;
        }
        assert state == if delimited then Open(buffer) else Idle;
        if |buffer| > LIMIT {
          return TooLarge;
        }
        var piece := Receive();
        if piece.None? {
          return NoMoreData;
        }
        FeedMore(delimited, buffer, piece.value, matches);
        buffer := buffer + piece.value;
      }
    }

    /** `_reply`: the next line of the stream, the same for every way of cutting it up. */
    method Reply() returns (r: Outcome)
      modifies this
      ensures r.Found? ==> NEWLINE in old(Unread())
                           && r.rest == old(Unread())[..IndexOf(old(Unread()), NEWLINE)]
                           && Unread() == old(Unread())[IndexOf(old(Unread()), NEWLINE) + 1..]
      ensures r.NoMoreData? ==> NEWLINE !in old(Unread())
      ensures r.TooLarge? ==> IndexOf(old(Unread()), NEWLINE) > LIMIT
    {
      ghost var stream := Unread();
      while NEWLINE !in buffer
        invariant Unread() == stream
        decreases |pending|
      {
        if |buffer| > LIMIT {
          assert stream[..|buffer|] == buffer;
          IndexBeyond(stream, |buffer|);
          return TooLarge;
        }
        ghost var before := pending;
        var piece := Receive();
        if piece.None? {
          assert stream == buffer;
          return NoMoreData;
        }
        assert before[0] == piece.value && before[1..] == pending;
        buffer := buffer + piece.value;
      }
      var n := IndexOf(buffer, NEWLINE);
      SameIndex(buffer, stream);
      var line := buffer[..n];
      buffer := buffer[n + 1..];
      r := Found(line, pending);
      assert stream[..n] == line;
      assert stream[n + 1..] == Unread();
    }
  }

  lemma IndexBeyond(stream: Bytes, n: nat)
    requires n <= |stream| && NEWLINE !in stream[..n]
    ensures IndexOf(stream, NEWLINE) >= n
  {
  }

  lemma SameIndex(front: Bytes, stream: Bytes)
    requires front <= stream && NEWLINE in front
    ensures IndexOf(front, NEWLINE) == IndexOf(stream, NEWLINE) < |front|
  {
  }

  /** A delimited line at the front of the buffer decides, and what follows it is kept only
      if it matched. */
  lemma LineRead(buffer: Bytes, n: nat, matches: Bytes -> bool)
    requires DELIMITER !in buffer && n < |buffer| && n == IndexOf(buffer, NEWLINE)
    ensures Scan(Open([]), buffer, matches) == if matches(buffer[..n]) then Done(buffer[n + 1..]) else Idle
  {
    var line, rest := buffer[..n], buffer[n + 1..];
    assert buffer == line + [NEWLINE] + rest;
    ScanPlain([], line, matches);
    assert [] + line == line;
    ScanAppend(Open([]), line, [NEWLINE], matches);
    ScanOne(Open(line), NEWLINE, matches);
    ScanAppend(Open([]), line + [NEWLINE], rest, matches);
    if matches(line) {
      ScanDone([], rest, matches);
      assert [] + rest == rest;
    } else {
      ScanIdle(rest, matches);
    }
  }

  lemma FeedMore(delimited: bool, buffer: Bytes, piece: Bytes, matches: Bytes -> bool)
    requires if delimited then Plain(buffer) else buffer == []
    ensures Feed(if delimited then Open([]) else Idle, buffer + piece, matches)
         == Feed(if delimited then Open(buffer) else Idle, piece, matches)
  {
    if DELIMITER in piece {
      SameAfterLast(buffer, piece);
    } else if delimited {
      ScanPlain([], buffer, matches);
      assert [] + buffer == buffer;
      ScanAppend(Open([]), buffer, piece, matches);
    } else {
      assert buffer + piece == piece;
    }
  }

  lemma {:induction false} SameAfterLast(buffer: Bytes, piece: Bytes)
    requires DELIMITER in piece
    ensures AfterLast(buffer + piece) == AfterLast(piece)
  {
    if piece[|piece| - 1] != DELIMITER {
      var front := piece[..|piece| - 1];
      assert front + [piece[|piece| - 1]] == piece;
      SameAfterLast(buffer, front);
      assert (buffer + piece)[..|buffer + piece| - 1] == buffer + front;
    }
  }

  /** Noise, then our answer: whatever the pieces, if the one that ends the answer brings no
      later delimiter, the client has afterwards read exactly up to the answer. */
  method Connect(client: Client, noise: Bytes, line: Bytes, rest: Bytes) returns (r: Outcome)
    requires client.buffer == []
    requires Flatten(client.pending) == noise + [DELIMITER] + line + [NEWLINE] + rest
    requires forall i: nat, n: nat :: !Delimited(noise, i, n, client.matches)
    requires Plain(line) && client.matches(line)
    requires LinesFit(Idle, Flatten(client.pending), client.matches)
    requires DELIMITER !in Tail(client.pending, |noise| + |line| + 2).rest
    modifies client
    ensures r.Found? && client.Unread() == rest
  {
    NoiseThenAnswer(noise, line, rest, client.matches);
    FirstAnswerExactly(Idle, client.pending, client.matches);
    TailIsFound(client.pending, |noise| + |line| + 2);
    r := client.Synchronize();
  }

  /** Two clients that have the same bytes before them get the same line, however differently
      those bytes are cut up, as long as the line is within the limit. */
  method TwoReplies(a: Client, b: Client) returns (x: Outcome, y: Outcome)
    requires a != b && a.Unread() == b.Unread()
    requires NEWLINE in a.Unread() && IndexOf(a.Unread(), NEWLINE) <= LIMIT
    modifies a, b
    ensures x.Found? && y.Found? && x.rest == y.rest && a.Unread() == b.Unread()
  {
    x := a.Reply();
    y := b.Reply();
  }
}
