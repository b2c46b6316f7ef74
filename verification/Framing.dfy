/** Newline framing of the socket protocol (maurice/host/server.py, maurice/host/client.py).

    A peer writes each message as one line; a reader keeps a buffer, and a socket hands it the
    stream in pieces of its own choosing.  The message bytes are a JSON text, in which a newline
    is always escaped, so a message is any byte string without the newline byte. */
module Framing {
  import opened Wrappers

  newtype Byte = x: int | 0 <= x < 256
  type Bytes = seq<Byte>

  const NEWLINE: Byte := 10

  /** What is left of a connection: the reader's buffer, and the pieces the socket still holds.
      An empty piece is what `recv` returns at the end of the stream. */
  datatype Conn = Conn(buf: Bytes, pending: seq<Bytes>)

  function Flatten(pieces: seq<Bytes>): Bytes {
    if pieces == [] then [] else pieces[0] + Flatten(pieces[1..])
  }

  function Unread(c: Conn): Bytes {
    c.buf + Flatten(c.pending)
  }

  /** No piece is empty: the peer has not closed in the middle of `pending`. */
  predicate Open(c: Conn) {
    forall i :: 0 <= i < |c.pending| ==> c.pending[i] != []
  }

  function Frame(message: Bytes): Bytes {
    message + [NEWLINE]
  }

  /** Everything a sequence of sends puts on the wire. */
  function Encode(messages: seq<Bytes>): Bytes {
    if messages == [] then [] else Frame(messages[0]) + Encode(messages[1..])
  }

  predicate IsMessage(m: Bytes) {
    NEWLINE !in m
  }

  function FirstNewline(s: Bytes): (i: nat)
    requires NEWLINE in s
    ensures i < |s| && s[i] == NEWLINE && NEWLINE !in s[..i]
  {
    if s[0] == NEWLINE then 0 else 1 + FirstNewline(s[1..])
  }

  /** One `_recv_line`: fill the buffer until it holds a newline, then cut one line off. */
  function Recv(c: Conn): (Option<Bytes>, Conn)
    decreases |c.pending|
  {
    if NEWLINE in c.buf then
      var i := FirstNewline(c.buf);
      (Some(c.buf[..i]), c.(buf := c.buf[i + 1..]))
    else if c.pending == [] then (None, c)
    else if c.pending[0] == [] then (None, c.(pending := c.pending[1..]))
    else Recv(Conn(c.buf + c.pending[0], c.pending[1..]))
  }

  /** What `n` consecutive reads return, whoever makes them, and what they leave. */
  function RecvMany(c: Conn, n: nat): (seq<Option<Bytes>>, Conn)
    decreases n
  {
    if n == 0 then ([], c)
    else
      var (line, c') := Recv(c);
      var (rest, last) := RecvMany(c', n - 1);
      ([line] + rest, last)
  }

  /** One end of a socket.  The server hands the same object to its message loop and to the
      approval callback, so both cut their lines off one buffer. */
  class Connection {
    var buf: Bytes
    var pending: seq<Bytes>
    var sent: Bytes
    ghost var consumed: Bytes

    ghost function State(): Conn
      reads this
    {
      Conn(buf, pending)
    }

    constructor (pieces: seq<Bytes>)
      ensures State() == Conn([], pieces) && sent == [] && consumed == []
    {
      buf, pending, sent, consumed := [], pieces, [], [];
    }

    method Send(message: Bytes)
      modifies this`sent
      ensures sent == old(sent) + message + [10]
    {
      sent := sent + message + [NEWLINE];
    }

    method RecvLine() returns (line: Option<Bytes>)
      modifies this`buf, this`pending, this`consumed
      ensures (line, State()) == Recv(old(State()))
      ensures consumed == if line.Some? then old(consumed) + Frame(line.value) else old(consumed)
      ensures consumed + Unread(State()) == old(consumed + Unread(State()))
    {
      ConsumptionConserves(State(), consumed);
      while NEWLINE !in buf
        invariant Recv(State()) == Recv(old(State()))
        invariant consumed == old(consumed)
        decreases |pending|
      {
        if pending == [] {
          return None;
        }
        var chunk := pending[0];
        pending := pending[1..];
        if chunk == [] {
          return None;
        }
        buf := buf + chunk;
      }
      var idx := FirstNewline(buf);
      line := Some(buf[..idx]);
      consumed := consumed + Frame(buf[..idx]);
      buf := buf[idx + 1..];
    }

    /** The approval callback: ask over the wire, then take the next line as the answer.  A closed
        connection means no. */
    method AskApproval(question: Bytes, decode: Bytes -> Reply) returns (answer: Answer)
      modifies this
      ensures sent == old(sent) + Frame(question)
      ensures var (line, after) := Recv(old(State()));
              State() == after && answer == if line.Some? then AnswerOf(decode(line.value)) else No
      ensures consumed + Unread(State()) == old(consumed + Unread(State()))
    {
      Send(question);
      var line := RecvLine();
      if line.None? {
        return No;
      }
      var reply := decode(line.value);
      var scope := if reply.rememberScope != "" then reply.rememberScope
                   else if reply.scope != "" then reply.scope else "exact";
      answer := Given(reply.approved, scope);
    }
  }

  /** The fields of the peer's reply that the callback looks at; a missing or null one is empty. */
  datatype Reply = Reply(approved: bool, rememberScope: string, scope: string)

  datatype Answer = No | Given(approved: bool, scope: string)

  function AnswerOf(reply: Reply): Answer {
    Given(reply.approved,
          if reply.rememberScope != "" then reply.rememberScope else if reply.scope != "" then reply.scope else "exact")
  }

  lemma FirstNewlineUnique(s: Bytes, i: nat)
    requires i < |s| && s[i] == NEWLINE && NEWLINE !in s[..i]
    ensures FirstNewline(s) == i
  {
    if i > 0 {
      assert s[0] == s[..i][0];
      assert s[1..][..i - 1] == s[..i][1..];
      FirstNewlineUnique(s[1..], i - 1);
    }
  }

  /** A read depends on the byte stream alone, not on how the socket cut it up: it returns the
      stream up to the first newline and leaves the rest, and without a newline it returns nothing
      and loses nothing. */
  lemma {:induction false} RecvIgnoresChunking(c: Conn)
    requires Open(c)
    ensures var (line, after) := Recv(c);
            var s := Unread(c);
            && Open(after)
            && (NEWLINE in s ==>
                  line == Some(s[..FirstNewline(s)]) && Unread(after) == s[FirstNewline(s) + 1..])
            && (NEWLINE !in s ==> line == None && after == Conn(s, []))
    decreases |c.pending|
  {
    var s := Unread(c);
    if NEWLINE in c.buf {
      var i := FirstNewline(c.buf);
      assert s[..i] == c.buf[..i];
      FirstNewlineUnique(s, i);
      assert s[i + 1..] == c.buf[i + 1..] + Flatten(c.pending);
    } else if c.pending != [] {
      var next := Conn(c.buf + c.pending[0], c.pending[1..]);
      assert Unread(next) == s;
      RecvIgnoresChunking(next);
    }
  }

  lemma FirstMessageArrives(c: Conn, messages: seq<Bytes>, unfinished: Bytes)
    requires Open(c) && messages != [] && IsMessage(messages[0])
    requires Unread(c) == Encode(messages) + unfinished
    ensures var (line, after) := Recv(c);
            && line == Some(messages[0])
            && Open(after) && Unread(after) == Encode(messages[1..]) + unfinished
  {
    var rest := Encode(messages[1..]) + unfinished;
    assert Unread(c) == Frame(messages[0]) + rest;
    HeadOfStream(messages[0], rest);
    RecvIgnoresChunking(c);
  }

  /** The k-th read returns the k-th message sent, however the stream was cut and whichever of the
      readers sharing the buffer makes it; a line the peer did not finish stays unread. */
  lemma {:induction false} EveryMessageArrivesOnceInOrder(c: Conn, messages: seq<Bytes>, unfinished: Bytes)
    requires Open(c)
    requires forall m :: m in messages ==> IsMessage(m)
    requires IsMessage(unfinished)
    requires Unread(c) == Encode(messages) + unfinished
    ensures var (lines, after) := RecvMany(c, |messages|);
            && lines == seq(|messages|, i requires 0 <= i < |messages| => Some(messages[i]))
            && Open(after) && Unread(after) == unfinished
            && Recv(after) == (None, Conn(unfinished, []))
    decreases |messages|
  {
    RecvIgnoresChunking(c);
    if messages == [] {
      assert Unread(c) == unfinished;
    } else {
      FirstMessageArrives(c, messages, unfinished);
      EveryMessageArrivesOnceInOrder(Recv(c).1, messages[1..], unfinished);
    }
  }

  lemma HeadOfStream(m: Bytes, rest: Bytes)
    requires IsMessage(m)
    ensures var s := Frame(m) + rest;
            && NEWLINE in s && FirstNewline(s) == |m|
            && s[..|m|] == m && s[|m| + 1..] == rest
  {
    var s := Frame(m) + rest;
    assert s[..|m|] == m;
    assert s[|m|] == NEWLINE;
    FirstNewlineUnique(s, |m|);
  }

  function Received(lines: seq<Option<Bytes>>): seq<Bytes> {
    if lines == [] then []
    else (if lines[0].Some? then [lines[0].value] else []) + Received(lines[1..])
  }

  lemma EncodeFirst(line: Option<Bytes>, lines: seq<Option<Bytes>>)
    ensures Encode(Received([line] + lines))
         == (if line.Some? then Frame(line.value) else []) + Encode(Received(lines))
  {
    assert ([line] + lines)[1..] == lines;
    if line.Some? {
      assert ([line.value] + Received(lines))[1..] == Received(lines);
    } else {
      assert [] + Received(lines) == Received(lines);
    }
  }

  /** Conservation over any number of reads of any stream, closed or not: the lines handed out, put
      back on the wire, followed by buffer and unread pieces, are the original stream. */
  lemma {:induction false} NoByteIsLost(c: Conn, n: nat)
    ensures var (lines, after) := RecvMany(c, n);
            Encode(Received(lines)) + Unread(after) == Unread(c)
    decreases n
  {
    if n > 0 {
      var (line, c') := Recv(c);
      NoByteIsLost(c', n - 1);
      OneReadConserves(c);
      EncodeFirst(line, RecvMany(c', n - 1).0);
    }
  }

  lemma ConsumptionConserves(c: Conn, consumed: Bytes)
    ensures var (line, after) := Recv(c);
            (if line.Some? then consumed + Frame(line.value) else consumed) + Unread(after) == consumed + Unread(c)
  {
    var (line, after) := Recv(c);
    OneReadConserves(c);
    if line.Some? {
      assert (consumed + Frame(line.value)) + Unread(after) == consumed + (Frame(line.value) + Unread(after));
    } else {
      assert [] + Unread(after) == Unread(after);
    }
  }

  lemma {:induction false} OneReadConserves(c: Conn)
    ensures var (line, after) := Recv(c);
            (if line.Some? then Frame(line.value) else []) + Unread(after) == Unread(c)
    decreases |c.pending|
  {
    if NEWLINE in c.buf {
      var i := FirstNewline(c.buf);
      assert c.buf == Frame(c.buf[..i]) + c.buf[i + 1..];
    } else if c.pending != [] && c.pending[0] != [] {
      var next := Conn(c.buf + c.pending[0], c.pending[1..]);
      assert Unread(next) == Unread(c);
      OneReadConserves(next);
    }
  }
}
