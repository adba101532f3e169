/** The request/reply exchange with a gdb stub over a byte channel that delivers in
    chunks of any size. */
module GdbClients {
  import opened Octets
  import opened Outcomes
  import opened Hex
  import opened Text
  import opened Frame
  import opened Packets
  import opened Sequences

  const RECV_BUFFER: nat := 512
  const ATTEMPTS: nat := 64

  /** What the channel still holds: bytes the peer has sent, and how many bytes each
      coming receive finds ready; a receive that finds none times out. */
  datatype Line = Line(pending: string, sizes: seq<nat>)

  function Receive(l: Line): (Line, Option<string>) {
    if l.sizes == [] then (l, None) else
      var n := if l.sizes[0] < RECV_BUFFER then l.sizes[0] else RECV_BUFFER;
      var k := if n < |l.pending| then n else |l.pending|;
      if k == 0 then (l.(sizes := l.sizes[1..]), None)
      else (Line(l.pending[k..], l.sizes[1..]), Some(l.pending[..k]))
  }

  /** Polls the decoder and receives, in turns, until a payload comes out, a receive
      fails, or the attempts are used up. */
  ghost function AwaitReply(buf: string, l: Line, attempts: nat): (string, Line, Option<string>)
    decreases attempts
  {
    if attempts == 0 then (buf, l, None) else
      var (b, p) := Polled(buf);
      if p.Some? then (b, l, p) else
        var (l', chunk) := Receive(l);
        if chunk.None? then (b, l', None) else AwaitReply(b + chunk.value, l', attempts - 1)
  }

  /** The unread part of the stream starts with this good frame. */
  ghost predicate NextReply(s: string, reply: string, rest: string) {
    var c := FirstFrame(s);
    c.Whole? && c.payload == reply && Good(c.payload, c.hi, c.lo) && c.rest == rest
  }

  lemma ReceiveKeepsStream(b: string, l: Line)
    ensures var (l', chunk) := Receive(l);
            b + l.pending == if chunk.Some? then (b + chunk.value) + l'.pending else b + l'.pending
  {
  }

  /** The bytes the first `n` receives deliver, up to the first that fails. */
  ghost function Received(l: Line, n: nat): string
    decreases n
  {
    if n == 0 then "" else
      var (l', chunk) := Receive(l);
      if chunk.None? then "" else chunk.value + Received(l', n - 1)
  }

  lemma SameWithChunk(buf: string, b: string, chunk: string, more: string)
    requires SameStream(buf, b)
    ensures FirstFrame((b + chunk) + more) == FirstFrame(buf + (chunk + more))
  {
    assert (b + chunk) + more == b + (chunk + more);
    assert FirstFrame(buf + (chunk + more)) == FirstFrame(b + (chunk + more));
  }

  lemma BufferedChunk(buf: string, chunk: string, more: string)
    requires FirstFrame(buf).Incomplete?
    ensures FirstFrame((Polled(buf).0 + chunk) + more) == FirstFrame(buf + (chunk + more))
  {
    assert SameStream(buf, Polled(buf).0) by { PollTakesFirstFrame(buf); }
    SameWithChunk(buf, Polled(buf).0, chunk, more);
  }

  /** Moving a chunk from the line into the buffer changes neither what the whole stream
      starts with nor what the next receives complete. */
  lemma ChunkKeepsStream(buf: string, l: Line, n: nat)
    requires FirstFrame(buf).Incomplete? && Receive(l).1.Some?
    ensures var next := Polled(buf).0 + Receive(l).1.value;
            var l' := Receive(l).0;
            && FirstFrame(next + l'.pending) == FirstFrame(buf + l.pending)
            && FirstFrame(next + Received(l', n)) == FirstFrame(buf + Received(l, n + 1))
  {
    var c, l' := Receive(l).1.value, Receive(l).0;
    BufferedChunk(buf, c, l'.pending);
    BufferedChunk(buf, c, Received(l', n));
    assert l.pending == c + l'.pending;
    assert Received(l, n + 1) == c + Received(l', n);
  }

  lemma NothingReceived(buf: string, l: Line)
    requires FirstFrame(buf).Incomplete?
    ensures FirstFrame(buf + Received(l, 0)).Incomplete?
    ensures Receive(l).1.None? ==>
              && (forall n: nat :: FirstFrame(buf + Received(l, n)).Incomplete?)
              && FirstFrame(Polled(buf).0 + Receive(l).0.pending) == FirstFrame(buf + l.pending)
  {
    PollTakesFirstFrame(buf);
    assert buf + "" == buf;
    ReceiveKeepsStream(Polled(buf).0, l);
  }

  lemma FrontFrameIsTaken(buf: string, l: Line, attempts: nat, reply: string, rest: string, n: nat)
    requires NextReply(buf + l.pending, reply, rest) && attempts > 0 && FirstFrame(buf).Whole?
    ensures FirstFrame(buf + Received(l, n)).Whole?
    ensures var (buf', l', p) := AwaitReply(buf, l, attempts);
            p == Some(reply) && buf' + l'.pending == rest
  {
    PollTakesFirstFrame(buf);
    FrameBeforeMore(buf, l.pending);
    FrameBeforeMore(buf, Received(l, n));
  }

  lemma AwaitUnfolds(buf: string, l: Line, attempts: nat)
    requires attempts > 0 && FirstFrame(buf).Incomplete?
    ensures var b := Polled(buf).0;
            AwaitReply(buf, l, attempts) ==
              match Receive(l).1
              case None => (b, Receive(l).0, None)
              case Some(c) => AwaitReply(b + c, Receive(l).0, attempts - 1)
  {
    PollTakesFirstFrame(buf);
  }

  lemma OutOfAttempts(buf: string, l: Line)
    ensures AwaitReply(buf, l, 0) == (buf, l, None)
  {
  }

  lemma AwaitTurn(buf: string, l: Line, attempts: nat, polled: (string, Option<string>), received: (Line, Option<string>))
    requires attempts > 0 && polled == Polled(buf) && received == Receive(l)
    ensures AwaitReply(buf, l, attempts) ==
            if polled.1.Some? then (polled.0, l, polled.1)
            else if received.1.None? then (polled.0, received.0, None)
            else AwaitReply(polled.0 + received.1.value, received.0, attempts - 1)
  {
  }

  /** For every chunking: a wait returns the next reply and leaves exactly what follows
      it, or fails and leaves the reply next in line. It succeeds exactly when the reply
      is complete after one receive fewer than there are attempts, for what the last
      receive brings is never looked at. */
  lemma {:induction false} AwaitTakesNextReply(buf: string, l: Line, attempts: nat, reply: string, rest: string)
    requires NextReply(buf + l.pending, reply, rest) && attempts > 0
    ensures var (buf', l', p) := AwaitReply(buf, l, attempts);
            if FirstFrame(buf + Received(l, attempts - 1)).Whole?
            then p == Some(reply) && buf' + l'.pending == rest
            else p == None && NextReply(buf' + l'.pending, reply, rest)
    decreases attempts
  {
    if FirstFrame(buf).Whole? {
      FrontFrameIsTaken(buf, l, attempts, reply, rest, attempts - 1);
    } else {
      AwaitUnfolds(buf, l, attempts);
      NothingReceived(buf, l);
      if Receive(l).1.Some? {
        ChunkKeepsStream(buf, l, if attempts > 1 then attempts - 2 else 0);
        if attempts > 1 {
          AwaitTakesNextReply(Polled(buf).0 + Receive(l).1.value, Receive(l).0, attempts - 1, reply, rest);
        }
      }
    }
  }

  /** An answer: one good frame, with acks or other `$`-free bytes around it. */
  ghost predicate IsAnswer(answer: string, reply: string) {
    exists rest :: NextReply(answer, reply, rest) && '$' !in rest
  }

  lemma FrameWithAcksIsAnswer(before: string, reply: string, after: string)
    requires '$' !in before && '$' !in after && '#' !in reply
    ensures IsAnswer(before + (Framed(reply) + after), reply)
  {
    var s := Framed(reply) + after;
    JunkBeforeFrame(before, s);
    FrameComesFirst(reply, Digit(Checksum(reply) / 16), Digit(Checksum(reply) % 16), after);
    ChecksumDigitsAreGood(reply);
    assert NextReply(before + s, reply, after);
  }

  lemma JunkThenAnswer(junk: string, answer: string, reply: string) returns (rest: string)
    requires '$' !in junk && IsAnswer(answer, reply)
    ensures NextReply(junk + answer, reply, rest) && '$' !in rest
  {
    rest :| NextReply(answer, reply, rest) && '$' !in rest;
    JunkBeforeFrame(junk, answer);
  }

  // ---------- a whole conversation ----------

  /** One exchange: the peer's answer arrives on the line, then the client waits. */
  ghost function Exchange(buf: string, l: Line, answer: string, attempts: nat): (string, Line, Option<string>) {
    AwaitReply(buf, l.(pending := l.pending + answer), attempts)
  }

  /** The results of successive exchanges. */
  ghost function Conversation(buf: string, l: Line, answers: seq<string>, attempts: nat): (r: seq<Option<string>>)
    ensures |r| == |answers|
    decreases |answers|
  {
    if answers == [] then [] else
      var (buf', l', p) := Exchange(buf, l, answers[0], attempts);
      [p] + Conversation(buf', l', answers[1..], attempts)
  }

  ghost predicate AllAnswer(answers: seq<string>, replies: seq<string>) {
    |answers| == |replies| && forall i :: 0 <= i < |answers| ==> IsAnswer(answers[i], replies[i])
  }

  /** What is left unread of the stream holds these replies, in order, and no other frame. */
  ghost predicate Unread(s: string, replies: seq<string>)
    decreases |replies|
  {
    if replies == [] then '$' !in s else
      exists rest :: NextReply(s, replies[0], rest) && Unread(rest, replies[1..])
  }

  lemma {:induction false} AnswerIsUnread(s: string, replies: seq<string>, answer: string, reply: string)
    requires Unread(s, replies) && IsAnswer(answer, reply)
    ensures Unread(s + answer, replies + [reply])
    decreases |replies|
  {
    var all := replies + [reply];
    if replies == [] {
      var rest := JunkThenAnswer(s, answer, reply);
      assert Unread(rest, all[1..]);
    } else {
      var rest :| NextReply(s, replies[0], rest) && Unread(rest, replies[1..]);
      AnswerIsUnread(rest, replies[1..], answer, reply);
      FrameBeforeMore(s, answer);
      assert all[1..] == replies[1..] + [reply];
      assert NextReply(s + answer, all[0], rest + answer);
    }
  }

  lemma AnswerArrives(buf: string, pending: string, unread: seq<string>, answer: string, reply: string)
    requires Unread(buf + pending, unread) && IsAnswer(answer, reply)
    ensures Unread(buf + (pending + answer), unread + [reply])
  {
    AnswerIsUnread(buf + pending, unread, answer, reply);
    Associate(buf, pending, answer);
  }

  lemma UnreadFrom(s: string, replies: seq<string>, rest: string)
    requires replies != [] && NextReply(s, replies[0], rest) && Unread(rest, replies[1..])
    ensures Unread(s, replies)
  {
  }

  lemma AwaitTakesOldest(buf: string, l: Line, attempts: nat, unread: seq<string>)
    requires unread != [] && Unread(buf + l.pending, unread) && attempts > 0
    ensures var (buf', l', p) := AwaitReply(buf, l, attempts);
            && (p.Some? ==> p.value == unread[0])
            && Unread(buf' + l'.pending, if p.Some? then unread[1..] else unread)
  {
    var rest :| NextReply(buf + l.pending, unread[0], rest) && Unread(rest, unread[1..]);
    AwaitTakesNextReply(buf, l, attempts, unread[0], rest);
    var (buf', l', p) := AwaitReply(buf, l, attempts);
    if p.None? { UnreadFrom(buf' + l'.pending, unread, rest); }
  }

  /** One exchange takes the oldest unread reply, or fails and takes none. */
  lemma ExchangeTakesOldest(buf: string, l: Line, unread: seq<string>, answer: string, reply: string, attempts: nat)
    requires Unread(buf + l.pending, unread) && IsAnswer(answer, reply) && attempts > 0
    ensures var (buf', l', p) := Exchange(buf, l, answer, attempts);
            var all := unread + [reply];
            && (p.Some? ==> p.value == all[0])
            && Unread(buf' + l'.pending, if p.Some? then all[1..] else all)
  {
    AnswerArrives(buf, l.pending, unread, answer, reply);
    AwaitTakesOldest(buf, l.(pending := l.pending + answer), attempts, unread + [reply]);
  }

  /** The replies a list of results holds. */
  function Taken(results: seq<Option<string>>): seq<string> {
    if results == [] then [] else (if results[0].Some? then [results[0].value] else []) + Taken(results[1..])
  }

  lemma TakenStaysInOrder(p: Option<string>, tail: seq<Option<string>>, unread: seq<string>, replies: seq<string>)
    requires replies != []
    requires p.Some? ==> p.value == (unread + [replies[0]])[0]
    requires Taken(tail) <= (if p.Some? then (unread + [replies[0]])[1..] else unread + [replies[0]]) + replies[1..]
    ensures Taken([p] + tail) <= unread + replies
  {
    assert ([p] + tail)[1..] == tail;
    assert unread + replies == (unread + [replies[0]]) + replies[1..];
    assert p.Some? ==> unread + replies == [p.value] + ((unread + [replies[0]])[1..] + replies[1..]);
  }

  /** Whatever fails and whatever was left unread before: the exchanges that succeed return
      the replies in the order in which they were sent, leaving none out. */
  lemma {:induction false} RepliesComeInOrder(buf: string, l: Line, unread: seq<string>,
                                              answers: seq<string>, replies: seq<string>, attempts: nat)
    requires Unread(buf + l.pending, unread) && AllAnswer(answers, replies) && attempts > 0
    ensures Taken(Conversation(buf, l, answers, attempts)) <= unread + replies
    decreases |answers|
  {
    if answers != [] {
      var (buf', l', p) := Exchange(buf, l, answers[0], attempts);
      var all := unread + [replies[0]];
      var left := if p.Some? then all[1..] else all;
      ExchangeTakesOldest(buf, l, unread, answers[0], replies[0], attempts);
      RepliesComeInOrder(buf', l', left, answers[1..], replies[1..], attempts);
      TakenStaysInOrder(p, Conversation(buf', l', answers[1..], attempts), unread, replies);
    }
  }

  function Failures(results: seq<Option<string>>): nat {
    if results == [] then 0 else (if results[0].None? then 1 else 0) + Failures(results[1..])
  }

  lemma {:induction false} TakenBefore(results: seq<Option<string>>, i: nat)
    requires i < |results| && results[i].Some?
    ensures var n := i - Failures(results[..i]);
            0 <= n < |Taken(results)| && Taken(results)[n] == results[i].value
  {
    if i > 0 {
      TakenBefore(results[1..], i - 1);
      assert results[..i][1..] == results[1..][..i - 1];
    }
  }

  /** From a quiet line an exchange that succeeds returns the reply to the request as many
      exchanges back as have failed before it. */
  lemma FailuresShiftReplies(buf: string, l: Line, answers: seq<string>, replies: seq<string>, attempts: nat, i: nat)
    requires '$' !in buf + l.pending && AllAnswer(answers, replies) && attempts > 0 && i < |answers|
    ensures var results := Conversation(buf, l, answers, attempts);
            results[i].Some? ==> 0 <= i - Failures(results[..i]) && results[i].value == replies[i - Failures(results[..i])]
  {
    var results := Conversation(buf, l, answers, attempts);
    RepliesComeInOrder(buf, l, [], answers, replies, attempts);
    assert [] + replies == replies;
    if results[i].Some? { TakenBefore(results, i); }
  }

  lemma {:induction false} NoFailures(results: seq<Option<string>>)
    requires forall i :: 0 <= i < |results| ==> results[i].Some?
    ensures Failures(results) == 0
  {
    if results != [] {
      NoFailures(results[1..]);
    }
  }

  /** If no exchange fails, the k-th returns the k-th reply, however the bytes were chunked:
      no complete frame is ever left over between exchanges. */
  lemma RepliesArePaired(buf: string, l: Line, answers: seq<string>, replies: seq<string>, attempts: nat)
    requires '$' !in buf + l.pending && AllAnswer(answers, replies) && attempts > 0
    requires forall i :: 0 <= i < |answers| ==> Conversation(buf, l, answers, attempts)[i].Some?
    ensures forall i :: 0 <= i < |replies| ==> Conversation(buf, l, answers, attempts)[i] == Some(replies[i])
  {
    var results := Conversation(buf, l, answers, attempts);
    forall i | 0 <= i < |replies| ensures results[i] == Some(replies[i]) {
      FailuresShiftReplies(buf, l, answers, replies, attempts, i);
      NoFailures(results[..i]);
    }
  }

  // ---------- how long a transact waits ----------

  /** One receive: what is ready, at most 512 bytes of it; nothing ready is a failure. */
  lemma ReceiveTakesWhatIsReady(l: Line)
    ensures var (l', chunk) := Receive(l);
            && l'.sizes == (if l.sizes == [] then [] else l.sizes[1..])
            && (chunk == None <==> l.sizes == [] || l.sizes[0] == 0 || l.pending == "")
            && (chunk == None ==> l'.pending == l.pending)
            && (chunk.Some? ==>
                  && chunk.value + l'.pending == l.pending
                  && |chunk.value| <= 512 && |chunk.value| <= l.sizes[0]
                  && (|chunk.value| == 512 || |chunk.value| == l.sizes[0] || l'.pending == ""))
  {
  }

  /** From a quiet line a transact succeeds exactly if the reply is complete with what the
      first 63 receives deliver. */
  lemma TransactSucceedsIff(buf: string, l: Line, answer: string, reply: string)
    requires '$' !in buf + l.pending && IsAnswer(answer, reply)
    ensures Exchange(buf, l, answer, ATTEMPTS).2 ==
            if FirstFrame(buf + Received(l.(pending := l.pending + answer), 63)).Whole? then Some(reply) else None
  {
    var rest := JunkThenAnswer(buf + l.pending, answer, reply);
    Associate(buf, l.pending, answer);
    AwaitTakesNextReply(buf, l.(pending := l.pending + answer), ATTEMPTS, reply, rest);
  }

  lemma {:induction false} FullReceives(l: Line, n: nat)
    requires n <= |l.sizes| && forall i :: 0 <= i < n ==> l.sizes[i] >= 512
    ensures Received(l, n) == if 512 * n <= |l.pending| then l.pending[..512 * n] else l.pending
    decreases n
  {
    if n > 0 && l.pending != "" {
      var (l', chunk) := Receive(l);
      var k := if 512 < |l.pending| then 512 else |l.pending|;
      assert chunk == Some(l.pending[..k]) && l'.pending == l.pending[k..];
      FullReceives(l', n - 1);
      if 512 * n <= |l.pending| {
        assert l.pending[..512 * n] == l.pending[..k] + l.pending[k..][..512 * (n - 1)];
      } else {
        assert l.pending == l.pending[..k] + l.pending[k..];
      }
    }
  }

  /** A peer that always fills the buffer gets at most 63 times 512 bytes across: a reply
      whose frame is not complete in these fails, however long the client waits. */
  lemma LongRepliesFail(l: Line, answer: string, reply: string)
    requires l.pending == "" && IsAnswer(answer, reply)
    requires |l.sizes| >= 63 && forall i :: 0 <= i < 63 ==> l.sizes[i] >= 512
    ensures var across := if |answer| < 32256 then answer else answer[..32256];
            Exchange("", l, answer, ATTEMPTS).2 == if FirstFrame(across).Whole? then Some(reply) else None
  {
    var arrived := l.(pending := l.pending + answer);
    EmptyInFront(l.pending);
    EmptyInFront(answer);
    TransactSucceedsIff("", l, answer, reply);
    FullReceives(arrived, 63);
    EmptyInFront(Received(arrived, 63));
  }

  // ---------- the objects ----------

  /** A connected socket and the peer behind it, which answers each request in turn. */
  class Channel {
    var connected: bool
    var line: Line
    var answers: seq<string>
    var sent: seq<string>

    constructor (sizes: seq<nat>, answers: seq<string>)
      ensures connected && line == Line("", sizes) && this.answers == answers && sent == []
    {
      connected, line, this.answers, sent := true, Line("", sizes), answers, [];
    }

    method Send(data: string) returns (r: Result<()>)
      modifies this
      ensures connected == old(connected) && (r.Ok? <==> connected)
      ensures r.Err? ==> line == old(line) && answers == old(answers) && sent == old(sent)
      ensures r.Ok? ==>
                && sent == old(sent) + [data]
                && line.sizes == old(line.sizes)
                && line.pending == old(line.pending) + (if old(answers) == [] then "" else old(answers)[0])
                && answers == if old(answers) == [] then [] else old(answers)[1..]
    {
      if !connected {
        return Err("send: not connected");
      }
      sent := sent + [data];
      if answers != [] {
        line := line.(pending := line.pending + answers[0]);
        answers := answers[1..];
      } else {
        assert line.pending + "" == line.pending;
      }
      return Ok(());
    }

    method Recv() returns (r: Result<string>)
      modifies this`line
      ensures !connected ==> r.Err? && line == old(line)
      ensures connected ==>
              var (l, chunk) := Receive(old(line));
              line == l && (r.Ok? <==> chunk.Some?) && (r.Ok? ==> r.value == chunk.value)
    {
      if !connected {
        return Err("recv: not connected");
      }
      var (l, chunk) := Receive(line);
      line := l;
      if chunk.None? {
        return Err("recv() failed or timed out");
      }
      return Ok(chunk.value);
    }
  }

  class GdbClient {
    const sock: Channel
    const decoder: FrameDecoder

    constructor (sock: Channel)
      ensures this.sock == sock && fresh(decoder) && decoder.buf == ""
    {
      this.sock := sock;
      decoder := new FrameDecoder();
    }

    /** The client is where a wait that came out as `goal` leaves it. */
    ghost predicate Waited(goal: (string, Line, Option<string>), r: Result<string>)
      reads this, sock, decoder
    {
      decoder.buf == goal.0 && sock.line == goal.1 && goal.2 == if r.Ok? then Some(r.value) else None
    }

    /** One attempt, with `left` to go: a payload comes out, or a chunk is fed. */
    method Attempt(ghost left: nat) returns (done: bool, r: Result<string>)
      requires sock.connected && left > 0
      modifies sock`line, decoder
      ensures var goal := AwaitReply(old(decoder.buf), old(sock.line), left);
              if done then Waited(goal, r) else AwaitReply(decoder.buf, sock.line, left - 1) == goal
    {
      AwaitTurn(decoder.buf, sock.line, left, Polled(decoder.buf), Receive(sock.line));
      var p := decoder.NextPayload();
      if p.Some? {
        return true, Ok(p.value);
      }
      var rr := sock.Recv();
      if rr.Err? {
        return true, Err(rr.error);
      }
      decoder.Feed(rr.value);
      return false, Err("");
    }

    /** Reads until the decoder yields a payload, for at most `limit` rounds. */
    method AwaitPayload(limit: nat) returns (r: Result<string>)
      requires sock.connected
      modifies sock`line, decoder
      ensures Waited(AwaitReply(old(decoder.buf), old(sock.line), limit), r)
    {
      ghost var goal := AwaitReply(decoder.buf, sock.line, limit);
      for attempts := 0 to limit
        invariant AwaitReply(decoder.buf, sock.line, limit - attempts) == goal
      {
        var done;
        done, r := Attempt(limit - attempts);
        if done {
          return;
        }
      }
      OutOfAttempts(decoder.buf, sock.line);
      return Err("transact: no reply within attempt budget");
    }

    /** Sends a framed request and returns the next payload that comes back. */
    method Transact(payload: string) returns (r: Result<string>)
      modifies sock, decoder
      ensures sock.connected == old(sock.connected)
      ensures !sock.connected ==> r.Err? && sock.line == old(sock.line) && decoder.buf == old(decoder.buf)
      ensures sock.connected ==>
                var answer := if old(sock.answers) == [] then "" else old(sock.answers)[0];
                var (buf, l, p) := Exchange(old(decoder.buf), old(sock.line), answer, ATTEMPTS);
                && sock.sent == old(sock.sent) + [Framed(payload)]
                && sock.answers == (if old(sock.answers) == [] then [] else old(sock.answers)[1..])
                && decoder.buf == buf && sock.line == l
                && (r.Ok? <==> p.Some?) && (r.Ok? ==> r.value == p.value)
    {
      var framed := MakeFrame(payload);
      var sr := sock.Send(framed);
      if sr.Err? {
        return Err(sr.error);
      }
      r := AwaitPayload(ATTEMPTS);
    }

    /** Reads target memory: the reply is an error report, or hex data, or neither. */
    method ReadMemory(addr: nat, len: nat) returns (r: Result<seq<Byte>>)
      modifies sock, decoder
      ensures sock.connected == old(sock.connected)
      ensures !sock.connected ==> r.Err? && sock.line == old(sock.line) && decoder.buf == old(decoder.buf)
      ensures sock.connected ==>
                var answer := if old(sock.answers) == [] then "" else old(sock.answers)[0];
                var (buf, l, p) := Exchange(old(decoder.buf), old(sock.line), answer, ATTEMPTS);
                && sock.sent == old(sock.sent) + [Framed(Encode(Request.ReadMemory(addr, len)))]
                && sock.answers == (if old(sock.answers) == [] then [] else old(sock.answers)[1..])
                && decoder.buf == buf && sock.line == l
                && (r.Ok? <==> p.Some? && MemoryReplyOf(p.value).Contents?)
                && (r.Ok? ==> r.value == MemoryReplyOf(p.value).bytes)
    {
      var t := Transact(Encode(Request.ReadMemory(addr, len)));
      if t.Err? {
        return Err(t.error);
      }
      if ReplyErrorCode(t.value).Some? {
        return Err("read_memory: target error");
      }
      r := HexDecode(t.value);
    }
  }
}
