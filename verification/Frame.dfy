/** Packet framing of the GDB Remote Serial Protocol: `$payload#checksum`, and the
    incremental decoder for it. */
module Frame {
  import opened Octets
  import opened Outcomes
  import opened Hex
  import opened Text

  // ---------- checksums and frames ----------

  function Sum(s: string): nat {
    if s == [] then 0 else Sum(s[..|s| - 1]) + s[|s| - 1] as int % 256
  }

  function Checksum(payload: string): Byte {
    Sum(payload) % 256
  }

  /** The checksum adds up the bytes modulo 256. */
  lemma ChecksumOfOneMore(p: string, c: char)
    ensures Checksum("") == 0
    ensures Checksum(p + [c]) == (Checksum(p) + c as int) % 256
  {
    assert (p + [c])[..|p|] == p;
  }

  method ComputeChecksum(payload: string) returns (cs: Byte)
    ensures cs == Checksum(payload)
  {
    var sum := 0;
    for i := 0 to |payload|
      invariant sum == Sum(payload[..i])
    {
      assert payload[..i + 1][..i] == payload[..i];
      sum := sum + payload[i] as int % 256;
    }
    assert payload[..|payload|] == payload;
    cs := sum % 256;
  }

  function Framed(payload: string): (s: string)
    ensures |s| == |payload| + 4
  {
    var cs := Checksum(payload);
    "$" + payload + "#" + [Digit(cs / 16), Digit(cs % 16)]
  }

  /** The frames the protocol's documentation and the repository's tests show. */
  lemma KnownFrames()
    ensures Framed("OK") == "$OK#9a"
    ensures Framed("g") == "$g#67"
  {
    assert "OK"[..1] == "O" && "O"[..0] == "" && "g"[..0] == "";
    assert Sum("O") == 0x4F && Sum("OK") == 0x9A && Sum("g") == 0x67;
  }

  method MakeFrame(payload: string) returns (out: string)
    ensures out == Framed(payload)
  {
    var cs := ComputeChecksum(payload);
    out := "$";
    out := out + payload;
    out := out + "#";
    out := out + [Digit(cs / 16), Digit(cs % 16)];
  }

  predicate IsAck(c: char) {
    c == '+' || c == '-'
  }

  // ---------- one call of the decoder ----------

  /** The two checksum characters fit the payload. */
  predicate Good(payload: string, hi: char, lo: char) {
    HexVal(hi) >= 0 && HexVal(lo) >= 0 && 16 * HexVal(hi) + HexVal(lo) == Checksum(payload)
  }

  function Accepted(payload: string, hi: char, lo: char): seq<string> {
    if Good(payload, hi, lo) then [payload] else []
  }

  /** Where the leading acks from `i` on end. */
  function AckEnd(s: string, i: nat): (k: nat)
    requires i <= |s|
    ensures i <= k <= |s| && (k < |s| ==> !IsAck(s[k])) && forall j :: i <= j < k ==> IsAck(s[j])
    decreases |s| - i
  {
    if i < |s| && IsAck(s[i]) then AckEnd(s, i + 1) else i
  }

  function StripAcks(s: string): string {
    s[AckEnd(s, 0)..]
  }

  /** The buffer after one `next_payload`, and what it returned. */
  ghost function Polled(buf: string): (string, Option<string>) {
    var b := StripAcks(buf);
    var start := IndexOf(b, '$', 0);
    if start == |b| then ("", None) else
      var hash := IndexOf(b, '#', start);
      if hash + 2 >= |b| then (b, None) else
        var payload := b[start + 1..hash];
        (b[hash + 3..], if Good(payload, b[hash + 1], b[hash + 2]) then Some(payload) else None)
  }

  /** Leading `+` and `-`, and no other character, are dropped. */
  lemma {:induction false} AcksEnd(s: string, i: nat, k: nat)
    requires i <= k <= |s| && forall j :: i <= j < k ==> s[j] == '+' || s[j] == '-'
    requires k < |s| ==> s[k] != '+' && s[k] != '-'
    ensures AckEnd(s, i) == k
    decreases k - i
  {
    if i < k {
      AcksEnd(s, i + 1, k);
    }
  }

  // ---------- the stream read in one go ----------

  /** The first complete frame of a stream and what follows it. */
  datatype Cut = Incomplete | Whole(payload: string, hi: char, lo: char, rest: string)

  ghost function FirstFrame(s: string): (c: Cut)
    ensures c.Whole? ==> |c.rest| < |s| && '#' !in c.payload
  {
    var start := IndexOf(s, '$', 0);
    var hash := IndexOf(s, '#', start);
    if hash + 2 >= |s| then Incomplete
    else Whole(s[start + 1..hash], s[hash + 1], s[hash + 2], s[hash + 3..])
  }

  /** All good payloads of a byte stream: skip to `$`, read to `#`, check two digits. */
  ghost function Payloads(s: string): seq<string>
    decreases |s|
  {
    match FirstFrame(s)
    case Incomplete => []
    case Whole(p, hi, lo, rest) => Accepted(p, hi, lo) + Payloads(rest)
  }

  lemma FrameBetween(s: string, start: nat, hash: nat)
    requires FirstAt(s, '$', 0, start) && FirstAt(s, '#', start, hash)
    ensures FirstFrame(s) ==
              if hash + 2 >= |s| then Incomplete
              else Whole(s[start + 1..hash], s[hash + 1], s[hash + 2], s[hash + 3..])
  {
    IndexIsUnique(s, '$', 0, start);
    IndexIsUnique(s, '#', start, hash);
  }

  /** A poll that finds no complete frame drops the acks in front, and everything if no
      frame has begun; it keeps all else. */
  lemma PollOfIncomplete(buf: string, k: nat)
    requires FirstFrame(buf).Incomplete?
    requires k <= |buf| && forall j :: 0 <= j < k ==> buf[j] == '+' || buf[j] == '-'
    requires k < |buf| ==> buf[k] != '+' && buf[k] != '-'
    ensures Polled(buf) == (if '$' in buf then buf[k..] else "", None)
  {
    AcksEnd(buf, 0, k);
    var start := IndexOf(buf, '$', 0);
    if '$' in buf {
      var hash := IndexOf(buf, '#', start);
      IndexIsUnique(buf[k..], '$', 0, start - k);
      IndexIsUnique(buf[k..], '#', start - k, hash - k);
    } else {
      IndexIsUnique(buf[k..], '$', 0, |buf| - k);
    }
  }

  lemma SliceOfTail(a: string, b: string, i: nat, j: nat)
    requires i <= j <= |b|
    ensures (a + b)[|a| + i..|a| + j] == b[i..j]
    ensures j == |b| ==> (a + b)[|a| + i..] == b[i..]
  {
  }

  lemma JunkBeforeFrame(junk: string, s: string)
    requires '$' !in junk
    ensures FirstFrame(junk + s) == FirstFrame(s)
  {
    var t, n := junk + s, |junk|;
    var start := IndexOf(s, '$', 0);
    var hash := IndexOf(s, '#', start);
    assert FirstAt(t, '$', 0, n + start) && FirstAt(t, '#', n + start, n + hash);
    FrameBetween(t, n + start, n + hash);
    if hash + 2 < |s| {
      SliceOfTail(junk, s, start + 1, hash);
      SliceOfTail(junk, s, hash + 3, |s|);
    }
  }

  lemma FrameBeforeMore(s: string, more: string)
    requires FirstFrame(s).Whole?
    ensures var c := FirstFrame(s);
            FirstFrame(s + more) == Whole(c.payload, c.hi, c.lo, c.rest + more)
  {
    var t := s + more;
    var start := IndexOf(s, '$', 0);
    var hash := IndexOf(s, '#', start);
    assert FirstAt(t, '$', 0, start) && FirstAt(t, '#', start, hash);
    FrameBetween(t, start, hash);
    assert t[start + 1..hash] == s[start + 1..hash];
    assert t[hash + 3..] == s[hash + 3..] + more;
  }

  /** Bytes ahead of the first `$` never matter. */
  lemma JunkIsSkipped(junk: string, s: string)
    requires '$' !in junk
    ensures Payloads(junk + s) == Payloads(s)
  {
    JunkBeforeFrame(junk, s);
  }

  lemma StrippedAcksAreJunk(s: string) returns (acks: string)
    ensures s == acks + StripAcks(s) && '$' !in acks
  {
    acks := s[..AckEnd(s, 0)];
    assert forall i :: 0 <= i < |acks| ==> IsAck(acks[i]);
  }

  function Emitted(p: Option<string>): seq<string> {
    match p case Some(payload) => [payload] case None => []
  }

  lemma FrameIsPeeled(b: string, more: string)
    requires FirstFrame(b).Whole?
    ensures var c := FirstFrame(b);
            Payloads(b + more) == Accepted(c.payload, c.hi, c.lo) + Payloads(c.rest + more)
  {
    FrameBeforeMore(b, more);
  }

  /** A poll in terms of the first frame. */
  lemma PollsFirstFrame(buf: string)
    ensures var b := StripAcks(buf);
            Polled(buf) ==
              match FirstFrame(b)
              case Incomplete => (if '$' in b then b else "", None)
              case Whole(p, hi, lo, rest) => (rest, if Good(p, hi, lo) then Some(p) else None)
  {
    var b := StripAcks(buf);
    assert '$' in b <==> IndexOf(b, '$', 0) < |b|;
  }

  /** Two buffers that mean the same, whatever comes after them. */
  ghost predicate SameStream(b: string, b': string) {
    forall more :: FirstFrame(b + more) == FirstFrame(b' + more)
  }

  lemma StrippingKeepsStream(buf: string)
    ensures SameStream(buf, StripAcks(buf)) && FirstFrame(StripAcks(buf)) == FirstFrame(buf)
  {
    var acks := StrippedAcksAreJunk(buf);
    var b := StripAcks(buf);
    JunkBeforeFrame(acks, b);
    forall more ensures FirstFrame(buf + more) == FirstFrame(b + more) {
      assert buf + more == acks + (b + more);
      JunkBeforeFrame(acks, b + more);
    }
  }

  lemma EmptyIsJunk(b: string)
    requires '$' !in b
    ensures SameStream(b, "")
  {
    forall more ensures FirstFrame(b + more) == FirstFrame("" + more) {
      JunkBeforeFrame(b, more);
      assert "" + more == more;
    }
  }

  /** A poll hands out the frame at the front, or changes nothing that matters. */
  lemma PollTakesFirstFrame(buf: string)
    ensures var (b, p) := Polled(buf);
            var c := FirstFrame(buf);
            if c.Whole? then b == c.rest && p == (if Good(c.payload, c.hi, c.lo) then Some(c.payload) else None)
            else p == None && SameStream(buf, b)
  {
    PollsFirstFrame(buf);
    StrippingKeepsStream(buf);
    var b := StripAcks(buf);
    if '$' !in b { EmptyIsJunk(b); }
  }

  lemma SameFirstFrame(s: string, t: string)
    requires FirstFrame(s) == FirstFrame(t)
    ensures Payloads(s) == Payloads(t)
  {
  }

  /** One poll takes its payload off the front of the stream and loses nothing else,
      whatever bytes are still to come. */
  lemma PollKeepsStream(buf: string, more: string)
    ensures var (buf', p) := Polled(buf);
            Payloads(buf + more) == Emitted(p) + Payloads(buf' + more)
  {
    PollTakesFirstFrame(buf);
    if FirstFrame(buf).Whole? {
      FrameIsPeeled(buf, more);
    } else {
      assert FirstFrame(buf + more) == FirstFrame(Polled(buf).0 + more);
      SameFirstFrame(buf + more, Polled(buf).0 + more);
    }
  }

  // ---------- any interleaving of feeds and polls ----------

  datatype Op = Feed(bytes: string) | NextPayload

  /** The buffer, everything fed, and everything emitted so far. */
  datatype Stream = Stream(buf: string, fed: string, out: seq<string>)

  ghost function Do(s: Stream, op: Op): Stream {
    match op
    case Feed(bytes) => Stream(s.buf + bytes, s.fed + bytes, s.out)
    case NextPayload =>
      var (buf, p) := Polled(s.buf);
      Stream(buf, s.fed, s.out + Emitted(p))
  }

  ghost function DoAll(s: Stream, ops: seq<Op>): Stream {
    if ops == [] then s else Do(DoAll(s, ops[..|ops| - 1]), ops[|ops| - 1])
  }

  lemma {:induction false} InterleavingKeepsStream(ops: seq<Op>, more: string)
    ensures var s := DoAll(Stream("", "", []), ops);
            s.out + Payloads(s.buf + more) == Payloads(s.fed + more)
    decreases |ops|
  {
    if ops != [] {
      var init := ops[..|ops| - 1];
      var s := DoAll(Stream("", "", []), init);
      match ops[|ops| - 1] {
        case Feed(bytes) =>
          InterleavingKeepsStream(init, bytes + more);
          assert s.buf + (bytes + more) == s.buf + bytes + more;
          assert s.fed + (bytes + more) == s.fed + bytes + more;
        case NextPayload =>
          InterleavingKeepsStream(init, more);
          PollKeepsStream(s.buf, more);
      }
    }
  }

  /** Chunk boundaries never matter: what came out so far, and then a one-shot reading of
      the buffer, is the one-shot reading of everything fed. */
  lemma ChunkingIsIrrelevant(ops: seq<Op>)
    ensures var s := DoAll(Stream("", "", []), ops);
            s.out + Payloads(s.buf) == Payloads(s.fed)
  {
    InterleavingKeepsStream(ops, "");
    var s := DoAll(Stream("", "", []), ops);
    assert s.buf + "" == s.buf && s.fed + "" == s.fed;
  }

  // ---------- frames on the wire ----------

  /** Payloads framed one after the other, with `$`-free bytes before, between and after. */
  function Transmission(ps: seq<string>, gaps: seq<string>): string
    requires |gaps| == |ps| + 1
  {
    if ps == [] then gaps[0] else gaps[0] + (Framed(ps[0]) + Transmission(ps[1..], gaps[1..]))
  }

  lemma ChecksumDigitsAreGood(p: string)
    ensures Good(p, Digit(Checksum(p) / 16), Digit(Checksum(p) % 16))
  {
  }

  /** A `#`-free text between `$` and `#`, then two characters, is one frame. */
  lemma FrameComesFirst(p: string, hi: char, lo: char, rest: string)
    requires '#' !in p
    ensures FirstFrame("$" + p + "#" + [hi, lo] + rest) == Whole(p, hi, lo, rest)
  {
    var open := "$" + p;
    var closed := open + "#";
    var s := closed + [hi, lo] + rest;
    assert s[..|open|] == open && s[..|closed|] == closed;
    forall j | 0 <= j < |open|
      ensures s[j] == open[j] != '#'
    {
      assert s[j] == s[..|open|][j];
      assert j > 0 ==> open[j] == p[j - 1];
    }
    assert s[|open|] == closed[|open|] == '#';
    FrameBetween(s, 0, |p| + 1);
    assert s[1..|p| + 1] == p;
    assert s[|p| + 4..] == rest;
  }

  lemma OneFrame(p: string, hi: char, lo: char, rest: string)
    requires '#' !in p
    ensures Payloads("$" + p + "#" + [hi, lo] + rest) == Accepted(p, hi, lo) + Payloads(rest)
  {
    FrameComesFirst(p, hi, lo, rest);
  }

  /** A frame is read exactly if its two digits, of either case, spell the checksum. */
  lemma FrameIsReadIff(p: string, hi: char, lo: char, rest: string)
    requires '#' !in p
    ensures var fits := HexVal(hi) >= 0 && HexVal(lo) >= 0 && 16 * HexVal(hi) + HexVal(lo) == Checksum(p);
            Payloads("$" + p + "#" + [hi, lo] + rest) == (if fits then [p] else []) + Payloads(rest)
  {
    OneFrame(p, hi, lo, rest);
  }

  lemma FrameBehindJunk(junk: string, p: string, rest: string)
    requires '$' !in junk && '#' !in p
    ensures Payloads(junk + (Framed(p) + rest)) == [p] + Payloads(rest)
  {
    JunkIsSkipped(junk, Framed(p) + rest);
    OneFrame(p, Digit(Checksum(p) / 16), Digit(Checksum(p) % 16), rest);
    ChecksumDigitsAreGood(p);
  }

  /** Everything framed arrives, in order, if no payload holds a `#`. */
  lemma {:induction false} FramesArrive(ps: seq<string>, gaps: seq<string>)
    requires |gaps| == |ps| + 1
    requires forall i :: 0 <= i < |ps| ==> '#' !in ps[i]
    requires forall i :: 0 <= i < |gaps| ==> '$' !in gaps[i]
    ensures Payloads(Transmission(ps, gaps)) == ps
  {
    if ps == [] {
      JunkIsSkipped(gaps[0], "");
      assert gaps[0] + "" == gaps[0];
    } else {
      FramesArrive(ps[1..], gaps[1..]);
      FrameBehindJunk(gaps[0], ps[0], Transmission(ps[1..], gaps[1..]));
    }
  }

  lemma {:induction false} EmittedPayloadsAreHashFree(s: string)
    ensures forall i :: 0 <= i < |Payloads(s)| ==> '#' !in Payloads(s)[i]
    decreases |s|
  {
    if FirstFrame(s).Whole? { EmittedPayloadsAreHashFree(FirstFrame(s).rest); }
  }

  /** Framing does no escaping: a payload survives it exactly if it holds no `#`. */
  lemma SurvivesIffHashFree(p: string)
    ensures Payloads(Framed(p)) == [p] <==> '#' !in p
  {
    if '#' !in p {
      FramesArrive([p], ["", ""]);
      assert Transmission([p], ["", ""]) == Framed(p);
    } else {
      EmittedPayloadsAreHashFree(Framed(p));
      assert [p][0] == p;
    }
  }

  // ---------- corruption ----------

  lemma {:induction false} SumOfChange(p: string, i: nat, c: char)
    requires i < |p|
    ensures Sum(p[i := c]) == Sum(p) - p[i] as int % 256 + c as int % 256
    decreases |p|
  {
    var n := |p| - 1;
    if i < n {
      SumOfChange(p[..n], i, c);
      assert p[i := c][..n] == p[..n][i := c];
    } else {
      assert p[i := c][..n] == p[..n];
    }
  }

  lemma ChecksumDetectsChange(p: string, i: nat, c: char)
    requires i < |p| && c as int % 256 != p[i] as int % 256
    ensures Checksum(p[i := c]) != Checksum(p)
  {
    SumOfChange(p, i, c);
  }

  lemma FramedWithChange(p: string, i: nat, c: char, hi: char, lo: char)
    requires i < |p|
    ensures ("$" + p + "#" + [hi, lo])[i + 1 := c] == "$" + p[i := c] + "#" + [hi, lo]
  {
  }

  /** A frame with one payload byte altered, to anything but `#`, is dropped, and the
      frames after it are read as if it had not been there. */
  lemma CorruptedFrameIsDropped(junk: string, p: string, i: nat, c: char, rest: string)
    requires '$' !in junk && '#' !in p && i < |p| && c != '#'
    requires c as int % 256 != p[i] as int % 256
    ensures Payloads(junk + (Framed(p)[i + 1 := c] + rest)) == Payloads(rest)
  {
    var cs := Checksum(p);
    var hi, lo := Digit(cs / 16), Digit(cs % 16);
    FramedWithChange(p, i, c, hi, lo);
    JunkIsSkipped(junk, Framed(p)[i + 1 := c] + rest);
    OneFrame(p[i := c], hi, lo, rest);
    assert Accepted(p[i := c], hi, lo) == [] by { ChecksumDetectsChange(p, i, c); }
    assert [] + Payloads(rest) == Payloads(rest);
  }

  // ---------- the decoder object ----------

  class FrameDecoder {
    var buf: string

    constructor ()
      ensures buf == ""
    {
      buf := "";
    }

    method Feed(bytes: string)
      modifies this
      ensures buf == old(buf) + bytes
    {
      buf := buf + bytes;
    }

    method NextPayload() returns (p: Option<string>)
      modifies this
      ensures (buf, p) == Polled(old(buf))
    {
      var i := 0;
      while i < |buf| && IsAck(buf[i])
        invariant i <= |buf| && forall j :: 0 <= j < i ==> IsAck(buf[j])
      {
        i := i + 1;
      }
      assert i == AckEnd(buf, 0);
      if i > 0 {
        buf := buf[i..];
      }
      var start := Find(buf, '$', 0);
      if start == |buf| {
        buf := "";
        return None;
      }
      var hash := Find(buf, '#', start);
      if hash == |buf| || hash + 2 >= |buf| {
        return None;
      }
      var payload := buf[start + 1..hash];
      var hi, lo := HexVal(buf[hash + 1]), HexVal(buf[hash + 2]);
      var cs := ComputeChecksum(payload);
      var good := hi >= 0 && lo >= 0 && hi * 16 + lo == cs;
      buf := buf[hash + 3..];
      if !good {
        return None;
      }
      return Some(payload);
    }
  }
}
