/** Request encoders of the remote protocol, with the reading of each request that makes
    them unambiguous, and the stop-reply parser. */
module Packets {
  import opened Octets
  import opened Outcomes
  import opened Hex
  import opened Text
  import opened Frame
  import opened Sequences

  // ---------- numerals ----------

  /** Lower-case hexadecimal without leading zeros. */
  function HexNum(v: nat): (s: string)
    ensures s != []
  {
    if v < 16 then [Digit(v)] else HexNum(v / 16) + [Digit(v % 16)]
  }

  function HexValue(s: string): int {
    if s == [] then 0 else 16 * HexValue(s[..|s| - 1]) + HexVal(s[|s| - 1])
  }

  function Decimal(v: nat): (s: string)
    ensures s != []
  {
    if v < 10 then [Digit(v)] else Decimal(v / 10) + [Digit(v % 10)]
  }

  /** Decimal with a sign for negative numbers. */
  function Signed(v: int): string {
    if v < 0 then "-" + Decimal(-v) else Decimal(v)
  }

  function DecimalValue(s: string): int {
    if s == [] then 0 else 10 * DecimalValue(s[..|s| - 1]) + HexVal(s[|s| - 1])
  }

  function SignedValue(s: string): int {
    if s != [] && s[0] == '-' then -DecimalValue(s[1..]) else DecimalValue(s)
  }

  lemma {:induction false} HexNumRoundTrip(v: nat)
    ensures HexValue(HexNum(v)) == v && AllDigits(HexNum(v))
  {
    if v >= 16 {
      HexNumRoundTrip(v / 16);
      assert HexNum(v)[..|HexNum(v)| - 1] == HexNum(v / 16);
    } else {
      assert HexNum(v)[..0] == [];
    }
  }

  lemma {:induction false} DecimalRoundTrip(v: nat)
    ensures DecimalValue(Decimal(v)) == v && AllDigits(Decimal(v))
  {
    if v >= 10 {
      DecimalRoundTrip(v / 10);
      assert Decimal(v)[..|Decimal(v)| - 1] == Decimal(v / 10);
    } else {
      assert Decimal(v)[..0] == [];
    }
  }

  ghost predicate Free(s: string, c: char) {
    forall i :: 0 <= i < |s| ==> s[i] != c
  }

  lemma SignedRoundTrip(v: int)
    ensures SignedValue(Signed(v)) == v && Free(Signed(v), ',') && Free(Signed(v), '#')
  {
    DecimalRoundTrip(if v < 0 then -v else v);
    if v < 0 {
      assert Signed(v)[1..] == Decimal(-v);
      assert forall i :: 1 <= i < |Signed(v)| ==> Signed(v)[i] == Decimal(-v)[i - 1];
    } else {
      assert HexVal(Signed(v)[0]) >= 0;
    }
  }

  // ---------- requests ----------

  datatype Request =
    | ReadRegisters
    | ReadMemory(addr: nat, len: nat)
    | WriteMemory(addr: nat, data: seq<Byte>)
    | SetBreakpoint(bpType: int, addr: nat, kind: int)
    | RemoveBreakpoint(bpType: int, addr: nat, kind: int)
    | Continue
    | Step
    | HaltReason
    | QSupported

  /** The letter that starts a request. */
  function Letter(r: Request): char {
    match r
    case ReadRegisters => 'g'
    case ReadMemory(_, _) => 'm'
    case WriteMemory(_, _) => 'M'
    case SetBreakpoint(_, _, _) => 'Z'
    case RemoveBreakpoint(_, _, _) => 'z'
    case Continue => 'c'
    case Step => 's'
    case HaltReason => '?'
    case QSupported => 'q'
  }

  function Arguments(r: Request): string {
    match r
    case ReadMemory(addr, len) => HexNum(addr) + "," + HexNum(len)
    case WriteMemory(addr, data) => HexNum(addr) + "," + HexNum(|data|) + ":" + Encoded(data)
    case SetBreakpoint(t, addr, kind) => Signed(t) + "," + HexNum(addr) + "," + Signed(kind)
    case RemoveBreakpoint(t, addr, kind) => Signed(t) + "," + HexNum(addr) + "," + Signed(kind)
    case QSupported => "Supported"
    case _ => ""
  }

  function Encode(r: Request): string {
    [Letter(r)] + Arguments(r)
  }

  /** The text of every request. */
  lemma RequestTexts(addr: nat, len: nat, data: seq<Byte>, t: int, kind: int)
    ensures Encode(ReadRegisters) == "g" && Encode(HaltReason) == "?" && Encode(QSupported) == "qSupported"
    ensures Encode(Continue) == "c" && Encode(Step) == "s"
    ensures Encode(ReadMemory(addr, len)) == "m" + (HexNum(addr) + "," + HexNum(len))
    ensures Encode(WriteMemory(addr, data)) == "M" + (HexNum(addr) + "," + HexNum(|data|) + ":" + Encoded(data))
    ensures Encode(SetBreakpoint(t, addr, kind)) == "Z" + (Signed(t) + "," + HexNum(addr) + "," + Signed(kind))
    ensures Encode(RemoveBreakpoint(t, addr, kind)) == "z" + (Signed(t) + "," + HexNum(addr) + "," + Signed(kind))
  {
  }

  lemma DigitIsLower(v: int)
    requires 0 <= v < 16
    ensures '0' <= Digit(v) <= '9' || 'a' <= Digit(v) <= 'f'
    ensures v < 10 <==> '0' <= Digit(v) <= '9'
    ensures Digit(v) == '0' <==> v == 0
  {
  }

  /** Numerals are lower-case and without leading zeros: with their value that makes them
      the only ones. */
  lemma {:induction false} HexNumIsCanonical(v: nat)
    ensures forall i :: 0 <= i < |HexNum(v)| ==> '0' <= HexNum(v)[i] <= '9' || 'a' <= HexNum(v)[i] <= 'f'
    ensures HexNum(v)[0] == '0' <==> v == 0
    ensures v == 0 ==> HexNum(v) == "0"
  {
    if v >= 16 {
      HexNumIsCanonical(v / 16);
      DigitIsLower(v % 16);
    } else {
      DigitIsLower(v);
    }
  }

  lemma {:induction false} DecimalIsCanonical(v: nat)
    ensures forall i :: 0 <= i < |Decimal(v)| ==> '0' <= Decimal(v)[i] <= '9'
    ensures Decimal(v)[0] == '0' <==> v == 0
    ensures v == 0 ==> Decimal(v) == "0"
  {
    if v >= 10 {
      DecimalIsCanonical(v / 10);
      DigitIsLower(v % 10);
    } else {
      DigitIsLower(v);
    }
  }

  lemma SignedIsCanonical(v: int)
    ensures forall i :: 1 <= i < |Signed(v)| ==> '0' <= Signed(v)[i] <= '9'
    ensures v < 0 ==> |Signed(v)| >= 2 && Signed(v)[0] == '-' && Signed(v)[1] != '0'
    ensures v > 0 ==> '1' <= Signed(v)[0] <= '9'
    ensures v == 0 ==> Signed(v) == "0"
  {
    DecimalIsCanonical(if v < 0 then -v else v);
  }

  lemma HexNumUnfolds(v: nat)
    requires v >= 16
    ensures HexNum(v) == HexNum(v / 16) + [Digit(v % 16)]
  {
  }

  lemma KnownNumerals()
    ensures HexNum(4) == "4" && HexNum(0x1000) == "1000" && HexNum(0x401000) == "401000"
  {
    HexNumUnfolds(0x10);
    HexNumUnfolds(0x100);
    HexNumUnfolds(0x1000);
    HexNumUnfolds(0x40);
    HexNumUnfolds(0x401);
    HexNumUnfolds(0x4010);
    HexNumUnfolds(0x40100);
    HexNumUnfolds(0x401000);
  }

  lemma ReadMemoryText(addr: nat, len: nat, addrs: string, lens: string)
    requires HexNum(addr) == addrs && HexNum(len) == lens
    ensures Encode(ReadMemory(addr, len)) == "m" + (addrs + "," + lens)
  {
  }

  lemma KnownReadPieces()
    ensures "m" + ("1000" + "," + "4") == "m1000,4"
  {
    assert "1000" + "," == "1000,";
    assert "1000," + "4" == "1000,4";
    assert "m" + "1000,4" == "m1000,4";
  }

  /** Encodings the repository's tests show. */
  lemma KnownReadMemory()
    ensures Encode(ReadMemory(0x1000, 4)) == "m1000,4"
  {
    KnownNumerals();
    ReadMemoryText(0x1000, 4, "1000", "4");
    KnownReadPieces();
  }

  lemma BreakpointText(t: int, addr: nat, kind: int, ts: string, addrs: string, ks: string)
    requires Signed(t) == ts && HexNum(addr) == addrs && Signed(kind) == ks
    ensures Encode(SetBreakpoint(t, addr, kind)) == "Z" + (ts + "," + addrs + "," + ks)
  {
  }

  lemma KnownPieces()
    ensures "Z" + ("0" + "," + "401000" + "," + "1") == "Z0,401000,1"
  {
    assert "0" + "," == "0,";
    assert "0," + "401000" == "0,401000";
    assert "0,401000" + "," == "0,401000,";
    assert "0,401000," + "1" == "0,401000,1";
    assert "Z" + "0,401000,1" == "Z0,401000,1";
  }

  lemma KnownBreakpoint()
    ensures Encode(SetBreakpoint(0, 0x401000, 1)) == "Z0,401000,1"
  {
    KnownNumerals();
    BreakpointText(0, 0x401000, 1, "0", "401000", "1");
    KnownPieces();
  }

  // ---------- an independent reading of requests ----------

  /** What stands before and after the first `c`; everything and nothing if there is none. */
  ghost function Split(s: string, c: char): (string, string) {
    var k := IndexOf(s, c, 0);
    (s[..k], if k < |s| then s[k + 1..] else "")
  }

  lemma SplitJoined(a: string, c: char, b: string)
    requires Free(a, c)
    ensures Split(a + [c] + b, c) == (a, b)
  {
    var s := a + [c] + b;
    IndexIsUnique(s, c, 0, |a|);
    assert s[..|a|] == a && s[|a| + 1..] == b;
  }

  /** The arguments of a breakpoint request. */
  ghost function ReadTriple(s: string): (int, int, int) {
    var (t, rest) := Split(s, ',');
    var (addr, kind) := Split(rest, ',');
    (SignedValue(t), HexValue(addr), SignedValue(kind))
  }

  /** Reads a request off its letter and its arguments, as a stub would. */
  ghost function ReadArguments(letter: char, args: string): Option<Request> {
    match letter
    case 'g' => if args == "" then Some(ReadRegisters) else None
    case 'c' => if args == "" then Some(Continue) else None
    case 's' => if args == "" then Some(Step) else None
    case '?' => if args == "" then Some(HaltReason) else None
    case 'q' => if args == "Supported" then Some(QSupported) else None
    case 'm' =>
      var (addr, len) := Split(args, ',');
      if HexValue(addr) < 0 || HexValue(len) < 0 then None
      else Some(ReadMemory(HexValue(addr), HexValue(len)))
    case 'M' =>
      var (addr, rest) := Split(args, ',');
      var (len, data) := Split(rest, ':');
      if HexValue(addr) < 0 || |data| % 2 != 0 || !AllDigits(data) || 2 * HexValue(len) != |data| then None
      else Some(WriteMemory(HexValue(addr), Decoded(data)))
    case 'Z' =>
      var (t, addr, kind) := ReadTriple(args);
      if addr < 0 then None else Some(SetBreakpoint(t, addr, kind))
    case 'z' =>
      var (t, addr, kind) := ReadTriple(args);
      if addr < 0 then None else Some(RemoveBreakpoint(t, addr, kind))
    case _ => None
  }

  ghost function Read(s: string): Option<Request> {
    if s == [] then None else ReadArguments(s[0], s[1..])
  }

  lemma DigitsAreFree(s: string, c: char)
    requires AllDigits(s) && HexVal(c) < 0
    ensures Free(s, c)
  {
  }

  lemma JoinIsFree(a: string, c: char, b: string, d: char)
    requires Free(a, d) && Free(b, d) && c != d
    ensures Free(a + [c] + b, d)
  {
  }

  lemma JoinsAssociate(a: string, c: char, b: string, d: char, e: string)
    ensures a + [c] + b + [d] + e == a + [c] + (b + [d] + e)
  {
  }

  lemma TripleRoundTrip(t: int, addr: nat, kind: int)
    ensures var s := Signed(t) + "," + HexNum(addr) + "," + Signed(kind);
            ReadTriple(s) == (t, addr, kind) && Free(s, '#')
  {
    var a, b, c := Signed(t), HexNum(addr), Signed(kind);
    SignedRoundTrip(t);
    SignedRoundTrip(kind);
    HexNumRoundTrip(addr);
    DigitsAreFree(b, ',');
    DigitsAreFree(b, '#');
    JoinsAssociate(a, ',', b, ',', c);
    SplitJoined(a, ',', b + [','] + c);
    SplitJoined(b, ',', c);
    JoinIsFree(b, ',', c, '#');
    JoinIsFree(a, ',', b + [','] + c, '#');
  }

  lemma PairRoundTrip(addr: nat, len: nat)
    ensures var s := HexNum(addr) + "," + HexNum(len);
            Split(s, ',') == (HexNum(addr), HexNum(len)) && Free(s, '#')
  {
    HexNumRoundTrip(addr);
    HexNumRoundTrip(len);
    DigitsAreFree(HexNum(addr), ',');
    DigitsAreFree(HexNum(addr), '#');
    DigitsAreFree(HexNum(len), '#');
    SplitJoined(HexNum(addr), ',', HexNum(len));
    JoinIsFree(HexNum(addr), ',', HexNum(len), '#');
  }

  lemma WriteRoundTrip(addr: nat, data: seq<Byte>)
    ensures var s := HexNum(addr) + "," + HexNum(|data|) + ":" + Encoded(data);
            && Free(s, '#')
            && Split(s, ',') == (HexNum(addr), HexNum(|data|) + ":" + Encoded(data))
            && Split(HexNum(|data|) + ":" + Encoded(data), ':') == (HexNum(|data|), Encoded(data))
  {
    var a, n, d := HexNum(addr), HexNum(|data|), Encoded(data);
    HexNumRoundTrip(addr);
    HexNumRoundTrip(|data|);
    DecodeInvertsEncode(data);
    DigitsAreFree(a, ',');
    DigitsAreFree(a, '#');
    DigitsAreFree(n, ':');
    DigitsAreFree(n, '#');
    DigitsAreFree(d, '#');
    JoinsAssociate(a, ',', n, ':', d);
    SplitJoined(a, ',', n + [':'] + d);
    SplitJoined(n, ':', d);
    JoinIsFree(n, ':', d, '#');
    JoinIsFree(a, ',', n + [':'] + d, '#');
  }

  lemma ReadMemoryArguments(addr: nat, len: nat)
    ensures ReadArguments('m', HexNum(addr) + "," + HexNum(len)) == Some(ReadMemory(addr, len))
  {
    PairRoundTrip(addr, len);
    HexNumRoundTrip(addr);
    HexNumRoundTrip(len);
  }

  lemma WriteMemoryArguments(addr: nat, data: seq<Byte>)
    ensures ReadArguments('M', HexNum(addr) + "," + HexNum(|data|) + ":" + Encoded(data)) ==
            Some(WriteMemory(addr, data))
  {
    WriteRoundTrip(addr, data);
    HexNumRoundTrip(addr);
    HexNumRoundTrip(|data|);
    DecodeInvertsEncode(data);
  }

  lemma BreakpointArguments(t: int, addr: nat, kind: int)
    ensures var s := Signed(t) + "," + HexNum(addr) + "," + Signed(kind);
            && ReadArguments('Z', s) == Some(SetBreakpoint(t, addr, kind))
            && ReadArguments('z', s) == Some(RemoveBreakpoint(t, addr, kind))
  {
    TripleRoundTrip(t, addr, kind);
  }

  lemma ArgumentsRoundTrip(r: Request)
    ensures ReadArguments(Letter(r), Arguments(r)) == Some(r)
  {
    match r {
      case ReadMemory(addr, len) => ReadMemoryArguments(addr, len);
      case WriteMemory(addr, data) => WriteMemoryArguments(addr, data);
      case SetBreakpoint(t, addr, kind) => BreakpointArguments(t, addr, kind);
      case RemoveBreakpoint(t, addr, kind) => BreakpointArguments(t, addr, kind);
      case _ =>
    }
  }

  lemma ArgumentsAreHashFree(r: Request)
    ensures Free(Arguments(r), '#')
  {
    match r {
      case ReadMemory(addr, len) => PairRoundTrip(addr, len);
      case WriteMemory(addr, data) => WriteRoundTrip(addr, data);
      case SetBreakpoint(t, addr, kind) => TripleRoundTrip(t, addr, kind);
      case RemoveBreakpoint(t, addr, kind) => TripleRoundTrip(t, addr, kind);
      case _ =>
    }
  }

  /** Every request is read back as itself, and its text never ends a frame early. */
  lemma RequestRoundTrip(r: Request)
    ensures Read(Encode(r)) == Some(r)
    ensures '#' !in Encode(r)
  {
    ArgumentsRoundTrip(r);
    ArgumentsAreHashFree(r);
    assert Encode(r)[1..] == Arguments(r);
  }

  /** Different requests never share an encoding. */
  lemma EncodingIsInjective(r: Request, r': Request)
    requires Encode(r) == Encode(r')
    ensures r == r'
  {
    RequestRoundTrip(r);
    RequestRoundTrip(r');
  }

  function EncodeAll(rs: seq<Request>): seq<string> {
    seq(|rs|, i requires 0 <= i < |rs| => Encode(rs[i]))
  }

  /** Requests framed and sent with acks in between are received as the same requests. */
  lemma RequestsSurviveTheWire(rs: seq<Request>, gaps: seq<string>)
    requires |gaps| == |rs| + 1
    requires forall i :: 0 <= i < |gaps| ==> '$' !in gaps[i]
    ensures var received := Payloads(Transmission(EncodeAll(rs), gaps));
            |received| == |rs| && forall i :: 0 <= i < |rs| ==> Read(received[i]) == Some(rs[i])
  {
    forall i | 0 <= i < |rs|
      ensures Read(EncodeAll(rs)[i]) == Some(rs[i]) && '#' !in EncodeAll(rs)[i]
    {
      RequestRoundTrip(rs[i]);
    }
    FramesArrive(EncodeAll(rs), gaps);
  }

  // ---------- replies ----------

  /** The value of two leading hex digits, or -1. */
  function ParseHexByte(s: string): (v: int)
    ensures -1 <= v < 256
  {
    if |s| < 2 || HexVal(s[0]) < 0 || HexVal(s[1]) < 0 then -1
    else 16 * HexVal(s[0]) + HexVal(s[1])
  }

  function ReplyErrorCode(payload: string): Option<int> {
    if |payload| >= 3 && payload[0] == 'E' && ParseHexByte(payload[1..]) >= 0
    then Some(ParseHexByte(payload[1..])) else None
  }

  /** What the reply to a memory read is taken for: an error report is looked for first. */
  datatype MemoryReply = Contents(bytes: seq<Byte>) | TargetError(code: int) | NotHex

  ghost function MemoryReplyOf(payload: string): MemoryReply {
    var code := ReplyErrorCode(payload);
    if code.Some? then TargetError(code.value)
    else if |payload| % 2 == 0 && AllDigits(payload) then Contents(Decoded(payload))
    else NotHex
  }

  /** What any reply is taken for. */
  lemma AnyMemoryReply(p: string)
    ensures var report := |p| >= 3 && p[0] == 'E' && HexVal(p[1]) >= 0 && HexVal(p[2]) >= 0;
            var hex := |p| % 2 == 0 && forall i :: 0 <= i < |p| ==> HexVal(p[i]) >= 0;
            && (report ==> MemoryReplyOf(p) == TargetError(16 * HexVal(p[1]) + HexVal(p[2])))
            && (!report && hex ==> MemoryReplyOf(p) == Contents(Decoded(p)))
            && (!report && !hex ==> MemoryReplyOf(p) == NotHex)
  {
  }

  /** Hex data is taken for an error report exactly if it is longer than a byte and starts
      with an upper-case E. */
  lemma DataIsErrorIff(s: string)
    requires |s| % 2 == 0 && AllDigits(s)
    ensures ReplyErrorCode(s).Some? <==> |s| > 2 && s[0] == 'E'
  {
  }

  /** For every spelling of every memory contents, a read returns them exactly if they are
      at most one byte or do not start with an upper-case E; else it reports an error whose
      code is the second and third digit. */
  lemma MemoryIsReadIff(s: string, bytes: seq<Byte>)
    requires |s| % 2 == 0 && AllDigits(s) && Decoded(s) == bytes
    ensures MemoryReplyOf(s) == Contents(bytes) <==> |bytes| <= 1 || s[0] != 'E'
    ensures |bytes| > 1 && s[0] == 'E' ==> MemoryReplyOf(s) == TargetError(bytes[0] % 16 * 16 + bytes[1] / 16)
  {
    DataIsErrorIff(s);
    if |bytes| > 1 {
      assert bytes[0] == PairValue(s[2 * 0], s[2 * 0 + 1]) && bytes[1] == PairValue(s[2 * 1], s[2 * 1 + 1]);
    }
  }

  lemma EncodedIsLower(data: seq<Byte>)
    ensures data != [] ==> Encoded(data)[0] != 'E'
  {
    if data != [] {
      DigitPairAt(data, 0);
      assert Encoded(data)[2 * 0] == Digit(data[0] / 16);
    }
  }

  /** Memory sent in lower case is always read as it is. */
  lemma LowerCaseMemoryIsRead(bytes: seq<Byte>)
    ensures MemoryReplyOf(Encoded(bytes)) == Contents(bytes)
  {
    DecodeInvertsEncode(bytes);
    EncodedIsLower(bytes);
    MemoryIsReadIff(Encoded(bytes), bytes);
  }

  /** Two bytes sent in upper case that come out as an error. */
  lemma UpperCaseMemoryIsAnError()
    ensures var s := "E012";
            |s| % 2 == 0 && AllDigits(s) && Decoded(s) == [0xE0, 0x12] && MemoryReplyOf(s) == TargetError(0x01)
  {
    var s := "E012";
    assert Decoded(s)[0] == PairValue(s[0], s[1]) && Decoded(s)[1] == PairValue(s[2], s[3]);
    MemoryIsReadIff(s, [0xE0, 0x12]);
  }

  datatype StopKind = Signal | Exited | Terminated | Output | Unknown

  datatype StopReply = StopReply(kind: StopKind, code: int, info: seq<(string, string)>, output: string)

  /** The key and value of one field; a field without a colon has none. */
  ghost function Field(f: string): seq<(string, string)> {
    var colon := IndexOf(f, ':', 0);
    if colon == |f| then [] else [(f[..colon], f[colon + 1..])]
  }

  /** The pairs of a `;`-separated list. */
  ghost function Fields(s: string): seq<(string, string)>
    decreases |s|
  {
    if s == [] then [] else
      var semi := IndexOf(s, ';', 0);
      Field(s[..semi]) + if semi == |s| then [] else Fields(s[semi + 1..])
  }

  method ParseField(field: string) returns (pairs: seq<(string, string)>)
    ensures pairs == Field(field)
  {
    pairs := [];
    var colon := Find(field, ':', 0);
    if colon != |field| {
      pairs := [(field[..colon], field[colon + 1..])];
    }
  }

  lemma FirstFieldOf(s: string, k: nat, field: string, rest: string)
    requires s != [] && FirstAt(s, ';', 0, k) && field == s[..k]
    requires k < |s| ==> rest == s[k + 1..]
    ensures Fields(s) == Field(field) + if k == |s| then [] else Fields(rest)
  {
    IndexIsUnique(s, ';', 0, k);
  }

  lemma FieldsStep(rest: string, i: nat, semi: nat)
    requires i < |rest| && semi == IndexOf(rest, ';', i)
    ensures Fields(rest[i..]) ==
              Field(rest[i..semi]) + if semi == |rest| then [] else Fields(rest[semi + 1..])
  {
    var t, k := rest[i..], semi - i;
    assert t[..k] == rest[i..semi];
    assert k < |t| ==> t[k + 1..] == rest[semi + 1..];
    FirstFieldOf(t, k, rest[i..semi], if k < |t| then rest[semi + 1..] else "");
  }

  /** The pair list of a `T` reply, read in one left-to-right pass. */
  method ParseFields(rest: string) returns (info: seq<(string, string)>)
    ensures info == Fields(rest)
  {
    info := [];
    ghost var goal := Fields(rest);
    var i := 0;
    assert rest[0..] == rest;
    while i < |rest|
      invariant i <= |rest|
      invariant goal == info + Fields(rest[i..])
    {
      var semi := Find(rest, ';', i);
      FieldsStep(rest, i, semi);
      var pairs := ParseField(rest[i..semi]);
      Associate(info, pairs, if semi == |rest| then [] else Fields(rest[semi + 1..]));
      info := info + pairs;
      if semi == |rest| {
        return;
      }
      i := semi + 1;
    }
  }

  /** What a stop reply says. */
  ghost function StopReplyOf(p: string): StopReply {
    if p == [] then StopReply(Unknown, 0, [], "")
    else if p[0] == 'O' then StopReply(Output, 0, [], p[1..])
    else
      var b := ParseHexByte(p[1..]);
      var code := if b < 0 then 0 else b;
      match p[0]
      case 'S' => StopReply(Signal, code, [], "")
      case 'T' => StopReply(Signal, code, Fields(if |p| > 3 then p[3..] else ""), "")
      case 'W' => StopReply(Exited, code, [], "")
      case 'X' => StopReply(Terminated, code, [], "")
      case _ => StopReply(Unknown, code, [], "")
  }

  method ParseStopReply(p: string) returns (r: StopReply)
    ensures r == StopReplyOf(p)
  {
    r := StopReply(Unknown, 0, [], "");
    if p == [] {
      return;
    }
    var t := p[0];
    if t == 'O' {
      return r.(kind := Output, output := p[1..]);
    }
    var code := ParseHexByte(p[1..]);
    r := r.(code := if code < 0 then 0 else code);
    match t {
      case 'S' =>
        r := r.(kind := Signal);
      case 'T' =>
        r := r.(kind := Signal);
        var info := ParseFields(if |p| > 3 then p[3..] else "");
        r := r.(info := info);
      case 'W' =>
        r := r.(kind := Exited);
      case 'X' =>
        r := r.(kind := Terminated);
      case _ =>
    }
  }

  // ---------- replies of every kind ----------

  /** The code after the letter, in digits of either case, and whatever follows it. */
  lemma CodeIsRead(letter: char, hi: char, lo: char, rest: string)
    requires HexVal(hi) >= 0 && HexVal(lo) >= 0
    ensures ParseHexByte(([letter, hi, lo] + rest)[1..]) == 16 * HexVal(hi) + HexVal(lo)
  {
  }

  lemma SignalReply(code: Byte, rest: string)
    ensures StopReplyOf("S" + [Digit(code / 16), Digit(code % 16)] + rest) == StopReply(Signal, code, [], "")
  {
    CodeIsRead('S', Digit(code / 16), Digit(code % 16), rest);
    DigitsOfByte(code);
    assert "S" + [Digit(code / 16), Digit(code % 16)] + rest == ['S', Digit(code / 16), Digit(code % 16)] + rest;
  }

  lemma ExitReply(code: Byte, rest: string)
    ensures StopReplyOf("W" + [Digit(code / 16), Digit(code % 16)] + rest) == StopReply(Exited, code, [], "")
  {
    CodeIsRead('W', Digit(code / 16), Digit(code % 16), rest);
    DigitsOfByte(code);
    assert "W" + [Digit(code / 16), Digit(code % 16)] + rest == ['W', Digit(code / 16), Digit(code % 16)] + rest;
  }

  lemma TerminationReply(code: Byte, rest: string)
    ensures StopReplyOf("X" + [Digit(code / 16), Digit(code % 16)] + rest) == StopReply(Terminated, code, [], "")
  {
    CodeIsRead('X', Digit(code / 16), Digit(code % 16), rest);
    DigitsOfByte(code);
    assert "X" + [Digit(code / 16), Digit(code % 16)] + rest == ['X', Digit(code / 16), Digit(code % 16)] + rest;
  }

  /** Console output is passed on as it is. */
  lemma OutputReply(text: string)
    ensures StopReplyOf("O" + text) == StopReply(Output, 0, [], text)
  {
    assert ("O" + text)[1..] == text;
  }

  /** Every text: the letter gives the kind, only `O` carries output, only `T` pairs, and a
      missing or malformed code is 0. */
  lemma AnyReply(p: string)
    ensures var r := StopReplyOf(p);
            && (p == "" ==> r == StopReply(Unknown, 0, [], ""))
            && (p != "" ==>
                  && (r.kind == Signal <==> p[0] == 'S' || p[0] == 'T')
                  && (r.kind == Exited <==> p[0] == 'W') && (r.kind == Terminated <==> p[0] == 'X')
                  && (r.kind == Output <==> p[0] == 'O')
                  && (p[0] != 'O' ==> r.output == "") && (p[0] != 'T' || |p| <= 3 ==> r.info == [])
                  && (p[0] == 'O' || |p| < 3 || HexVal(p[1]) < 0 || HexVal(p[2]) < 0 ==> r.code == 0)
                  && (p[0] != 'O' && |p| >= 3 && HexVal(p[1]) >= 0 && HexVal(p[2]) >= 0 ==>
                        r.code == 16 * HexVal(p[1]) + HexVal(p[2])))
  {
  }

  lemma FieldsOfFirst(f: string, rest: string)
    requires Free(f, ';') && f != []
    ensures Fields(f) == Field(f)
    ensures Fields(f + ";" + rest) == Field(f) + Fields(rest)
  {
    IndexIsUnique(f, ';', 0, |f|);
    var s := f + ";" + rest;
    IndexIsUnique(s, ';', 0, |f|);
    assert s[..|f|] == f && s[|f| + 1..] == rest && f[..|f|] == f;
  }

  /** A field without a colon gives no pair. */
  lemma FieldWithoutColon(f: string, rest: string)
    requires Free(f, ':') && Free(f, ';') && f != []
    ensures Fields(f + ";" + rest) == Fields(rest) && Fields(f) == []
  {
    FieldsOfFirst(f, rest);
    IndexIsUnique(f, ':', 0, |f|);
  }

  /** The error report of every text: an `E`, two digits of either case, then anything. */
  lemma ErrorReportIff(p: string)
    ensures ReplyErrorCode(p).Some? <==> |p| >= 3 && p[0] == 'E' && HexVal(p[1]) >= 0 && HexVal(p[2]) >= 0
    ensures ReplyErrorCode(p).Some? ==> ReplyErrorCode(p).value == 16 * HexVal(p[1]) + HexVal(p[2])
  {
  }

  // ---------- printing `T` replies ----------

  function PrintPair(kv: (string, string)): string {
    kv.0 + ":" + kv.1
  }

  /** The pairs with a `;` after each, the last one's being optional. */
  function PrintPairs(info: seq<(string, string)>, closed: bool): string {
    if info == [] then ""
    else if |info| == 1 then PrintPair(info[0]) + if closed then ";" else ""
    else PrintPair(info[0]) + ";" + PrintPairs(info[1..], closed)
  }

  function PrintStop(signal: Byte, info: seq<(string, string)>, closed: bool): string {
    "T" + [Digit(signal / 16), Digit(signal % 16)] + PrintPairs(info, closed)
  }

  ghost predicate CleanPair(kv: (string, string)) {
    Free(kv.0, ':') && Free(kv.0, ';') && Free(kv.1, ';')
  }

  ghost predicate Clean(info: seq<(string, string)>) {
    forall i :: 0 <= i < |info| ==> CleanPair(info[i])
  }

  lemma FieldOfPair(kv: (string, string))
    requires CleanPair(kv)
    ensures Field(PrintPair(kv)) == [kv] && Free(PrintPair(kv), ';') && PrintPair(kv) != []
  {
    var s := PrintPair(kv);
    IndexIsUnique(s, ':', 0, |kv.0|);
    assert s[..|kv.0|] == kv.0 && s[|kv.0| + 1..] == kv.1;
  }

  lemma {:induction false} FieldsOfPrinted(info: seq<(string, string)>, closed: bool)
    requires Clean(info)
    ensures Fields(PrintPairs(info, closed)) == info
    decreases |info|
  {
    if info != [] {
      var f := PrintPair(info[0]);
      FieldOfPair(info[0]);
      if |info| == 1 {
        FieldsOfFirst(f, "");
        assert f + ";" + "" == f + ";" && f + "" == f;
      } else {
        FieldsOfFirst(f, PrintPairs(info[1..], closed));
        FieldsOfPrinted(info[1..], closed);
      }
    }
  }

  lemma FieldIsClean(f: string)
    requires Free(f, ';')
    ensures Clean(Field(f))
  {
  }

  /** Whatever the text, the pairs read from it are clean. */
  lemma {:induction false} FieldsAreClean(s: string)
    ensures Clean(Fields(s))
    decreases |s|
  {
    if s != [] {
      var semi := IndexOf(s, ';', 0);
      FieldIsClean(s[..semi]);
      if semi < |s| { FieldsAreClean(s[semi + 1..]); }
    }
  }

  /** The parser gives back the signal and the pairs that were printed, with or without
      the final `;`, exactly if no key holds `:` or `;` and no value holds `;`. */
  lemma StopReplyRoundTrip(signal: Byte, info: seq<(string, string)>, closed: bool)
    ensures StopReplyOf(PrintStop(signal, info, closed)) == StopReply(Signal, signal, info, "") <==> Clean(info)
  {
    var p := PrintStop(signal, info, closed);
    var pairs := PrintPairs(info, closed);
    assert p[1] == Digit(signal / 16) && p[2] == Digit(signal % 16);
    assert ParseHexByte(p[1..]) == signal by { DigitsOfByte(signal); }
    assert (if |p| > 3 then p[3..] else "") == pairs;
    FieldsAreClean(pairs);
    if Clean(info) { FieldsOfPrinted(info, closed); }
  }
}
