/** Scanning a byte image for ASCII and UTF-16LE strings. */
module StringScan {
  import opened Octets

  datatype FoundString = FoundString(addr: nat, text: seq<Byte>, utf16: bool)

  predicate IsPrintable(c: Byte) {
    0x20 <= c <= 0x7E
  }

  /** A UTF-16LE code unit for a printable character starts at `i`. */
  predicate WideAt(data: seq<Byte>, i: int) {
    0 <= i && i + 1 < |data| && data[i + 1] == 0 && IsPrintable(data[i])
  }

  ghost predicate AllPrintable(data: seq<Byte>, s: nat, e: nat)
    requires e <= |data|
  {
    forall k :: s <= k < e ==> IsPrintable(data[k])
  }

  /** Nothing before `s` and nothing at `e` extends the printable bytes between them. */
  ghost predicate IsSegment(data: seq<Byte>, s: nat, e: nat) {
    && s <= e <= |data| && s < |data| && AllPrintable(data, s, e)
    && (s == 0 || !IsPrintable(data[s - 1]))
    && (e == |data| || !IsPrintable(data[e]))
  }

  /** A maximal run of printable bytes. */
  ghost predicate IsMaximalRun(data: seq<Byte>, s: nat, e: nat) {
    && s < e <= |data| && (forall k :: s <= k < e ==> 0x20 <= data[k] <= 0x7E)
    && !(s > 0 && 0x20 <= data[s - 1] <= 0x7E) && !(e < |data| && 0x20 <= data[e] <= 0x7E)
  }

  ghost predicate AllWide(data: seq<Byte>, s: nat, e: nat) {
    forall k {:trigger WideAt(data, k)} :: s <= k < e && (k - s) % 2 == 0 ==> WideAt(data, k)
  }

  /** Code units fill `s` to `e`, none follows, none precedes, and `s` is not the second
      byte of one. */
  ghost predicate IsWideSegment(data: seq<Byte>, s: nat, e: nat) {
    && s <= e && s + 1 < |data| && (e - s) % 2 == 0 && AllWide(data, s, e) && !WideAt(data, e)
    && !WideAt(data, s - 1)
    && (s < e ==> !WideAt(data, s - 2))
  }

  /** A printable character's byte, then a zero byte. */
  ghost predicate IsUnit(data: seq<Byte>, k: int)
    requires 0 <= k && k + 1 < |data|
  {
    0x20 <= data[k] <= 0x7E && data[k + 1] == 0
  }

  /** A maximal run of code units: it cannot be extended by a unit at either end. */
  ghost predicate IsMaximalWideRun(data: seq<Byte>, s: nat, e: nat) {
    && s < e <= |data| && (e - s) % 2 == 0
    && (forall k :: s <= k < e && (k - s) % 2 == 0 ==> IsUnit(data, k))
    && !(s >= 2 && IsUnit(data, s - 2)) && !(e + 1 < |data| && IsUnit(data, e))
  }

  ghost function WideText(data: seq<Byte>, s: nat, e: nat): seq<Byte>
    requires s <= e <= |data|
  {
    seq((e - s) / 2, i requires 0 <= i < (e - s) / 2 => data[s + 2 * i])
  }

  /** The text of code units is every other byte; zeros stand between. */
  lemma WideTextIsEveryOther(data: seq<Byte>, s: nat, e: nat, i: nat)
    requires s <= e <= |data| && (e - s) % 2 == 0 && AllWide(data, s, e)
    ensures 2 * |WideText(data, s, e)| == e - s
    ensures i < |WideText(data, s, e)| ==>
              data[s + 2 * i] == WideText(data, s, e)[i] && data[s + 2 * i + 1] == 0
  {
    if s + 2 * i < e {
      assert (s + 2 * i - s) % 2 == 0;
      assert WideAt(data, s + 2 * i);
    }
  }

  /** Code units never start at neighbouring bytes, so runs at odd offsets cannot
      interleave: this is why skipping to the end of a run misses nothing. */
  lemma UnitsDoNotInterleave(data: seq<Byte>, i: nat)
    requires WideAt(data, i)
    ensures !WideAt(data, i + 1)
    ensures !WideAt(data, i - 1)
  {
  }

  lemma PrintableExtends(data: seq<Byte>, s: nat, e: nat)
    requires e <= |data|
    ensures 0 < s < e && AllPrintable(data, s, e) ==>
              (IsPrintable(data[s - 1]) <==> AllPrintable(data, s - 1, e))
    ensures s < e < |data| && AllPrintable(data, s, e) ==>
              (IsPrintable(data[e]) <==> AllPrintable(data, s, e + 1))
  {
  }

  lemma UnitInside(data: seq<Byte>, s: nat, e: nat, k: int)
    ensures AllWide(data, s, e) && s <= k < e && (k - s) % 2 == 0 ==> WideAt(data, k)
  {
  }

  lemma WideAreUnits(data: seq<Byte>, s: nat, e: nat)
    requires e <= |data| && (e - s) % 2 == 0
    ensures AllWide(data, s, e) <==> forall k :: s <= k < e && (k - s) % 2 == 0 ==> IsUnit(data, k)
  {
    if AllWide(data, s, e) {
      forall k | s <= k < e && (k - s) % 2 == 0 ensures IsUnit(data, k) {
        assert WideAt(data, k);
      }
    } else {
      var k :| s <= k < e && (k - s) % 2 == 0 && !WideAt(data, k);
      assert !IsUnit(data, k);
    }
  }

  /** For a positive minimum the segments that count are the maximal runs. */
  lemma SegmentsAreMaximalRuns(data: seq<Byte>, s: nat, e: nat)
    ensures s < e && IsSegment(data, s, e) <==> IsMaximalRun(data, s, e)
    ensures s < e && IsWideSegment(data, s, e) <==> IsMaximalWideRun(data, s, e)
  {
    if e <= |data| { PrintableExtends(data, s, e); }
    UnitInside(data, s, e, s);
    UnitInside(data, s, e, e - 2);
    if e <= |data| && (e - s) % 2 == 0 { WideAreUnits(data, s, e); }
  }

  /** The strings for a list of spans. */
  ghost predicate Reports(out: seq<FoundString>, data: seq<Byte>, base: nat, spans: seq<(nat, nat)>, utf16: bool) {
    && |out| == |spans|
    && forall i :: 0 <= i < |spans| ==>
         && spans[i].0 <= spans[i].1 <= |data|
         && out[i] == FoundString(base + spans[i].0,
                                  if utf16 then WideText(data, spans[i].0, spans[i].1)
                                  else data[spans[i].0..spans[i].1], utf16)
  }

  ghost predicate Increasing(spans: seq<(nat, nat)>) {
    forall i, j :: 0 <= i < j < |spans| ==> spans[i].0 < spans[j].0
  }

  /** `out` holds the strings of exactly the spans in `wanted`, each once, in increasing order. */
  ghost predicate ListsExactly(out: seq<FoundString>, data: seq<Byte>, base: nat, utf16: bool,
                               wanted: iset<(nat, nat)>) {
    exists spans ::
      && Reports(out, data, base, spans, utf16) && Increasing(spans)
      && forall s: nat, e: nat :: (s, e) in spans <==> (s, e) in wanted
  }

  ghost function Segments(data: seq<Byte>, minLen: nat): iset<(nat, nat)> {
    iset s: nat, e: nat | IsSegment(data, s, e) && e - s >= minLen :: (s, e)
  }

  ghost function WideSegments(data: seq<Byte>, minLen: nat): iset<(nat, nat)> {
    iset s: nat, e: nat | IsWideSegment(data, s, e) && (e - s) / 2 >= minLen :: (s, e)
  }

  ghost function MaximalRuns(data: seq<Byte>, minLen: nat): iset<(nat, nat)> {
    iset s: nat, e: nat | IsMaximalRun(data, s, e) && e - s >= minLen :: (s, e)
  }

  ghost function MaximalWideRuns(data: seq<Byte>, minLen: nat): iset<(nat, nat)> {
    iset s: nat, e: nat | IsMaximalWideRun(data, s, e) && (e - s) / 2 >= minLen :: (s, e)
  }

  lemma SegmentsDoNotOverlap(data: seq<Byte>, s: nat, e: nat, s': nat, e': nat)
    requires IsSegment(data, s, e) && IsSegment(data, s', e') && s' <= e <= e'
    ensures s == s' && e == e'
  {
  }

  method ScanAscii(data: seq<Byte>, base: nat, minLen: nat) returns (out: seq<FoundString>)
    ensures ListsExactly(out, data, base, false, Segments(data, minLen))
  {
    out := [];
    ghost var spans: seq<(nat, nat)> := [];
    var n := |data|;
    var i: nat := 0;
    while i < n
      invariant i <= n + 1
      invariant 0 < i <= n ==> !IsPrintable(data[i - 1])
      invariant Reports(out, data, base, spans, false) && Increasing(spans)
      invariant forall s: nat, e: nat ::
                  (s, e) in spans <==> IsSegment(data, s, e) && e - s >= minLen && e < i
    {
      var start := i;
      while i < n && IsPrintable(data[i])
        invariant start <= i <= n && AllPrintable(data, start, i)
      {
        i := i + 1;
      }
      var len := i - start;
      assert IsSegment(data, start, i);
      forall s: nat, e: nat | IsSegment(data, s, e) && start <= e <= i
        ensures s == start && e == i
      {
        SegmentsDoNotOverlap(data, s, e, start, i);
      }
      if len >= minLen {
        out := out + [FoundString(base + start, data[start..start + len], false)];
        spans := spans + [(start, i)];
      }
      i := i + 1;
    }
  }

  /** Reads code units from `start` on, as long as they last. */
  method ReadWide(data: seq<Byte>, start: nat) returns (text: seq<Byte>, j: nat)
    requires start + 1 < |data|
    ensures start <= j <= |data| && (j - start) % 2 == 0 && AllWide(data, start, j) && !WideAt(data, j)
    ensures text == WideText(data, start, j)
  {
    text, j := [], start;
    while j + 1 < |data|
      invariant start <= j <= |data| && (j - start) % 2 == 0 && AllWide(data, start, j)
      invariant text == WideText(data, start, j)
      decreases |data| - j
    {
      var lo, hi := data[j], data[j + 1];
      if hi != 0x00 || !IsPrintable(lo) {
        break;
      }
      text := text + [lo];
      j := j + 2;
    }
  }

  lemma WideSegmentsDoNotOverlap(data: seq<Byte>, s: nat, e: nat, s': nat, e': nat)
    requires IsWideSegment(data, s, e) && IsWideSegment(data, s', e')
    requires s' <= s && (s < e' || s == s')
    ensures s == s' && e == e'
  {
    UnitInside(data, s', e', s);
    UnitInside(data, s', e', s - 1);
    UnitInside(data, s', e', s - 2);
    UnitInside(data, s', e', e);
    UnitInside(data, s, e, e');
  }

  lemma LastUnit(data: seq<Byte>, s: nat, e: nat)
    requires s < e && (e - s) % 2 == 0 && AllWide(data, s, e)
    ensures e >= 2 && WideAt(data, e - 2) && !WideAt(data, e - 1)
  {
    assert (e - 2 - s) % 2 == 0;
  }

  method ScanWide(data: seq<Byte>, base: nat, minLen: nat) returns (out: seq<FoundString>)
    ensures ListsExactly(out, data, base, true, WideSegments(data, minLen))
  {
    out := [];
    ghost var spans: seq<(nat, nat)> := [];
    var n := |data|;
    var i: nat := 0;
    while i + 1 < n
      invariant !WideAt(data, i - 1)
      invariant WideAt(data, i - 2) ==> !WideAt(data, i)
      invariant Reports(out, data, base, spans, true) && Increasing(spans)
      invariant forall s: nat, e: nat ::
                  (s, e) in spans <==> IsWideSegment(data, s, e) && (e - s) / 2 >= minLen && s < i
      decreases n - i
    {
      var start := i;
      var text, j := ReadWide(data, start);
      assert IsWideSegment(data, start, j);
      var next := if j > i then j else i + 1;
      forall s: nat, e: nat | IsWideSegment(data, s, e) && start <= s < next
        ensures s == start && e == j
      {
        WideSegmentsDoNotOverlap(data, s, e, start, j);
      }
      if |text| >= minLen {
        out := out + [FoundString(base + start, text, true)];
        spans := spans + [(start, j)];
      }
      if j > i { LastUnit(data, start, j); }
      i := next;
    }
  }

  /** All ASCII strings in increasing order, then all UTF-16LE strings in increasing order. */
  method ScanStrings(data: seq<Byte>, base: nat, minLen: nat) returns (out: seq<FoundString>)
    ensures exists k ::
              && 0 <= k <= |out|
              && ListsExactly(out[..k], data, base, false, Segments(data, minLen))
              && ListsExactly(out[k..], data, base, true, WideSegments(data, minLen))
    ensures minLen > 0 ==>
              exists k ::
                && 0 <= k <= |out|
                && ListsExactly(out[..k], data, base, false, MaximalRuns(data, minLen))
                && ListsExactly(out[k..], data, base, true, MaximalWideRuns(data, minLen))
  {
    var first := ScanAscii(data, base, minLen);
    var second := ScanWide(data, base, minLen);
    out := first + second;
    assert out[..|first|] == first && out[|first|..] == second;
    forall s: nat, e: nat { SegmentsAreMaximalRuns(data, s, e); }
    assert minLen > 0 ==> Segments(data, minLen) == MaximalRuns(data, minLen);
    assert minLen > 0 ==> WideSegments(data, minLen) == MaximalWideRuns(data, minLen);
  }
}
