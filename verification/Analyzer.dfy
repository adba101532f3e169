/** Whole-program analysis: every direct call target becomes a function entry. */
module ProgramAnalysis {
  import opened CodeImage
  import opened OrderedSets
  import opened FunctionBuilding
  import opened FunctionProperties
  import opened FlowGraphs
  import opened FunctionDiscovery

  /** The reachable instructions of the function at `f`. */
  ghost function CodeOf(img: Image, f: nat): set<nat> {
    Code(FinalBlocks(Built(img, f)))
  }

  /** Code reachable from `f` without entering a call holds a direct call of `c`. */
  ghost predicate Calls(img: Image, f: nat, c: nat) {
    exists a :: Reaches(img, f, a) && IsCall(img, a, c)
  }

  /** Code reachable from `f` without entering a call makes the reference `x`. */
  ghost predicate Refers(img: Image, f: nat, x: Xref) {
    Reaches(img, f, x.from) && IsReference(img, x)
  }

  /** `t` holds every nonzero entry point and every direct call target of its members. */
  ghost predicate ClosedUnderCalls(img: Image, entries: seq<nat>, t: set<nat>) {
    && (forall e :: e in entries && e != 0 ==> e in t)
    && forall f, c :: f in t && Calls(img, f, c) ==> c in t
  }

  ghost predicate IsLeastCallClosed(img: Image, entries: seq<nat>, s: set<nat>) {
    && ClosedUnderCalls(img, entries, s)
    && forall t :: ClosedUnderCalls(img, entries, t) ==> s <= t
  }

  function Addresses(fs: seq<Function>): seq<nat> {
    seq(|fs|, i requires 0 <= i < |fs| => fs[i].addr)
  }

  function AddressSet(fs: seq<Function>): set<nat> {
    set a | a in Addresses(fs)
  }

  /** Each function is the one recursive descent finds at its address. */
  ghost predicate AllFaithful(img: Image, fs: seq<Function>) {
    forall f :: f in fs ==> f == FunctionAt(img, f.addr)
  }

  lemma CalleesAreOfCode(img: Image, f: nat, c: nat)
    requires f != 0
    ensures c in FunctionAt(img, f).callees <==> CallsFrom(img, CodeOf(img, f), c)
  {
    ReferencesAreExact(img, f);
  }

  lemma CodeIsReachableCode(img: Image, f: nat)
    requires f != 0
    ensures forall a :: a in CodeOf(img, f) <==> a in img && Reaches(img, f, a)
  {
    SplittingKeepsCode(img, f);
  }

  lemma CallsAreOfCode(img: Image, f: nat, code: set<nat>, c: nat)
    requires forall a :: a in code <==> a in img && Reaches(img, f, a)
    ensures CallsFrom(img, code, c) <==> Calls(img, f, c)
    ensures Calls(img, f, c) ==> c != 0
  {
    if Calls(img, f, c) {
      var a :| Reaches(img, f, a) && IsCall(img, a, c);
      assert a in code;
    }
  }

  lemma CalleesAreCalls(img: Image, f: nat, c: nat)
    requires f != 0
    ensures c in FunctionAt(img, f).callees <==>
            exists a :: a in img && Reaches(img, f, a) && img[a].flow.Call? && c == img[a].target != 0
    ensures c in FunctionAt(img, f).callees <==> Calls(img, f, c)
    ensures Calls(img, f, c) ==> c != 0
  {
    CalleesAreOfCode(img, f, c);
    CodeIsReachableCode(img, f);
    CallsAreOfCode(img, f, CodeOf(img, f), c);
  }

  lemma XrefsAreReferences(img: Image, f: nat, x: Xref)
    requires f != 0
    ensures x in Built(img, f).xrefs <==>
              && x.from in img && Reaches(img, f, x.from) && x.to == img[x.from].target != 0
              && ((x.kind == CallRef && img[x.from].flow.Call?) ||
                  (x.kind == JumpRef && (img[x.from].flow.Jump? || img[x.from].flow.CondJump?)))
  {
    ReferencesAreExact(img, f);
    CodeIsReachableCode(img, f);
  }

  /** The entry always gets a block, even where nothing decodes, so no function is dropped. */
  lemma EveryFunctionHasBlocks(img: Image, f: nat)
    requires f != 0
    ensures FunctionAt(img, f).blocks != []
  {
    FinalBlocksFormFlowGraph(img, f);
    assert f in Elements(FinalBlocks(Built(img, f)).Keys);
  }

  /** The whole result is fixed by the set of nonzero entry points: neither their order
      nor repetitions matter. */
  lemma OrderOfEntriesIsIrrelevant(img: Image, es: seq<nat>, fs: seq<Function>, es': seq<nat>, fs': seq<Function>)
    requires IsLeastCallClosed(img, es, AddressSet(fs)) && AllFaithful(img, fs) && Ascending(Addresses(fs))
    requires IsLeastCallClosed(img, es', AddressSet(fs')) && AllFaithful(img, fs') && Ascending(Addresses(fs'))
    requires forall e :: e != 0 ==> (e in es <==> e in es')
    ensures fs == fs'
  {
    assert ClosedUnderCalls(img, es, AddressSet(fs')) && ClosedUnderCalls(img, es', AddressSet(fs));
    assert AddressSet(fs) == AddressSet(fs');
    forall x ensures x in Addresses(fs) <==> x in Addresses(fs') {
      assert x in Addresses(fs) <==> x in AddressSet(fs);
      assert x in Addresses(fs') <==> x in AddressSet(fs');
    }
    AscendingIsUnique(Addresses(fs), Addresses(fs'));
    assert |fs| == |Addresses(fs)| == |fs'|;
    forall i | 0 <= i < |fs| ensures fs[i] == fs'[i] {
      assert fs[i] in fs && fs'[i] in fs';
      assert Addresses(fs)[i] == Addresses(fs')[i];
    }
  }

  lemma InsertAt(fn: Function, fs: seq<Function>, i: nat)
    requires i <= |fs| && Ascending(Addresses(fs))
    requires forall k :: 0 <= k < i ==> fs[k].addr < fn.addr
    requires i < |fs| ==> fn.addr < fs[i].addr
    ensures var out := fs[..i] + [fn] + fs[i..];
            Ascending(Addresses(out)) && AddressSet(out) == AddressSet(fs) + {fn.addr}
  {
    var p, q := Addresses(fs), Addresses(fs[..i] + [fn] + fs[i..]);
    assert q == p[..i] + [fn.addr] + p[i..];
    forall k | i <= k < |p| ensures fn.addr < p[k] {
      assert p[i] <= p[k];
    }
    assert p == p[..i] + p[i..];
    assert forall a :: a in q <==> a in p || a == fn.addr;
  }

  lemma OneMoreAddress(fs: seq<Function>, fn: Function)
    ensures AddressSet(fs + [fn]) == AddressSet(fs) + {fn.addr}
    ensures (forall k :: 0 <= k < |fs| ==> fs[k].addr != fn.addr) ==> fn.addr !in AddressSet(fs)
    ensures fn.addr !in AddressSet(fs) ==> forall k :: 0 <= k < |fs| ==> fs[k].addr != fn.addr
  {
    assert Addresses(fs + [fn]) == Addresses(fs) + [fn.addr];
    assert forall k :: 0 <= k < |fs| ==> fs[k].addr == Addresses(fs)[k];
  }

  // ---------- the invariant of the outer worklist ----------

  /** Every address ever queued is analyzed, waiting, or 0. */
  ghost predicate Accounted(entries: seq<nat>, work: seq<nat>, queued: set<nat>, analyzed: set<nat>) {
    && (forall e :: e in entries ==> e in queued)
    && (forall q :: q in queued ==> q == 0 || q in analyzed || q in work)
    && (forall q :: q in analyzed || q in work ==> q in queued)
    && 0 !in analyzed
  }

  lemma PopIsAccounted(entries: seq<nat>, work: seq<nat>, queued: set<nat>, analyzed: set<nat>)
    requires Accounted(entries, work, queued, analyzed) && work != []
    ensures work[0] in queued
    ensures work[0] == 0 || work[0] in analyzed ==> Accounted(entries, work[1..], queued, analyzed)
    ensures work[0] != 0 ==> Accounted(entries, work[1..], queued, analyzed + {work[0]})
  {
    assert forall q :: q in work <==> q == work[0] || q in work[1..];
  }

  /** The functions found so far: one per analyzed address, in order of discovery. */
  ghost predicate Found(img: Image, fs: seq<Function>, analyzed: set<nat>) {
    && AllFaithful(img, fs) && AddressSet(fs) == analyzed
    && forall i, j :: 0 <= i < j < |fs| ==> fs[i].addr != fs[j].addr
  }

  lemma OneMoreFound(img: Image, fs: seq<Function>, analyzed: set<nat>, f: nat)
    requires Found(img, fs, analyzed) && f !in analyzed
    ensures Found(img, fs + [FunctionAt(img, f)], analyzed + {f})
  {
    OneMoreAddress(fs, FunctionAt(img, f));
  }

  /** No address is queued but those every closed set needs. */
  ghost predicate OnlyNeeded(img: Image, entries: seq<nat>, queued: set<nat>) {
    forall t :: ClosedUnderCalls(img, entries, t) ==> queued - {0} <= t
  }

  ghost predicate CalleesQueued(img: Image, queued: set<nat>, analyzed: set<nat>) {
    forall f, c :: f in analyzed && Calls(img, f, c) ==> c in queued
  }

  /** The references are those of the analyzed functions' instructions. */
  ghost predicate XrefsCollected(img: Image, xrefs: seq<Xref>, analyzed: set<nat>) {
    forall x :: x in xrefs <==> exists f :: f in analyzed && Refers(img, f, x)
  }

  lemma NeededStaysNeeded(img: Image, entries: seq<nat>, queued: set<nat>, f: nat, more: set<nat>)
    requires OnlyNeeded(img, entries, queued) && f in queued && f != 0
    requires forall c :: c in more ==> Calls(img, f, c)
    ensures OnlyNeeded(img, entries, queued + more)
  {
    forall t | ClosedUnderCalls(img, entries, t)
      ensures queued + more - {0} <= t
    {
      assert f in t;
    }
  }

  lemma XrefsGrow(img: Image, xrefs: seq<Xref>, analyzed: set<nat>, f: nat)
    requires XrefsCollected(img, xrefs, analyzed) && f != 0
    ensures XrefsCollected(img, xrefs + Built(img, f).xrefs, analyzed + {f})
  {
    forall x
      ensures x in xrefs + Built(img, f).xrefs <==>
              exists g :: g in analyzed + {f} && Refers(img, g, x)
    {
      XrefsAreReferences(img, f, x);
      if x in xrefs {
        var g :| g in analyzed && Refers(img, g, x);
        assert g in analyzed + {f};
      }
    }
  }

  lemma EmptyWorkIsLeast(img: Image, entries: seq<nat>, queued: set<nat>, analyzed: set<nat>)
    requires Accounted(entries, [], queued, analyzed) && OnlyNeeded(img, entries, queued)
    requires CalleesQueued(img, queued, analyzed)
    ensures IsLeastCallClosed(img, entries, analyzed)
  {
    forall f, c | f in analyzed && Calls(img, f, c)
      ensures c in analyzed
    {
      CalleesAreCalls(img, f, c);
    }
  }

  lemma CalleesAreMentioned(img: Image, f: nat, c: nat)
    requires Calls(img, f, c)
    ensures c in Mentioned(img)
  {
    var a :| Reaches(img, f, a) && IsCall(img, a, c);
    assert c == img[a].target;
  }

  /** Queueing the callees of `f` keeps the queue exact and within reach of the loop measure. */
  lemma CalleesAreQueued(img: Image, entries: seq<nat>, queued: set<nat>, f: nat, callees: seq<nat>)
    requires OnlyNeeded(img, entries, queued) && f in queued && f != 0
    requires callees == FunctionAt(img, f).callees
    ensures var more := set c | c in callees;
            && OnlyNeeded(img, entries, queued + more)
            && (forall c :: Calls(img, f, c) ==> c in more)
            && (queued + more != queued ==>
                  |Mentioned(img) - (queued + more)| < |Mentioned(img) - queued|)
  {
    var more := set c | c in callees;
    forall c ensures c in more <==> Calls(img, f, c) {
      CalleesAreCalls(img, f, c);
    }
    NeededStaysNeeded(img, entries, queued, f, more);
    forall c | c in more ensures c in Mentioned(img) {
      CalleesAreMentioned(img, f, c);
    }
    ShrinksWhenGrown(Mentioned(img), queued, queued + more);
  }

  class Analyzer {
    const img: Image

    constructor (img: Image)
      ensures this.img == img
    {
      this.img := img;
    }

    method Insert(fn: Function, fs: seq<Function>) returns (out: seq<Function>)
      requires Ascending(Addresses(fs)) && fn.addr !in AddressSet(fs)
      ensures Ascending(Addresses(out)) && forall f :: f in out <==> f in fs || f == fn
      ensures AddressSet(out) == AddressSet(fs) + {fn.addr}
    {
      var i := 0;
      while i < |fs| && fs[i].addr < fn.addr
        invariant i <= |fs|
        invariant forall k :: 0 <= k < i ==> fs[k].addr < fn.addr
      {
        i := i + 1;
      }
      assert i < |fs| ==> Addresses(fs)[i] in Addresses(fs);
      InsertAt(fn, fs, i);
      out := fs[..i] + [fn] + fs[i..];
      assert fs == fs[..i] + fs[i..];
    }

    method SortByAddress(fs: seq<Function>) returns (out: seq<Function>)
      requires forall i, j :: 0 <= i < j < |fs| ==> fs[i].addr != fs[j].addr
      ensures Ascending(Addresses(out)) && AddressSet(out) == AddressSet(fs)
      ensures forall f :: f in out <==> f in fs
    {
      out := [];
      for i := 0 to |fs|
        invariant Ascending(Addresses(out)) && AddressSet(out) == AddressSet(fs[..i])
        invariant forall f :: f in out <==> f in fs[..i]
      {
        assert fs[..i + 1] == fs[..i] + [fs[i]];
        OneMoreAddress(fs[..i], fs[i]);
        out := Insert(fs[i], out);
      }
      assert fs[..|fs|] == fs;
    }

    /** Queues the callees that were never queued before. */
    method EnqueueAll(callees: seq<nat>, work: seq<nat>, queued: set<nat>)
      returns (work': seq<nat>, queued': set<nat>)
      ensures queued' == queued + set c | c in callees
      ensures forall q :: q in work' <==> q in work || (q in callees && q !in queued)
      ensures queued' == queued ==> work' == work
    {
      work', queued' := work, queued;
      for i := 0 to |callees|
        invariant queued' == queued + set c | c in callees[..i]
        invariant forall q :: q in work' <==> q in work || (q in callees[..i] && q !in queued)
        invariant queued' == queued ==> work' == work
      {
        assert callees[..i + 1] == callees[..i] + [callees[i]];
        var callee := callees[i];
        if callee !in queued' {
          queued', work' := queued' + {callee}, work' + [callee];
        }
      }
      assert callees[..|callees|] == callees;
    }

    /** Builds the function at `entry` and appends its references. */
    method AnalyzeFunction(entry: nat, outXrefs: seq<Xref>) returns (fn: Function, xrefs: seq<Xref>)
      requires entry != 0
      ensures fn == FunctionAt(img, entry) && fn.blocks != []
      ensures xrefs == outXrefs + Built(img, entry).xrefs
    {
      var builder := new FunctionBuilder(img);
      var callees;
      fn, callees, xrefs := builder.Build(entry, outXrefs);
      EveryFunctionHasBlocks(img, entry);
      callees := Traverse(set c | c in callees);
      fn := fn.(callees := callees);
    }

    method Analyze(entryPoints: seq<nat>) returns (functions: seq<Function>, xrefs: seq<Xref>)
      ensures Ascending(Addresses(functions)) && AllFaithful(img, functions)
      ensures IsLeastCallClosed(img, entryPoints, AddressSet(functions))
      ensures XrefsCollected(img, xrefs, AddressSet(functions))
    {
      functions, xrefs := [], [];
      var analyzed: set<nat> := {};
      var work := entryPoints;
      var queued := set e | e in entryPoints;
      while work != []
        invariant Accounted(entryPoints, work, queued, analyzed)
        invariant OnlyNeeded(img, entryPoints, queued)
        invariant CalleesQueued(img, queued, analyzed)
        invariant XrefsCollected(img, xrefs, analyzed)
        invariant Found(img, functions, analyzed)
        decreases |Mentioned(img) - queued|, |work|
      {
        PopIsAccounted(entryPoints, work, queued, analyzed);
        var entry := work[0];
        work := work[1..];
        if entry == 0 || entry in analyzed {
          continue;
        }
        XrefsGrow(img, xrefs, analyzed, entry);
        OneMoreFound(img, functions, analyzed, entry);
        CalleesAreQueued(img, entryPoints, queued, entry, FunctionAt(img, entry).callees);
        analyzed := analyzed + {entry};
        var fn;
        fn, xrefs := AnalyzeFunction(entry, xrefs);
        functions := functions + [fn];
        work, queued := EnqueueAll(fn.callees, work, queued);
      }
      EmptyWorkIsLeast(img, entryPoints, queued, analyzed);
      functions := SortByAddress(functions);
    }
  }
}
