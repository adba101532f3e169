/** The program image as the analyzer sees it: a reader and a decoder taken
    together as one finite partial map from addresses to decoded instructions,
    with the instruction-level control flow it induces. */
module CodeImage {

  const ADDRESS_LIMIT: nat := 0x1_0000_0000_0000_0000

  datatype Flow = Sequential | Jump | CondJump | Call | Return

  /** `target` is 0 for an indirect transfer and for no transfer. */
  datatype Insn = Insn(length: nat, flow: Flow, target: nat)

  predicate WellFormed(m: map<nat, Insn>) {
    forall a :: a in m ==>
      && 1 <= m[a].length <= 15
      && a + m[a].length < ADDRESS_LIMIT
      && m[a].target < ADDRESS_LIMIT
  }

  type Image = m: map<nat, Insn> | WellFormed(m) witness map[]

  function Next(img: Image, a: nat): nat
    requires a in img
  {
    a + img[a].length
  }

  /** An instruction after which decoding does not continue in a straight line. */
  predicate EndsRun(flow: Flow) {
    flow.Jump? || flow.CondJump? || flow.Return?
  }

  /** The direct jump target of an instruction, or 0. */
  function BranchTarget(insn: Insn): nat {
    if insn.flow.Jump? || insn.flow.CondJump? then insn.target else 0
  }

  /** The direct call target of an instruction, or 0. */
  function CallTarget(insn: Insn): nat {
    if insn.flow.Call? then insn.target else 0
  }

  /** Where control may go inside the function after the instruction at `a`,
      whether or not anything decodes there. */
  ghost function Successors(img: Image, a: nat): set<nat>
    requires a in img
  {
    var onward := {a + img[a].length};
    var target := if img[a].target == 0 then {} else {img[a].target};
    match img[a].flow
    case Sequential => onward
    case Call => onward
    case Jump => target
    case CondJump => onward + target
    case Return => {}
  }

  /** A walk through the instruction graph; only its last address may fail to decode. */
  ghost predicate IsWalk(img: Image, p: seq<nat>) {
    && p != []
    && forall i :: 0 <= i < |p| - 1 ==> p[i] in img && p[i + 1] in Successors(img, p[i])
  }

  ghost predicate Reaches(img: Image, entry: nat, a: nat) {
    exists p :: IsWalk(img, p) && p[0] == entry && p[|p| - 1] == a
  }

  lemma ReachesSelf(img: Image, entry: nat)
    ensures Reaches(img, entry, entry)
  {
    assert IsWalk(img, [entry]) && [entry][0] == entry;
  }

  lemma ReachesStep(img: Image, entry: nat, a: nat, b: nat)
    requires Reaches(img, entry, a) && a in img && b in Successors(img, a)
    ensures Reaches(img, entry, b)
  {
    var p :| IsWalk(img, p) && p[0] == entry && p[|p| - 1] == a;
    var q := p + [b];
    assert q[|q| - 1] == b;
    assert IsWalk(img, q);
  }

  /** `s` holds the entry, if it decodes, and every decodable successor of its members. */
  ghost predicate ClosedUnderFlow(img: Image, entry: nat, s: set<nat>) {
    && (entry in img ==> entry in s)
    && forall a, b :: a in s && a in img && b in Successors(img, a) && b in img ==> b in s
  }

  ghost predicate IsLeastClosed(img: Image, entry: nat, s: set<nat>) {
    && ClosedUnderFlow(img, entry, s)
    && forall t :: ClosedUnderFlow(img, entry, t) ==> s <= t
  }

  lemma {:induction false} WalkStaysInside(img: Image, entry: nat, t: set<nat>, p: seq<nat>)
    requires ClosedUnderFlow(img, entry, t)
    requires IsWalk(img, p) && p[0] == entry && p[|p| - 1] in img
    ensures p[|p| - 1] in t
    decreases |p|
  {
    if |p| > 1 {
      var q := p[..|p| - 1];
      assert forall i :: 0 <= i < |q| ==> q[i] == p[i];
      WalkStaysInside(img, entry, t, q);
      assert p[|p| - 2 + 1] in Successors(img, p[|p| - 2]);
    }
  }

  /** The decodable addresses on walks from the entry are the least closed set. */
  lemma ReachableIsLeast(img: Image, entry: nat, s: set<nat>)
    requires forall a :: a in s <==> a in img && Reaches(img, entry, a)
    ensures IsLeastClosed(img, entry, s)
  {
    ReachesSelf(img, entry);
    forall a, b | a in s && a in img && b in Successors(img, a) && b in img
      ensures b in s
    {
      ReachesStep(img, entry, a, b);
    }
    forall t | ClosedUnderFlow(img, entry, t)
      ensures s <= t
    {
      forall a | a in s
        ensures a in t
      {
        var p :| IsWalk(img, p) && p[0] == entry && p[|p| - 1] == a;
        WalkStaysInside(img, entry, t, p);
      }
    }
  }
}
