/**
  Small hand-made blocks and graphs after the methods of the rule's test input.
  The graphs only approximate how a real CFG builder would split those methods;
  what they show is how the equations treat each shape.
*/
module Scenarios {
  import opened Syntax
  import opened Extraction
  import opened Dataflow
  import opened Tracking
  import opened Inspector

  const p: Symbol := 1

  /** `p.toString()` */
  const DerefP := Invoke(Select(Ident(p)))
  /** `p = new Object()` */
  const AssignP := Assign(Ident(p))
  /** `p == null` */
  const CheckP := EqualTo(Ident(p), NullLit)

  lemma ExtractSingleton(e: Element)
    ensures Extract([e]) == Step(Empty, e)
  {
    assert [e][..0] == [];
  }

  /** Reassign, dereference, compare in one block: reported whatever flows in. */
  lemma AssignThenDerefReported(blockIn: set<Symbol>)
    ensures var gk := Extract([AssignP, DerefP, CheckP]);
      CheckElement(CheckP, Transfer(gk.gen, gk.kill, blockIn)) == Some(p)
  {
    ReassignThenDeref([AssignP, DerefP, CheckP], 0, 1, p);
  }

  /** Dereference, reassign, compare in one block: never reported. */
  lemma DerefThenAssignNotReported(blockIn: set<Symbol>)
    ensures var gk := Extract([DerefP, AssignP, CheckP]);
      CheckElement(CheckP, Transfer(gk.gen, gk.kill, blockIn)) == None
  {
    DerefThenReassign([DerefP, AssignP, CheckP], 0, 1, p);
  }

  /** A shadowing declaration is a different symbol: dereferencing the outer `s`
      and then comparing the freshly declared `s` is never reported. */
  lemma ShadowingDeclarationNotReported(outer: Symbol, inner: Symbol, blockIn: set<Symbol>)
    requires outer != inner
    ensures var es := [Invoke(Select(Ident(outer))), VarDecl(inner), EqualTo(Ident(inner), NullLit)];
      var gk := Extract(es);
      CheckElement(EqualTo(Ident(inner), NullLit), Transfer(gk.gen, gk.kill, blockIn)) == None
  {
    var es := [Invoke(Select(Ident(outer))), VarDecl(inner), EqualTo(Ident(inner), NullLit)];
    assert KillOf(es[1]) == Some(inner);
    KillDominanceNoReport(es, inner, blockIn);
  }

  /** `s.f; if (s == null) {}` as an entry block (IN = ∅): as the extraction is
      written the field access is dropped and nothing is reported; with the
      receiver recorded, the comparison is reported. */
  lemma FieldAccessThenCheck(s: Symbol)
    ensures var gk := ExtractAsWritten([MemberSelect(Ident(s)), EqualTo(Ident(s), NullLit)]);
      CheckElement(EqualTo(Ident(s), NullLit), Transfer(gk.gen, gk.kill, {})) == None
    ensures var gk := Extract([MemberSelect(Ident(s)), EqualTo(Ident(s), NullLit)]);
      CheckElement(EqualTo(Ident(s), NullLit), Transfer(gk.gen, gk.kill, {})) == Some(s)
  {
    var es := [MemberSelect(Ident(s)), EqualTo(Ident(s), NullLit)];
    assert es[..1] == [MemberSelect(Ident(s))];
    FieldAccessDroppedAsWritten(s);
  }

  /** `p.toString(); if (p == null) {}` as the entry block: IN is empty, OUT = {p},
      and the comparison is reported. */
  function StraightLine(): Cfg
  {
    Cfg([Block([DerefP, CheckP], [], [], [])])
  }

  lemma StraightLineReported(out: OutMap)
    requires Stable(StraightLine(), GenMap(StraightLine()), KillMap(StraightLine()), out, 0)
    ensures IsIssue(StraightLine(), out, Issue(0, 1, p))
  {
    var cfg := StraightLine();
    var es := [DerefP, CheckP];
    NothingRecordedGivesGen(cfg, 0, out, GenMap(cfg)[0], KillMap(cfg)[0]);
    assert DerefOf(es[0]) == Some(p) && NoKillAfter(es, 0, p);
    ExtractGenIsLastDeref(es, p);
  }

  /** `p.toString(); if (a) { p = new Object(); } if (p == null) {}`: block 1
      reassigns `p`, block 2 merges blocks 0 and 1. */
  function BranchMerge(): Cfg
  {
    Cfg([
      Block([DerefP], [], [1, 2], []),
      Block([AssignP], [0], [2], []),
      Block([CheckP], [0, 1], [], [])])
  }

  /** Once the reassigning branch has a recorded OUT, the comparison after the
      merge is not reported. */
  lemma BranchMergeNotReported(out: OutMap, s: Symbol)
    requires 1 in out && Shaped(GenMap(BranchMerge())[1], KillMap(BranchMerge())[1], out[1])
    requires Stable(BranchMerge(), GenMap(BranchMerge()), KillMap(BranchMerge()), out, 2)
    ensures !IsIssue(BranchMerge(), out, Issue(2, 0, s))
  {
    var cfg := BranchMerge();
    ExtractSingleton(AssignP);
    ExtractSingleton(CheckP);
    assert Reads(cfg, 2, 1);
    ReassigningBranchBlocksMerge(cfg, 2, 1, out, GenMap(cfg)[1], KillMap(cfg)[1], p);
  }

  /** `p.toString(); for (...) { if (p == null) {} }`: block 1 is the loop header,
      read by the entry block 0 and the loop body 2 through the back edge. */
  function Loop(): Cfg
  {
    Cfg([
      Block([DerefP], [], [1], []),
      Block([Other], [0, 2], [2, 3], []),
      Block([CheckP, Other], [1], [1], []),
      Block([], [1], [], [])])
  }

  function LoopBelief(): OutMap
  {
    map[0 := {p}, 1 := {p}, 2 := {p}, 3 := {p}]
  }

  lemma LoopSummaries()
    ensures Summarised(Loop(), GenMap(Loop()), KillMap(Loop()))
    ensures GenMap(Loop())[0] == {p} && KillMap(Loop())[0] == {}
    ensures forall b :: 1 <= b < 4 ==> GenMap(Loop())[b] == {} && KillMap(Loop())[b] == {}
  {
    ExtractSingleton(DerefP);
    ExtractSingleton(Other);
    assert [CheckP, Other][..1] == [CheckP];
    ExtractSingleton(CheckP);
  }

  lemma LoopInIsBelief(b: nat, x: Symbol)
    requires 1 <= b < 4
    ensures x in In(Loop(), b, LoopBelief()) <==> x == p
  {
    InIsMeetOfRecorded(Loop(), b, LoopBelief(), x);
    assert Reads(Loop(), b, if b == 1 then 0 else 1);
  }

  lemma LoopEntryStable()
    ensures Stable(Loop(), GenMap(Loop()), KillMap(Loop()), LoopBelief(), 0)
  {
    LoopSummaries();
    NothingRecordedGivesGen(Loop(), 0, LoopBelief(), {p}, {});
  }

  lemma LoopBodyStable(b: nat)
    requires 1 <= b < 4
    ensures Stable(Loop(), GenMap(Loop()), KillMap(Loop()), LoopBelief(), b)
  {
    LoopSummaries();
    forall x ensures x in In(Loop(), b, LoopBelief()) <==> x == p {
      LoopInIsBelief(b, x);
    }
    assert In(Loop(), b, LoopBelief()) == {p};
  }

  /** Believing `p` non-null at every block solves the loop's equations (so the
      solver, started from it, keeps it), and the comparison inside the body is
      reported. Every block reading an OUT is a successor of its owner here. */
  lemma LoopBeliefIsFixedPoint()
    ensures Closed(Loop())
    ensures Summarised(Loop(), GenMap(Loop()), KillMap(Loop()))
    ensures FixedPoint(Loop(), GenMap(Loop()), KillMap(Loop()), LoopBelief())
    ensures IsIssue(Loop(), LoopBelief(), Issue(2, 0, p))
  {
    LoopSummaries();
    forall b | 0 <= b < 4 ensures Stable(Loop(), GenMap(Loop()), KillMap(Loop()), LoopBelief(), b) {
      if b == 0 {
        LoopEntryStable();
      } else {
        LoopBodyStable(b);
      }
    }
  }

  /** While every recorded OUT is {p}, a block of the loop that reads a recorded
      OUT gets IN = {p}. */
  lemma LoopInRecordedP(b: nat, o: OutMap, q: nat)
    requires b < 4 && Reads(Loop(), b, q) && q in o
    requires forall k :: k in o ==> o[k] == {p}
    ensures In(Loop(), b, o) == {p}
  {
    forall x ensures x in In(Loop(), b, o) <==> x == p {
      InIsMeetOfRecorded(Loop(), b, o, x);
    }
  }

  /** A block of the loop that is unrecorded while every recorded OUT is {p}
      computes OUT = {p}: the entry generates `p`, and every other block reads a
      recorded {p}. */
  lemma {:induction false} LoopTransfer(o: OutMap, b: nat, q: nat)
    requires b < 4 && forall k :: k in o ==> o[k] == {p}
    requires (b == 0 && o == map[]) || (Reads(Loop(), b, q) && q in o)
    ensures ValidCfg(Loop()) && Summarised(Loop(), GenMap(Loop()), KillMap(Loop()))
    ensures Transfer(GenMap(Loop())[b], KillMap(Loop())[b], In(Loop(), b, o)) == {p}
  {
    LoopSummaries();
    assert ValidCfg(Loop());
    if b == 0 && o == map[] {
      NothingRecordedGivesGen(Loop(), 0, o, {p}, {});
    } else {
      LoopInRecordedP(b, o, q);
    }
  }

  /** A dequeue on the loop that finds its block unrecorded records {p} for it
      and appends the block's successors. */
  lemma {:induction false} LoopRecords(o: OutMap, w: seq<nat>, o': OutMap, w': seq<nat>, fuel: nat, q: nat)
    requires IdsBelow(w, 4) && w != [] && fuel > 0 && w[0] !in o
    requires forall k :: k in o ==> o[k] == {p}
    requires (w[0] == 0 && o == map[]) || (Reads(Loop(), w[0], q) && q in o)
    requires o' == o[w[0] := {p}] && w' == w[1..] + Loop().blocks[w[0]].successors
    ensures ValidCfg(Loop()) && Summarised(Loop(), GenMap(Loop()), KillMap(Loop()))
    ensures IdsBelow(w', 4)
    ensures Solve(Loop(), GenMap(Loop()), KillMap(Loop()), o, w, fuel) ==
      Solve(Loop(), GenMap(Loop()), KillMap(Loop()), o', w', fuel - 1)
  {
    LoopTransfer(o, w[0], q);
    SolveRecordStep(Loop(), GenMap(Loop()), KillMap(Loop()), o, w, fuel);
  }

  /** Block 0 records {p} and re-enqueues block 1. */
  lemma {:induction false} LoopRecordsEntry(fuel: nat)
    requires fuel > 0
    ensures ValidCfg(Loop()) && Summarised(Loop(), GenMap(Loop()), KillMap(Loop()))
    ensures Solve(Loop(), GenMap(Loop()), KillMap(Loop()), map[], [0, 1, 2, 3], fuel) ==
      Solve(Loop(), GenMap(Loop()), KillMap(Loop()), map[0 := {p}], [1, 2, 3, 1], fuel - 1)
  {
    assert [0, 1, 2, 3][1..] + Loop().blocks[0].successors == [1, 2, 3, 1];
    assert map[][0 := {p}] == map[0 := {p}];
    LoopRecords(map[], [0, 1, 2, 3], map[0 := {p}], [1, 2, 3, 1], fuel, 0);
  }

  /** Block 1, reading block 0, records {p} and re-enqueues blocks 2 and 3. */
  lemma {:induction false} LoopRecordsHead(fuel: nat)
    requires fuel > 0
    ensures ValidCfg(Loop()) && Summarised(Loop(), GenMap(Loop()), KillMap(Loop()))
    ensures Solve(Loop(), GenMap(Loop()), KillMap(Loop()), map[0 := {p}], [1, 2, 3, 1], fuel) ==
      Solve(Loop(), GenMap(Loop()), KillMap(Loop()), map[0 := {p}, 1 := {p}], [2, 3, 1, 2, 3], fuel - 1)
  {
    assert [1, 2, 3, 1][1..] + Loop().blocks[1].successors == [2, 3, 1, 2, 3];
    assert map[0 := {p}][1 := {p}] == map[0 := {p}, 1 := {p}];
    LoopRecords(map[0 := {p}], [1, 2, 3, 1], map[0 := {p}, 1 := {p}], [2, 3, 1, 2, 3], fuel, 0);
  }

  /** Block 2, reading block 1, records {p} and re-enqueues block 3. */
  lemma {:induction false} LoopRecordsBody(fuel: nat)
    requires fuel > 0
    ensures ValidCfg(Loop()) && Summarised(Loop(), GenMap(Loop()), KillMap(Loop()))
    ensures Solve(Loop(), GenMap(Loop()), KillMap(Loop()), map[0 := {p}, 1 := {p}], [2, 3, 1, 2, 3], fuel) ==
      Solve(Loop(), GenMap(Loop()), KillMap(Loop()), map[0 := {p}, 1 := {p}, 2 := {p}], [3, 1, 2, 3, 1], fuel - 1)
  {
    assert [2, 3, 1, 2, 3][1..] + Loop().blocks[2].successors == [3, 1, 2, 3, 1];
    assert map[0 := {p}, 1 := {p}][2 := {p}] == map[0 := {p}, 1 := {p}, 2 := {p}];
    LoopRecords(map[0 := {p}, 1 := {p}], [2, 3, 1, 2, 3], map[0 := {p}, 1 := {p}, 2 := {p}], [3, 1, 2, 3, 1], fuel, 1);
  }

  /** Block 3, reading block 1, records {p} and re-enqueues block 1, which
      completes the belief. */
  lemma {:induction false} LoopRecordsExit(fuel: nat)
    requires fuel > 0
    ensures ValidCfg(Loop()) && Summarised(Loop(), GenMap(Loop()), KillMap(Loop()))
    ensures Solve(Loop(), GenMap(Loop()), KillMap(Loop()), map[0 := {p}, 1 := {p}, 2 := {p}], [3, 1, 2, 3, 1], fuel) ==
      Solve(Loop(), GenMap(Loop()), KillMap(Loop()), LoopBelief(), [1, 2, 3, 1], fuel - 1)
  {
    assert [3, 1, 2, 3, 1][1..] + Loop().blocks[3].successors == [1, 2, 3, 1];
    assert map[0 := {p}, 1 := {p}, 2 := {p}][3 := {p}] == LoopBelief();
    LoopRecords(map[0 := {p}, 1 := {p}, 2 := {p}], [3, 1, 2, 3, 1], LoopBelief(), [1, 2, 3, 1], fuel, 1);
  }

  /** After block 3 has recorded, the four blocks still queued are stable and
      are dropped one by one. */
  lemma LoopSettles(fuel: nat)
    requires fuel >= 4
    ensures ValidCfg(Loop()) && Summarised(Loop(), GenMap(Loop()), KillMap(Loop()))
    ensures Solve(Loop(), GenMap(Loop()), KillMap(Loop()), LoopBelief(), [1, 2, 3, 1], fuel) ==
      Outcome(LoopBelief(), true)
  {
    LoopBeliefIsFixedPoint();
    assert ValidCfg(Loop());
    SolveFromFixedPoint(Loop(), GenMap(Loop()), KillMap(Loop()), LoopBelief(), [1, 2, 3, 1], fuel);
  }

  lemma {:induction false} LoopFromExit(fuel: nat)
    requires fuel >= 5
    ensures ValidCfg(Loop()) && Summarised(Loop(), GenMap(Loop()), KillMap(Loop()))
    ensures Solve(Loop(), GenMap(Loop()), KillMap(Loop()), map[0 := {p}, 1 := {p}, 2 := {p}], [3, 1, 2, 3, 1], fuel) ==
      Outcome(LoopBelief(), true)
  {
    LoopRecordsExit(fuel);
    LoopSettles(fuel - 1);
  }

  lemma {:induction false} LoopFromBody(fuel: nat)
    requires fuel >= 6
    ensures ValidCfg(Loop()) && Summarised(Loop(), GenMap(Loop()), KillMap(Loop()))
    ensures Solve(Loop(), GenMap(Loop()), KillMap(Loop()), map[0 := {p}, 1 := {p}], [2, 3, 1, 2, 3], fuel) ==
      Outcome(LoopBelief(), true)
  {
    LoopRecordsBody(fuel);
    LoopFromExit(fuel - 1);
  }

  lemma {:induction false} LoopFromHead(fuel: nat)
    requires fuel >= 7
    ensures ValidCfg(Loop()) && Summarised(Loop(), GenMap(Loop()), KillMap(Loop()))
    ensures Solve(Loop(), GenMap(Loop()), KillMap(Loop()), map[0 := {p}], [1, 2, 3, 1], fuel) ==
      Outcome(LoopBelief(), true)
  {
    LoopRecordsHead(fuel);
    LoopFromBody(fuel - 1);
  }

  /** The solver on the loop, from nothing recorded: blocks 0, 1, 2 and 3 record
      {p} in that order, the four blocks re-enqueued meanwhile are then stable,
      and after eight dequeues the worklist runs empty on the belief that `p` is
      non-null everywhere. The other fixed point, with {p} at the entry only, is
      never reached. */
  lemma {:induction false} LoopRun(fuel: nat)
    requires fuel >= 8
    ensures ValidCfg(Loop()) && Summarised(Loop(), GenMap(Loop()), KillMap(Loop()))
    ensures Solve(Loop(), GenMap(Loop()), KillMap(Loop()), map[], AllBlocks(4), fuel) ==
      Outcome(LoopBelief(), true)
  {
    assert AllBlocks(4) == AllBlocks(3) + [3];
    assert AllBlocks(4) == [0, 1, 2, 3];
    LoopRecordsEntry(fuel);
    LoopFromHead(fuel - 1);
  }
}
