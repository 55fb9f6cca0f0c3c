/**
  The analysis object: it owns the control-flow graph and the map of recorded OUT
  sets, and runs the forward worklist solver over the per-block GEN and KILL sets.
*/
module Tracking {
  import opened Syntax
  import opened Extraction
  import opened Dataflow

  /** The block indices 0, 1, ..., n - 1 in order. */
  function AllBlocks(n: nat): (r: seq<nat>)
    ensures |r| == n
    ensures forall k :: 0 <= k < n ==> r[k] == k
  {
    if n == 0 then [] else AllBlocks(n - 1) + [n - 1]
  }

  /** Every block outside the worklist that is a successor of every block it
      reads has a recorded OUT that its equation reproduces. */
  ghost predicate StableOutside(cfg: Cfg, gen: OutMap, kill: OutMap, out: OutMap, queued: seq<nat>)
    requires Summarised(cfg, gen, kill)
  {
    forall b :: 0 <= b < |cfg.blocks| && b !in queued && ClosedAt(cfg, b) ==>
      Stable(cfg, gen, kill, out, b)
  }

  /** Dequeuing a block whose recomputed OUT equals its recorded one keeps stable
      every block outside the remaining worklist that is a successor of every
      block it reads. */
  lemma StableAfterSkip(cfg: Cfg, gen: OutMap, kill: OutMap, out: OutMap, block: nat, rest: seq<nat>)
    requires Summarised(cfg, gen, kill) && block < |cfg.blocks|
    requires StableOutside(cfg, gen, kill, out, [block] + rest)
    requires block in out && out[block] == Transfer(gen[block], kill[block], In(cfg, block, out))
    ensures StableOutside(cfg, gen, kill, out, rest)
  {
    forall b | 0 <= b < |cfg.blocks| && b !in rest && ClosedAt(cfg, b)
      ensures Stable(cfg, gen, kill, out, b)
    {
      if b != block {
        assert b !in [block] + rest;
      }
    }
  }

  /** Recording a block's new OUT and enqueuing its successors keeps stable every
      block outside the worklist that is a successor of every block it reads. */
  lemma StableAfterRecord(cfg: Cfg, gen: OutMap, kill: OutMap, out: OutMap, block: nat, rest: seq<nat>)
    requires Summarised(cfg, gen, kill) && block < |cfg.blocks|
    requires StableOutside(cfg, gen, kill, out, [block] + rest)
    ensures StableOutside(cfg, gen, kill,
      out[block := Transfer(gen[block], kill[block], In(cfg, block, out))],
      rest + cfg.blocks[block].successors)
  {
    var out' := out[block := Transfer(gen[block], kill[block], In(cfg, block, out))];
    var queued := rest + cfg.blocks[block].successors;
    forall b | 0 <= b < |cfg.blocks| && b !in queued && ClosedAt(cfg, b)
      ensures Stable(cfg, gen, kill, out', b)
    {
      assert b !in cfg.blocks[block].successors;
      assert !Reads(cfg, b, block);
      InFrame(cfg, b, out, out');
      if b != block {
        assert b !in [block] + rest;
      }
    }
  }

  /** The solver's loop invariant. `start` is the OUT map the solver began with
      and `steps` the number of blocks dequeued so far. */
  ghost predicate Progress(cfg: Cfg, gen: OutMap, kill: OutMap, start: OutMap, out: OutMap,
                           workList: seq<nat>, steps: nat)
  {
    && Summarised(cfg, gen, kill)
    && IdsBelow(workList, |cfg.blocks|)
    && start.Keys <= out.Keys
    && (forall b :: b in out ==> b < |cfg.blocks| && Shaped(gen[b], kill[b], out[b]))
    && (forall b :: 0 <= b < |cfg.blocks| ==> b in out || b in workList)
    && StableOutside(cfg, gen, kill, out, workList)
    && (FixedPoint(cfg, gen, kill, start) ==> out == start && |workList| + steps == |cfg.blocks|)
  }

  /** Dequeuing a block whose recomputed OUT equals its recorded one keeps the
      invariant. */
  lemma ProgressAfterSkip(cfg: Cfg, gen: OutMap, kill: OutMap, start: OutMap, out: OutMap,
                          block: nat, rest: seq<nat>, steps: nat)
    requires Progress(cfg, gen, kill, start, out, [block] + rest, steps)
    requires block < |cfg.blocks| && block in out
    requires out[block] == Transfer(gen[block], kill[block], In(cfg, block, out))
    ensures Progress(cfg, gen, kill, start, out, rest, steps + 1)
  {
    assert forall k :: 0 <= k < |rest| ==> rest[k] == ([block] + rest)[k + 1];
    StableAfterSkip(cfg, gen, kill, out, block, rest);
  }

  /** Recording a changed OUT and enqueuing the block's successors keeps the
      invariant. */
  lemma ProgressAfterRecord(cfg: Cfg, gen: OutMap, kill: OutMap, start: OutMap, out: OutMap,
                            block: nat, rest: seq<nat>, steps: nat)
    requires ValidCfg(cfg)
    requires Progress(cfg, gen, kill, start, out, [block] + rest, steps)
    requires block < |cfg.blocks| && !Stable(cfg, gen, kill, out, block)
    ensures Progress(cfg, gen, kill, start,
      out[block := Transfer(gen[block], kill[block], In(cfg, block, out))],
      rest + cfg.blocks[block].successors, steps + 1)
  {
    assert forall k :: 0 <= k < |rest| ==> rest[k] == ([block] + rest)[k + 1];
    StableAfterRecord(cfg, gen, kill, out, block, rest);
  }

  /** With nothing left on the worklist, every block is recorded and every closed
      block is solved, so the whole graph is solved when every block is closed. */
  lemma SolvedOnEmptyWorklist(cfg: Cfg, gen: OutMap, kill: OutMap, start: OutMap, out: OutMap, steps: nat)
    requires Progress(cfg, gen, kill, start, out, [], steps)
    ensures forall b :: 0 <= b < |cfg.blocks| ==> b in out
    ensures forall b :: 0 <= b < |cfg.blocks| && ClosedAt(cfg, b) ==> Stable(cfg, gen, kill, out, b)
    ensures Closed(cfg) ==> FixedPoint(cfg, gen, kill, out)
  {
  }

  /** What the solver leaves behind: the OUT map, and whether the worklist ran
      empty. */
  datatype Outcome = Outcome(out: OutMap, converged: bool)

  /** One dequeue of the worklist solver: a block whose recomputed OUT equals its
      recorded one is dropped; any other block records the new OUT and appends
      its successors to the worklist. */
  function Dequeue(cfg: Cfg, gen: OutMap, kill: OutMap, out: OutMap, workList: seq<nat>): (next: (OutMap, seq<nat>))
    requires ValidCfg(cfg) && Summarised(cfg, gen, kill) && IdsBelow(workList, |cfg.blocks|) && workList != []
    ensures IdsBelow(next.1, |cfg.blocks|)
  {
    var block := workList[0];
    var newOut := Transfer(gen[block], kill[block], In(cfg, block, out));
    if block in out && newOut == out[block] then
      (out, workList[1..])
    else
      assert IdsBelow(workList[1..] + cfg.blocks[block].successors, |cfg.blocks|);
      (out[block := newOut], workList[1..] + cfg.blocks[block].successors)
  }

  /** The worklist solver: it dequeues blocks until the worklist runs empty or
      `fuel` blocks have been dequeued. */
  function Solve(cfg: Cfg, gen: OutMap, kill: OutMap, out: OutMap, workList: seq<nat>, fuel: nat): Outcome
    requires ValidCfg(cfg) && Summarised(cfg, gen, kill) && IdsBelow(workList, |cfg.blocks|)
    decreases fuel
  {
    if workList == [] then Outcome(out, true)
    else if fuel == 0 then Outcome(out, false)
    else
      var next := Dequeue(cfg, gen, kill, out, workList);
      Solve(cfg, gen, kill, next.0, next.1, fuel - 1)
  }

  /** Every block queued and nothing solved yet: the invariant holds at the start. */
  lemma ProgressAtStart(cfg: Cfg, gen: OutMap, kill: OutMap, out: OutMap)
    requires Summarised(cfg, gen, kill)
    requires forall b :: b in out ==> b < |cfg.blocks| && Shaped(gen[b], kill[b], out[b])
    ensures Progress(cfg, gen, kill, out, out, AllBlocks(|cfg.blocks|), 0)
  {
    var all := AllBlocks(|cfg.blocks|);
    forall b | 0 <= b < |cfg.blocks| ensures b in all {
      assert all[b] == b;
    }
  }

  /** The solver's guarantees for a run begun on `start` that ends with `r`,
      handed `queued` blocks and `fuel` steps: recorded blocks stay recorded and
      every recorded OUT keeps the shape of GEN ∪ (IN − KILL); on convergence every
      block is recorded and every closed block solves its equation; and a run
      begun on a solution with enough fuel converges on it unchanged. */
  ghost predicate Delivers(cfg: Cfg, gen: OutMap, kill: OutMap, start: OutMap, r: Outcome, queued: nat, fuel: nat)
    requires Summarised(cfg, gen, kill)
  {
    && start.Keys <= r.out.Keys
    && (forall b :: b in r.out ==> b < |cfg.blocks| && Shaped(gen[b], kill[b], r.out[b]))
    && (r.converged ==> forall b :: 0 <= b < |cfg.blocks| ==> b in r.out)
    && (r.converged ==> forall b :: 0 <= b < |cfg.blocks| && ClosedAt(cfg, b) ==>
          Stable(cfg, gen, kill, r.out, b))
    && (FixedPoint(cfg, gen, kill, start) && fuel >= queued ==> r == Outcome(start, true))
  }

  /** A delivery carries over to more queued blocks or more fuel, as long as
      enough fuel for the queue stays enough. */
  lemma DeliversMore(cfg: Cfg, gen: OutMap, kill: OutMap, start: OutMap, r: Outcome, r': Outcome,
                     queued: nat, fuel: nat, queued': nat, fuel': nat)
    requires Summarised(cfg, gen, kill)
    requires Delivers(cfg, gen, kill, start, r, queued, fuel) && r' == r
    requires FixedPoint(cfg, gen, kill, start) && fuel' >= queued' ==> fuel >= queued
    ensures Delivers(cfg, gen, kill, start, r', queued', fuel')
  {
  }

  /** Dequeuing a stable block changes nothing but the worklist. */
  lemma SolveSkipStep(cfg: Cfg, gen: OutMap, kill: OutMap, out: OutMap, workList: seq<nat>, fuel: nat)
    requires ValidCfg(cfg) && Summarised(cfg, gen, kill) && IdsBelow(workList, |cfg.blocks|)
    requires workList != [] && fuel > 0 && Stable(cfg, gen, kill, out, workList[0])
    ensures IdsBelow(workList[1..], |cfg.blocks|)
    ensures Solve(cfg, gen, kill, out, workList, fuel) == Solve(cfg, gen, kill, out, workList[1..], fuel - 1)
  {
  }

  /** Dequeuing a block whose OUT changes records the new OUT and appends the
      block's successors. */
  lemma SolveRecordStep(cfg: Cfg, gen: OutMap, kill: OutMap, out: OutMap, workList: seq<nat>, fuel: nat)
    requires ValidCfg(cfg) && Summarised(cfg, gen, kill) && IdsBelow(workList, |cfg.blocks|)
    requires workList != [] && fuel > 0 && !Stable(cfg, gen, kill, out, workList[0])
    ensures IdsBelow(workList[1..] + cfg.blocks[workList[0]].successors, |cfg.blocks|)
    ensures Solve(cfg, gen, kill, out, workList, fuel) ==
      Solve(cfg, gen, kill,
        out[workList[0] := Transfer(gen[workList[0]], kill[workList[0]], In(cfg, workList[0], out))],
        workList[1..] + cfg.blocks[workList[0]].successors, fuel - 1)
  {
  }

  /** Started from a fixed point with at least one unit of fuel per queued block,
      the solver dequeues every block without a change and converges on its start. */
  lemma {:induction false} SolveFromFixedPoint(cfg: Cfg, gen: OutMap, kill: OutMap, out: OutMap,
                                              workList: seq<nat>, fuel: nat)
    requires ValidCfg(cfg) && Summarised(cfg, gen, kill) && IdsBelow(workList, |cfg.blocks|)
    requires FixedPoint(cfg, gen, kill, out) && fuel >= |workList|
    ensures Solve(cfg, gen, kill, out, workList, fuel) == Outcome(out, true)
    decreases |workList|
  {
    if workList != [] {
      SolveSkipStep(cfg, gen, kill, out, workList, fuel);
      SolveFromFixedPoint(cfg, gen, kill, out, workList[1..], fuel - 1);
    }
  }

  /** One dequeue keeps the invariant. */
  lemma ProgressAfterDequeue(cfg: Cfg, gen: OutMap, kill: OutMap, start: OutMap, out: OutMap,
                             workList: seq<nat>, steps: nat)
    requires ValidCfg(cfg) && Progress(cfg, gen, kill, start, out, workList, steps) && workList != []
    ensures var next := Dequeue(cfg, gen, kill, out, workList);
      Progress(cfg, gen, kill, start, next.0, next.1, steps + 1)
  {
    var block, rest := workList[0], workList[1..];
    assert workList == [block] + rest;
    if Stable(cfg, gen, kill, out, block) {
      ProgressAfterSkip(cfg, gen, kill, start, out, block, rest, steps);
    } else {
      ProgressAfterRecord(cfg, gen, kill, start, out, block, rest, steps);
    }
  }

  /** A run with fuel left and a non-empty worklist is one dequeue followed by the
      rest of the run. */
  lemma SolveStep(cfg: Cfg, gen: OutMap, kill: OutMap, out: OutMap, workList: seq<nat>, fuel: nat)
    requires ValidCfg(cfg) && Summarised(cfg, gen, kill) && IdsBelow(workList, |cfg.blocks|)
    requires workList != [] && fuel > 0
    ensures var next := Dequeue(cfg, gen, kill, out, workList);
      Solve(cfg, gen, kill, out, workList, fuel) == Solve(cfg, gen, kill, next.0, next.1, fuel - 1)
  {
  }

  /** What the rest of a run delivers after one dequeue, the whole run
      delivers. */
  lemma DeliversStep(cfg: Cfg, gen: OutMap, kill: OutMap, start: OutMap, out: OutMap,
                     workList: seq<nat>, fuel: nat)
    requires ValidCfg(cfg) && Summarised(cfg, gen, kill) && IdsBelow(workList, |cfg.blocks|)
    requires workList != [] && fuel > 0
    requires var next := Dequeue(cfg, gen, kill, out, workList);
      && Delivers(cfg, gen, kill, start, Solve(cfg, gen, kill, next.0, next.1, fuel - 1), |next.1|, fuel - 1)
      && (FixedPoint(cfg, gen, kill, start) ==> |next.1| < |workList|)
    ensures Delivers(cfg, gen, kill, start, Solve(cfg, gen, kill, out, workList, fuel), |workList|, fuel)
  {
    var next := Dequeue(cfg, gen, kill, out, workList);
    SolveStep(cfg, gen, kill, out, workList, fuel);
    DeliversMore(cfg, gen, kill, start, Solve(cfg, gen, kill, next.0, next.1, fuel - 1),
      Solve(cfg, gen, kill, out, workList, fuel), |next.1|, fuel - 1, |workList|, fuel);
  }

  /** The invariant carries over the whole run of the solver. */
  lemma {:induction false} SolveKeepsProgress(cfg: Cfg, gen: OutMap, kill: OutMap, start: OutMap, out: OutMap,
                                              workList: seq<nat>, steps: nat, fuel: nat)
    requires ValidCfg(cfg) && Progress(cfg, gen, kill, start, out, workList, steps)
    ensures Delivers(cfg, gen, kill, start, Solve(cfg, gen, kill, out, workList, fuel), |workList|, fuel)
    decreases fuel
  {
    if workList == [] {
      SolvedOnEmptyWorklist(cfg, gen, kill, start, out, steps);
    } else if fuel > 0 {
      var next := Dequeue(cfg, gen, kill, out, workList);
      ProgressAfterDequeue(cfg, gen, kill, start, out, workList, steps);
      SolveKeepsProgress(cfg, gen, kill, start, next.0, next.1, steps + 1, fuel - 1);
      DeliversStep(cfg, gen, kill, start, out, workList, fuel);
    }
  }

  /** A run with every block queued, from any starting OUT map of the right shape,
      delivers the solver's guarantees about the OUT map `out` and flag
      `converged` it ends with; so on convergence a graph whose blocks are all
      closed is solved. */
  lemma SolveProperties(cfg: Cfg, gen: OutMap, kill: OutMap, start: OutMap, fuel: nat,
                        out: OutMap, converged: bool)
    requires ValidCfg(cfg) && Summarised(cfg, gen, kill)
    requires forall b :: b in start ==> b < |cfg.blocks| && Shaped(gen[b], kill[b], start[b])
    requires Outcome(out, converged) == Solve(cfg, gen, kill, start, AllBlocks(|cfg.blocks|), fuel)
    ensures Delivers(cfg, gen, kill, start, Outcome(out, converged), |cfg.blocks|, fuel)
    ensures converged && Closed(cfg) ==> FixedPoint(cfg, gen, kill, out)
  {
    ProgressAtStart(cfg, gen, kill, start);
    SolveKeepsProgress(cfg, gen, kill, start, start, AllBlocks(|cfg.blocks|), 0, fuel);
    if converged && Closed(cfg) {
      assert forall b :: 0 <= b < |cfg.blocks| ==> ClosedAt(cfg, b);
    }
  }

  class NullTracking {
    const cfg: Cfg
    var out: OutMap

    constructor (cfg: Cfg)
      ensures this.cfg == cfg && out == map[]
    {
      this.cfg := cfg;
      out := map[];
    }

    /** The recorded OUT of a block, or None when it has none. */
    function GetOut(b: nat): (r: Option<set<Symbol>>)
      reads this
      ensures r.Some? <==> b in out
      ensures r.Some? ==> r.value == out[b]
    {
      if b in out then Some(out[b]) else None
    }

    /** Folds a block's elements front to back into its KILL and GEN sets. */
    static method ProcessBlockElements(block: Block) returns (blockKill: set<Symbol>, blockGen: set<Symbol>)
      ensures GenKill(blockGen, blockKill) == Extract(block.elements)
    {
      var es := block.elements;
      blockKill, blockGen := {}, {};
      for i := 0 to |es|
        invariant GenKill(blockGen, blockKill) == Extract(es[..i])
      {
        assert es[..i + 1][..i] == es[..i];
        match es[i]
        case Assign(lhs) =>
          if lhs.Ident? {
            blockKill := blockKill + {lhs.sym};
            blockGen := blockGen - {lhs.sym};
          }
        case MemberSelect(target) =>
          if target.Ident? {
            blockGen := blockGen + {target.sym};
          }
        case Invoke(methodSelect) =>
          if methodSelect.Select? && methodSelect.receiver.Ident? {
            blockGen := blockGen + {methodSelect.receiver.sym};
          }
        case VarDecl(declared) =>
          blockKill := blockKill + {declared};
          blockGen := blockGen - {declared};
        case _ =>
      }
      assert es[..|es|] == es;
    }

    /** Collects the recorded OUT sets of the block's predecessors and exception
        targets, and intersects them. */
    method ComputeIn(b: nat) returns (blockIn: set<Symbol>)
      requires b < |cfg.blocks|
      ensures blockIn == In(cfg, b, out)
    {
      var preds := cfg.blocks[b].predecessors;
      var exceptions := cfg.blocks[b].exceptions;
      var contributors: seq<set<Symbol>> := [];
      for i := 0 to |preds|
        invariant contributors == Recorded(preds[..i], out)
      {
        assert preds[..i + 1][..i] == preds[..i];
        if preds[i] in out {
          contributors := contributors + [out[preds[i]]];
        }
      }
      assert preds[..|preds|] == preds;
      for i := 0 to |exceptions|
        invariant contributors == Recorded(preds, out) + Recorded(exceptions[..i], out)
      {
        assert exceptions[..i + 1][..i] == exceptions[..i];
        if exceptions[i] in out {
          contributors := contributors + [out[exceptions[i]]];
        }
      }
      assert exceptions[..|exceptions|] == exceptions;
      if |contributors| > 0 {
        blockIn := contributors[0];
        for i := 1 to |contributors|
          invariant blockIn == Meet(contributors[..i])
        {
          assert contributors[..i + 1][..i] == contributors[..i];
          blockIn := blockIn * contributors[i];
        }
        assert contributors[..|contributors|] == contributors;
      } else {
        blockIn := {};
      }
    }

    /** The forward worklist solver. Every block is enqueued once; a block whose
        recomputed OUT differs from its recorded one (or that has none) records the
        new OUT and enqueues its successors. At most `fuel` blocks are processed;
        `converged` says whether the worklist ran empty. */
    method AnalyzeCfg(kill: OutMap, gen: OutMap, fuel: nat) returns (converged: bool)
      requires ValidCfg(cfg) && Summarised(cfg, gen, kill)
      requires forall b :: b in out ==> b < |cfg.blocks| && Shaped(gen[b], kill[b], out[b])
      modifies this
      ensures Outcome(out, converged) == Solve(cfg, gen, kill, old(out), AllBlocks(|cfg.blocks|), fuel)
      ensures Delivers(cfg, gen, kill, old(out), Outcome(out, converged), |cfg.blocks|, fuel)
      ensures converged && Closed(cfg) ==> FixedPoint(cfg, gen, kill, out)
    {
      var n := |cfg.blocks|;
      var workList := AllBlocks(n);
      var remaining := fuel;
      ghost var start := out;
      ghost var r := Solve(cfg, gen, kill, start, workList, fuel);
      while workList != [] && remaining > 0
        invariant IdsBelow(workList, n)
        invariant Solve(cfg, gen, kill, out, workList, remaining) == r
        decreases remaining
      {
        var block := workList[0];
        var blockIn := ComputeIn(block);
        var newOut := Transfer(gen[block], kill[block], blockIn);
        if block in out && newOut == out[block] {
          SolveSkipStep(cfg, gen, kill, out, workList, remaining);
          workList, remaining := workList[1..], remaining - 1;
        } else {
          SolveRecordStep(cfg, gen, kill, out, workList, remaining);
          out := out[block := newOut];
          workList, remaining := workList[1..] + cfg.blocks[block].successors, remaining - 1;
        }
      }
      converged := workList == [];
      SolveProperties(cfg, gen, kill, start, fuel, out, converged);
    }

    /** Runs the analysis of one method body: GEN and KILL for every block, then
        the solver. */
    static method Analyse(cfg: Cfg, fuel: nat) returns (nullTracking: NullTracking, converged: bool)
      requires ValidCfg(cfg)
      ensures fresh(nullTracking) && nullTracking.cfg == cfg
      ensures forall b :: b in nullTracking.out ==>
        b < |cfg.blocks| && Shaped(GenMap(cfg)[b], KillMap(cfg)[b], nullTracking.out[b])
      ensures converged ==> forall b :: 0 <= b < |cfg.blocks| ==> b in nullTracking.out
      ensures Summarised(cfg, GenMap(cfg), KillMap(cfg))
      ensures Outcome(nullTracking.out, converged) ==
        Solve(cfg, GenMap(cfg), KillMap(cfg), map[], AllBlocks(|cfg.blocks|), fuel)
      ensures converged ==> forall b :: 0 <= b < |cfg.blocks| && ClosedAt(cfg, b) ==>
        Stable(cfg, GenMap(cfg), KillMap(cfg), nullTracking.out, b)
      ensures converged && Closed(cfg) ==> FixedPoint(cfg, GenMap(cfg), KillMap(cfg), nullTracking.out)
    {
      nullTracking := new NullTracking(cfg);
      var kill: OutMap := map[];
      var gen: OutMap := map[];
      for b := 0 to |cfg.blocks|
        invariant nullTracking.out == map[]
        invariant forall c :: c in gen <==> 0 <= c < b
        invariant forall c :: c in kill <==> 0 <= c < b
        invariant forall c :: c in gen ==> gen[c] == GenMap(cfg)[c]
        invariant forall c :: c in kill ==> kill[c] == KillMap(cfg)[c]
      {
        var blockKill, blockGen := ProcessBlockElements(cfg.blocks[b]);
        kill := kill[b := blockKill];
        gen := gen[b := blockGen];
      }
      assert gen == GenMap(cfg);
      assert kill == KillMap(cfg);
      converged := nullTracking.AnalyzeCfg(kill, gen, fuel);
    }
  }
}
