/**
  The dataflow equations of the forward "must" analysis. A block's IN is the
  intersection of the OUT sets already recorded for its predecessors and for its
  own exception targets (blocks with no recorded OUT are skipped, and IN is empty
  when nothing is recorded); its OUT is GEN ∪ (IN − KILL). OUT sets are kept in a
  map from block index to set; a missing key means "not computed yet".
*/
module Dataflow {
  import opened Syntax

  type OutMap = map<nat, set<Symbol>>

  /** The recorded OUT sets of the blocks `ids`, in order, skipping unrecorded ones. */
  function Recorded(ids: seq<nat>, out: OutMap): seq<set<Symbol>>
  {
    if ids == [] then []
    else
      var last := ids[|ids| - 1];
      Recorded(ids[..|ids| - 1], out) + (if last in out then [out[last]] else [])
  }

  /** The OUT sets that flow into block `b`: its predecessors' and then its own
      exception targets'. */
  function Contributors(cfg: Cfg, b: nat, out: OutMap): seq<set<Symbol>>
    requires b < |cfg.blocks|
  {
    Recorded(cfg.blocks[b].predecessors, out) + Recorded(cfg.blocks[b].exceptions, out)
  }

  /** Intersection of a list of sets, folded from the first; empty for no sets. */
  function Meet(sets: seq<set<Symbol>>): set<Symbol>
  {
    if |sets| == 0 then {}
    else if |sets| == 1 then sets[0]
    else Meet(sets[..|sets| - 1]) * sets[|sets| - 1]
  }

  function In(cfg: Cfg, b: nat, out: OutMap): set<Symbol>
    requires b < |cfg.blocks|
  {
    Meet(Contributors(cfg, b, out))
  }

  /** OUT = GEN ∪ (IN − KILL): the unique set that contains GEN, keeps of IN all
      that is not killed, adds nothing else, and meets KILL only inside GEN. */
  function Transfer(gen: set<Symbol>, kill: set<Symbol>, blockIn: set<Symbol>): (r: set<Symbol>)
    ensures gen <= r
    ensures blockIn - kill <= r
    ensures r <= gen + blockIn
    ensures r * kill <= gen
  {
    gen + (blockIn - kill)
  }

  /** Block `p`'s OUT is read when computing block `b`'s IN. */
  predicate Reads(cfg: Cfg, b: nat, p: nat)
  {
    b < |cfg.blocks| && (p in cfg.blocks[b].predecessors || p in cfg.blocks[b].exceptions)
  }

  /** A recorded OUT has the shape of some GEN ∪ (IN − KILL). */
  predicate Shaped(gen: set<Symbol>, kill: set<Symbol>, o: set<Symbol>)
  {
    gen <= o && o * kill <= gen
  }

  /** GEN and KILL are known for every block. */
  predicate Summarised(cfg: Cfg, gen: OutMap, kill: OutMap)
  {
    forall b :: 0 <= b < |cfg.blocks| ==> b in gen && b in kill
  }

  /** Block `b` has a recorded OUT that its equation reproduces. */
  predicate Stable(cfg: Cfg, gen: OutMap, kill: OutMap, out: OutMap, b: nat)
    requires b < |cfg.blocks| && b in gen && b in kill
  {
    b in out && out[b] == Transfer(gen[b], kill[b], In(cfg, b, out))
  }

  predicate FixedPoint(cfg: Cfg, gen: OutMap, kill: OutMap, out: OutMap)
    requires Summarised(cfg, gen, kill)
  {
    forall b :: 0 <= b < |cfg.blocks| ==> Stable(cfg, gen, kill, out, b)
  }

  /** Block `b` is a successor of every block whose OUT it reads, so a change of
      any OUT that `b` depends on re-enqueues `b`. */
  predicate ClosedAt(cfg: Cfg, b: nat)
  {
    forall p: nat | p < |cfg.blocks| :: Reads(cfg, b, p) ==> b in cfg.blocks[p].successors
  }

  /** Every block is closed: a change of any OUT re-enqueues every block it can
      affect. */
  predicate Closed(cfg: Cfg)
  {
    forall b: nat | b < |cfg.blocks| :: ClosedAt(cfg, b)
  }

  // ---------------------------------------------------------------------------

  /** Meet is the intersection of all the sets, and empty when there are none. */
  lemma {:induction false} MeetIsIntersection(sets: seq<set<Symbol>>, x: Symbol)
    ensures x in Meet(sets) <==> |sets| > 0 && forall S :: S in sets ==> x in S
  {
    if |sets| > 1 {
      var init := sets[..|sets| - 1];
      MeetIsIntersection(init, x);
      assert sets == init + [sets[|sets| - 1]];
    } else if |sets| == 1 {
      assert forall S :: S in sets ==> S == sets[0];
    }
  }

  /** The recorded list holds exactly the OUT sets of the recorded blocks of `ids`. */
  lemma {:induction false} RecordedHoldsRecordedOuts(ids: seq<nat>, out: OutMap, S: set<Symbol>)
    ensures S in Recorded(ids, out) <==> exists p :: p in ids && p in out && out[p] == S
  {
    if ids != [] {
      var init, last := ids[..|ids| - 1], ids[|ids| - 1];
      RecordedHoldsRecordedOuts(init, out, S);
      assert ids == init + [last];
      if exists p :: p in ids && p in out && out[p] == S {
        var p :| p in ids && p in out && out[p] == S;
        if p != last {
          assert p in init;
        }
      }
    }
  }

  lemma {:induction false} RecordedEmpty(ids: seq<nat>, out: OutMap)
    ensures |Recorded(ids, out)| == 0 <==> forall p :: p in ids ==> p !in out
  {
    if |Recorded(ids, out)| != 0 {
      RecordedHoldsRecordedOuts(ids, out, Recorded(ids, out)[0]);
    } else if exists p :: p in ids && p in out {
      var p :| p in ids && p in out;
      RecordedHoldsRecordedOuts(ids, out, out[p]);
    }
  }

  /** A symbol is in IN exactly when some reader has a recorded OUT and every
      recorded OUT among predecessors and exception targets contains it. */
  lemma InIsMeetOfRecorded(cfg: Cfg, b: nat, out: OutMap, x: Symbol)
    requires b < |cfg.blocks|
    ensures x in In(cfg, b, out) <==>
      (exists p :: Reads(cfg, b, p) && p in out) &&
      (forall p :: Reads(cfg, b, p) && p in out ==> x in out[p])
  {
    var blk := cfg.blocks[b];
    var cs := Contributors(cfg, b, out);
    MeetIsIntersection(cs, x);
    RecordedEmpty(blk.predecessors, out);
    RecordedEmpty(blk.exceptions, out);
    forall S ensures S in cs <==> exists p :: Reads(cfg, b, p) && p in out && out[p] == S {
      RecordedHoldsRecordedOuts(blk.predecessors, out, S);
      RecordedHoldsRecordedOuts(blk.exceptions, out, S);
    }
    if (forall S :: S in cs ==> x in S) {
      forall p | Reads(cfg, b, p) && p in out ensures x in out[p] {
        assert out[p] in cs;
      }
    }
  }

  /** IN depends only on the OUT sets of the blocks it reads. */
  lemma {:induction false} RecordedFrame(ids: seq<nat>, o1: OutMap, o2: OutMap)
    requires forall p :: p in ids ==> (p in o1 <==> p in o2) && (p in o1 ==> o1[p] == o2[p])
    ensures Recorded(ids, o1) == Recorded(ids, o2)
  {
    if ids != [] {
      var init := ids[..|ids| - 1];
      assert forall p :: p in init ==> p in ids;
      RecordedFrame(init, o1, o2);
    }
  }

  lemma InFrame(cfg: Cfg, b: nat, o1: OutMap, o2: OutMap)
    requires b < |cfg.blocks|
    requires forall p :: Reads(cfg, b, p) ==> (p in o1 <==> p in o2) && (p in o1 ==> o1[p] == o2[p])
    ensures In(cfg, b, o1) == In(cfg, b, o2)
  {
    RecordedFrame(cfg.blocks[b].predecessors, o1, o2);
    RecordedFrame(cfg.blocks[b].exceptions, o1, o2);
  }

  /** A block none of whose predecessors or exception targets is recorded, such as
      the entry block, gets IN = ∅ and so OUT = GEN. */
  lemma NothingRecordedGivesGen(cfg: Cfg, b: nat, out: OutMap, gen: set<Symbol>, kill: set<Symbol>)
    requires b < |cfg.blocks|
    requires forall p :: Reads(cfg, b, p) ==> p !in out
    ensures In(cfg, b, out) == {}
    ensures Transfer(gen, kill, In(cfg, b, out)) == gen
  {
    forall x ensures x !in In(cfg, b, out) {
      InIsMeetOfRecorded(cfg, b, out, x);
    }
  }

  /** At a merge, a block `q` that reassigns `s` without dereferencing it afterwards
      removes `s` from the IN of every block that reads `q`'s recorded OUT. */
  lemma ReassigningBranchBlocksMerge(cfg: Cfg, b: nat, q: nat, out: OutMap,
                                     genQ: set<Symbol>, killQ: set<Symbol>, s: Symbol)
    requires b < |cfg.blocks| && Reads(cfg, b, q) && q in out
    requires Shaped(genQ, killQ, out[q])
    requires s in killQ && s !in genQ
    ensures s !in In(cfg, b, out)
  {
    InIsMeetOfRecorded(cfg, b, out, s);
  }

  /** A symbol in every recorded incoming OUT (at least one) survives the merge. */
  lemma SurvivesWhenInEveryIncoming(cfg: Cfg, b: nat, q: nat, out: OutMap, s: Symbol)
    requires b < |cfg.blocks| && Reads(cfg, b, q) && q in out
    requires forall p :: Reads(cfg, b, p) && p in out ==> s in out[p]
    ensures s in In(cfg, b, out)
  {
    InIsMeetOfRecorded(cfg, b, out, s);
  }

  /** A block's own exception targets take part in its meet exactly like its
      predecessors: IN never holds more than a recorded target's OUT. */
  lemma OwnExceptionTargetBoundsIn(cfg: Cfg, b: nat, t: nat, out: OutMap)
    requires b < |cfg.blocks| && t in cfg.blocks[b].exceptions && t in out
    ensures In(cfg, b, out) <= out[t]
  {
    forall x | x in In(cfg, b, out) ensures x in out[t] {
      InIsMeetOfRecorded(cfg, b, out, x);
      assert Reads(cfg, b, t);
    }
  }
}
