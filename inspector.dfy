/**
  The client of the analysis: a comparison `x == null` whose identifier `x` is in
  the OUT set of the enclosing block is reported, since `x` was dereferenced on
  every path reaching the end of that block without being reassigned since.
*/
module Inspector {
  import opened Syntax
  import opened Extraction
  import opened Dataflow
  import opened Tracking

  /** An identifier compared to a null literal on the right, and believed non-null. */
  function ProcessEqualTo(left: Expr, right: Expr, out: set<Symbol>): (r: Option<Symbol>)
    ensures r.Some? <==> right == NullLit && left.Ident? && left.sym in out
    ensures r.Some? ==> left == Ident(r.value)
  {
    if right.NullLit? && left.Ident? && left.sym in out then Some(left.sym) else None
  }

  /** Reports exactly the elements `s == null` whose symbol `s` is believed
      non-null; the mirrored `null == s` is not recognised. */
  function CheckElement(e: Element, out: set<Symbol>): (r: Option<Symbol>)
    ensures r.Some? ==> e == EqualTo(Ident(r.value), NullLit) && r.value in out
    ensures r.None? ==> forall s :: s in out ==> e != EqualTo(Ident(s), NullLit)
  {
    match e
    case EqualTo(left, right) => ProcessEqualTo(left, right, out)
    case _ => None
  }

  lemma MirroredComparisonNeverReported(s: Symbol, out: set<Symbol>)
    ensures CheckElement(EqualTo(NullLit, Ident(s)), out) == None
  {
  }

  /** A reported comparison: the block, the element's position in it, and the
      symbol of the compared identifier. */
  datatype Issue = Issue(block: nat, index: nat, sym: Symbol)

  predicate IsIssue(cfg: Cfg, out: OutMap, issue: Issue)
  {
    && issue.block < |cfg.blocks|
    && issue.block in out
    && issue.index < |cfg.blocks[issue.block].elements|
    && CheckElement(cfg.blocks[issue.block].elements[issue.index], out[issue.block]) == Some(issue.sym)
  }

  /** Issues are found block by block, and in element order within a block. */
  predicate Before(x: Issue, y: Issue)
  {
    x.block < y.block || (x.block == y.block && x.index < y.index)
  }

  predicate Ordered(issues: seq<Issue>)
  {
    forall i, j :: 0 <= i < j < |issues| ==> Before(issues[i], issues[j])
  }

  /** Checks every element of every block against that block's OUT, and lists the
      reported comparisons once each, in block order and element order. Every
      block must have a recorded OUT, as a converged analysis guarantees. */
  method ReportIssues(nullTracking: NullTracking) returns (issues: seq<Issue>)
    requires forall b :: 0 <= b < |nullTracking.cfg.blocks| ==> b in nullTracking.out
    ensures forall issue :: issue in issues <==> IsIssue(nullTracking.cfg, nullTracking.out, issue)
    ensures Ordered(issues)
  {
    var cfg := nullTracking.cfg;
    issues := [];
    for b := 0 to |cfg.blocks|
      invariant forall issue :: issue in issues <==>
        IsIssue(cfg, nullTracking.out, issue) && issue.block < b
      invariant Ordered(issues)
    {
      var blockOut := nullTracking.GetOut(b);
      var elements := cfg.blocks[b].elements;
      for i := 0 to |elements|
        invariant forall issue :: issue in issues <==>
          IsIssue(cfg, nullTracking.out, issue) &&
          (issue.block < b || (issue.block == b && issue.index < i))
        invariant Ordered(issues)
      {
        var found := CheckElement(elements[i], blockOut.value);
        if found.Some? {
          issues := issues + [Issue(b, i, found.value)];
        }
      }
    }
  }

  // ---------------------------------------------------------------------------
  // What the block's own elements decide, whatever flows in.

  /** A symbol whose last touch in the block is a reassignment or declaration is
      never reported at that block, whatever its IN. */
  lemma {:induction false} KillDominanceNoReport(es: seq<Element>, s: Symbol, blockIn: set<Symbol>)
    requires Killed(es, s) && !LastTouchIsDeref(es, s)
    ensures var gk := Extract(es);
      CheckElement(EqualTo(Ident(s), NullLit), Transfer(gk.gen, gk.kill, blockIn)) == None
  {
    ExtractGenIsLastDeref(es, s);
    ExtractKillIsKilled(es, s);
  }

  /** A symbol whose last touch in the block is a dereference is always reported
      at that block, whatever its IN. */
  lemma {:induction false} LastDerefAlwaysReported(es: seq<Element>, s: Symbol, blockIn: set<Symbol>)
    requires LastTouchIsDeref(es, s)
    ensures var gk := Extract(es);
      CheckElement(EqualTo(Ident(s), NullLit), Transfer(gk.gen, gk.kill, blockIn)) == Some(s)
  {
    ExtractGenIsLastDeref(es, s);
  }

  /** A symbol the block never touches is reported exactly when it is in IN. */
  lemma {:induction false} UntouchedFollowsIn(es: seq<Element>, s: Symbol, blockIn: set<Symbol>)
    requires forall i :: 0 <= i < |es| ==> DerefOf(es[i]) != Some(s) && KillOf(es[i]) != Some(s)
    ensures var gk := Extract(es);
      CheckElement(EqualTo(Ident(s), NullLit), Transfer(gk.gen, gk.kill, blockIn)).Some? <==>
      s in blockIn
  {
    ExtractGenIsLastDeref(es, s);
    ExtractKillIsKilled(es, s);
  }
}
