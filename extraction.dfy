/**
  Gen/kill extraction for one basic block. The elements are visited in forward
  order and a running pair of sets is updated: an assignment to an identifier or
  a local declaration kills the symbol and drops it from GEN; a dereference
  through an identifier receiver adds it to GEN. The last event for a symbol
  therefore decides whether it ends up in GEN, while KILL records every symbol
  that was ever reassigned or declared in the block.
*/
module Extraction {
  import opened Syntax

  datatype GenKill = GenKill(gen: set<Symbol>, kill: set<Symbol>)

  const Empty := GenKill({}, {})

  // ---------------------------------------------------------------------------
  // The per-element helpers, one per helper of the analysis.

  /** A dereference of `receiver` proves it non-null when it is an identifier. */
  function ProcessPointerUse(receiver: Expr, gen: set<Symbol>): set<Symbol>
  {
    if receiver.Ident? then gen + {receiver.sym} else gen
  }

  /** A call dereferences the receiver of its method select, when it has one. */
  function ProcessMethodInvocation(methodSelect: Expr, gen: set<Symbol>): set<Symbol>
  {
    if methodSelect.Select? then ProcessPointerUse(methodSelect.receiver, gen) else gen
  }

  /** A declaration voids every belief about the declared symbol. */
  function ProcessVariable(declared: Symbol, gk: GenKill): GenKill
  {
    GenKill(gk.gen - {declared}, gk.kill + {declared})
  }

  /** An assignment to an identifier voids every belief about it; any other
      left-hand side is ignored. */
  function ProcessAssignment(lhs: Expr, gk: GenKill): GenKill
  {
    if lhs.Ident? then GenKill(gk.gen - {lhs.sym}, gk.kill + {lhs.sym}) else gk
  }

  // ---------------------------------------------------------------------------
  // An independent description of what each element does.

  /** The symbol an element dereferences, if any. */
  function DerefOf(e: Element): Option<Symbol>
  {
    match e
    case MemberSelect(Ident(s)) => Some(s)
    case Invoke(Select(Ident(s))) => Some(s)
    case _ => None
  }

  /** The symbol an element reassigns or declares, if any. */
  function KillOf(e: Element): Option<Symbol>
  {
    match e
    case Assign(Ident(s)) => Some(s)
    case VarDecl(s) => Some(s)
    case _ => None
  }

  /** One step of the running extraction. A field access `x.f` dereferences its
      receiver `x`, just as a call `x.m()` does. */
  function Step(gk: GenKill, e: Element): (r: GenKill)
    ensures gk.kill <= r.kill
    ensures KillOf(e).Some? ==>
      r == GenKill(gk.gen - {KillOf(e).value}, gk.kill + {KillOf(e).value})
    ensures DerefOf(e).Some? ==> r == GenKill(gk.gen + {DerefOf(e).value}, gk.kill)
    ensures DerefOf(e).None? && KillOf(e).None? ==> r == gk
  {
    match e
    case Assign(lhs) => ProcessAssignment(lhs, gk)
    case MemberSelect(target) => GenKill(ProcessPointerUse(target, gk.gen), gk.kill)
    case Invoke(methodSelect) => GenKill(ProcessMethodInvocation(methodSelect, gk.gen), gk.kill)
    case VarDecl(declared) => ProcessVariable(declared, gk)
    case _ => gk
  }

  /** GEN and KILL of a block's elements, folded front to back. */
  function Extract(es: seq<Element>): GenKill
  {
    if es == [] then Empty else Step(Extract(es[..|es| - 1]), es[|es| - 1])
  }

  /** GEN and KILL of every block of a graph, keyed by block index. */
  function GenMap(cfg: Cfg): map<nat, set<Symbol>>
  {
    map b: nat | b < |cfg.blocks| :: Extract(cfg.blocks[b].elements).gen
  }

  function KillMap(cfg: Cfg): map<nat, set<Symbol>>
  {
    map b: nat | b < |cfg.blocks| :: Extract(cfg.blocks[b].elements).kill
  }

  // ---------------------------------------------------------------------------
  // The last event wins.

  /** Some element dereferences `s` and no later element reassigns or declares it. */
  ghost predicate LastTouchIsDeref(es: seq<Element>, s: Symbol)
  {
    exists i :: 0 <= i < |es| && DerefOf(es[i]) == Some(s) && NoKillAfter(es, i, s)
  }

  ghost predicate NoKillAfter(es: seq<Element>, i: nat, s: Symbol)
  {
    forall j :: i < j < |es| ==> KillOf(es[j]) != Some(s)
  }

  /** Some element reassigns or declares `s`. */
  ghost predicate Killed(es: seq<Element>, s: Symbol)
  {
    exists i :: 0 <= i < |es| && KillOf(es[i]) == Some(s)
  }

  /** A symbol is in GEN exactly when its last touch in the block is a dereference. */
  lemma {:induction false} ExtractGenIsLastDeref(es: seq<Element>, s: Symbol)
    ensures s in Extract(es).gen <==> LastTouchIsDeref(es, s)
  {
    if es != [] {
      var init, e := es[..|es| - 1], es[|es| - 1];
      ExtractGenIsLastDeref(init, s);
      if KillOf(e) == Some(s) {
      } else if DerefOf(e) == Some(s) {
        assert DerefOf(es[|es| - 1]) == Some(s) && NoKillAfter(es, |es| - 1, s);
      } else {
        assert s in Extract(es).gen <==> s in Extract(init).gen;
        if LastTouchIsDeref(init, s) {
          var i :| 0 <= i < |init| && DerefOf(init[i]) == Some(s) && NoKillAfter(init, i, s);
          assert DerefOf(es[i]) == Some(s) && NoKillAfter(es, i, s);
        }
        if LastTouchIsDeref(es, s) {
          var i :| 0 <= i < |es| && DerefOf(es[i]) == Some(s) && NoKillAfter(es, i, s);
          assert i < |init|;
          assert DerefOf(init[i]) == Some(s) && NoKillAfter(init, i, s);
        }
      }
    }
  }

  /** A symbol is in KILL exactly when some element reassigns or declares it. */
  lemma {:induction false} ExtractKillIsKilled(es: seq<Element>, s: Symbol)
    ensures s in Extract(es).kill <==> Killed(es, s)
  {
    if es != [] {
      var init, e := es[..|es| - 1], es[|es| - 1];
      ExtractKillIsKilled(init, s);
      if Killed(init, s) {
        var i :| 0 <= i < |init| && KillOf(init[i]) == Some(s);
        assert KillOf(es[i]) == Some(s);
      }
      if Killed(es, s) && KillOf(e) != Some(s) {
        var i :| 0 <= i < |es| && KillOf(es[i]) == Some(s);
        assert i < |init| && KillOf(init[i]) == Some(s);
      }
    }
  }

  /** Extraction never forgets a kill: the KILL of a prefix is part of the KILL of
      the whole block. */
  lemma {:induction false} KillOnlyGrows(es: seq<Element>, k: nat)
    requires k <= |es|
    ensures Extract(es[..k]).kill <= Extract(es).kill
  {
    if k < |es| {
      assert es[..|es| - 1][..k] == es[..k];
      KillOnlyGrows(es[..|es| - 1], k);
    } else {
      assert es[..k] == es;
    }
  }

  /** Dereference then reassignment, with no later dereference, leaves the symbol
      out of GEN (and in KILL). */
  lemma {:induction false} DerefThenReassign(es: seq<Element>, d: nat, k: nat, s: Symbol)
    requires d < k < |es| && DerefOf(es[d]) == Some(s) && KillOf(es[k]) == Some(s)
    requires forall j :: k < j < |es| ==> DerefOf(es[j]) != Some(s)
    ensures s !in Extract(es).gen && s in Extract(es).kill
  {
    assert DerefOf(es[k]) == None;
    ExtractKillIsKilled(es, s);
    ExtractGenIsLastDeref(es, s);
  }

  /** Reassignment then dereference, with no later kill, puts the symbol in GEN
      (and in KILL). */
  lemma {:induction false} ReassignThenDeref(es: seq<Element>, k: nat, d: nat, s: Symbol)
    requires k < d < |es| && KillOf(es[k]) == Some(s) && DerefOf(es[d]) == Some(s)
    requires forall j :: d < j < |es| ==> KillOf(es[j]) != Some(s)
    ensures s in Extract(es).gen && s in Extract(es).kill
  {
    assert NoKillAfter(es, d, s);
    ExtractKillIsKilled(es, s);
    ExtractGenIsLastDeref(es, s);
  }

  // ---------------------------------------------------------------------------
  // The member-select case as the analysis writes it: the select element itself,
  // not its receiver, is handed to the pointer-use helper, so the identifier test
  // never holds and a field access never adds to GEN.

  function StepAsWritten(gk: GenKill, e: Element): GenKill
  {
    match e
    case Assign(lhs) => ProcessAssignment(lhs, gk)
    case MemberSelect(target) => GenKill(ProcessPointerUse(Select(target), gk.gen), gk.kill)
    case Invoke(methodSelect) => GenKill(ProcessMethodInvocation(methodSelect, gk.gen), gk.kill)
    case VarDecl(declared) => ProcessVariable(declared, gk)
    case _ => gk
  }

  function ExtractAsWritten(es: seq<Element>): GenKill
  {
    if es == [] then Empty else StepAsWritten(ExtractAsWritten(es[..|es| - 1]), es[|es| - 1])
  }

  /** As written, a field access `p.f` leaves GEN empty, where the corrected step
      records the belief that `p` is non-null. */
  lemma FieldAccessDroppedAsWritten(p: Symbol)
    ensures ExtractAsWritten([MemberSelect(Ident(p))]).gen == {}
    ensures Extract([MemberSelect(Ident(p))]).gen == {p}
  {
    assert [MemberSelect(Ident(p))][..0] == [];
  }

  /** On a block without field accesses the two versions agree, so every block
      whose dereferences are all method calls is extracted identically. */
  lemma {:induction false} AsWrittenAgreesWithoutFieldAccess(es: seq<Element>)
    requires forall i :: 0 <= i < |es| ==> !es[i].MemberSelect?
    ensures ExtractAsWritten(es) == Extract(es)
  {
    if es != [] {
      AsWrittenAgreesWithoutFieldAccess(es[..|es| - 1]);
    }
  }
}
