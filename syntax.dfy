/**
  The syntax the belief-style null-check analysis consumes: the element kinds a
  basic block can hold, the expression shapes the analysis looks inside, and a
  control-flow graph given as a sequence of blocks whose edges are block indices.
  Parsing, symbol resolution and CFG construction happen elsewhere; the model
  takes their results as values.
*/
module Syntax {

  /** The resolved identity of a local variable or parameter: two identifiers
      denote the same variable exactly when their symbols are equal. */
  type Symbol = int

  datatype Option<T> = None | Some(value: T)

  /** The expression shapes the analysis distinguishes. */
  datatype Expr =
    | Ident(sym: Symbol)        // an identifier, with its resolved symbol
    | NullLit                   // the literal `null`
    | Select(receiver: Expr)    // a member select `receiver.member`
    | OtherExpr                 // any other expression

  /** One element of a basic block, classified by its syntax kind. */
  datatype Element =
    | Assign(lhs: Expr)                  // an assignment `lhs = ...`
    | MemberSelect(target: Expr)         // a member select `target.member`
    | Invoke(methodSelect: Expr)         // a method invocation `methodSelect(...)`
    | VarDecl(declared: Symbol)          // a local declaration `T declared = ...`
    | EqualTo(left: Expr, right: Expr)   // an equality test `left == right`
    | Other                              // any other element kind

  /** A basic block: its elements in evaluation order and its three edge lists. */
  datatype Block = Block(
    elements: seq<Element>,
    predecessors: seq<nat>,
    successors: seq<nat>,
    exceptions: seq<nat>)

  datatype Cfg = Cfg(blocks: seq<Block>)

  predicate IdsBelow(ids: seq<nat>, n: nat)
  {
    forall k :: 0 <= k < |ids| ==> ids[k] < n
  }

  /** Every edge of the graph names one of its blocks. */
  predicate ValidCfg(cfg: Cfg)
  {
    forall b :: 0 <= b < |cfg.blocks| ==>
      && IdsBelow(cfg.blocks[b].predecessors, |cfg.blocks|)
      && IdsBelow(cfg.blocks[b].successors, |cfg.blocks|)
      && IdsBelow(cfg.blocks[b].exceptions, |cfg.blocks|)
  }
}
