/** The optional value of a Ruby variable or hash entry that may be nil. */
module Options {
  datatype Option<+T> = None | Some(value: T)
}

/**
  The parsed Ruby program as the checks see it: s-expressions, each an
  array whose element 0 is the node's type tag (`s(:call, target, method,
  s(:arglist, ...))`), together with the source line the node came from.
*/
module Sexps {

  datatype Sexp =
    | Nil
    | Sym(name: string)
    | Str(value: string)
    | Node(line: int, elems: seq<Sexp>)

  /** Ruby's `s[i]`: the element at `i`, or nil past the end or on a non-array. */
  function Elem(s: Sexp, i: nat): Sexp
  {
    if s.Node? && i < |s.elems| then s.elems[i] else Nil
  }

  predicate HasTag(s: Sexp, tag: string)
  {
    s.Node? && |s.elems| > 0 && s.elems[0] == Sym(tag)
  }

  /** A backtick literal with interpolation, `` `rm #{x}` ``. */
  predicate IsDxstr(s: Sexp)
  {
    HasTag(s, "dxstr")
  }

  /** A method call `s(:call, target, method, s(:arglist, args...))`. */
  predicate IsCall(s: Sexp)
  {
    HasTag(s, "call") && |s.elems| >= 4 && s.elems[3].Node?
  }

  type CallSexp = s: Sexp | IsCall(s)
    witness Node(0, [Sym("call"), Nil, Sym("system"), Node(0, [Sym("arglist")])])

  /** The argument list `call[3]` of a call. */
  function Args(call: CallSexp): (a: Sexp)
    ensures a.Node? && a == Elem(call, 3)
  {
    call.elems[3]
  }

  /**
    The backtick literals of a tree in the order a depth-first,
    left-to-right walk meets them. A walk stops at a literal: a literal
    nested inside another is not met on its own.
  */
  function DxstrNodes(e: Sexp): (r: seq<Sexp>)
    ensures forall d <- r :: IsDxstr(d)
    ensures IsDxstr(e) ==> r == [e]
    ensures !e.Node? ==> r == []
    decreases e, 1
  {
    if IsDxstr(e) then [e]
    else if e.Node? then DxstrNodesFrom(e, 0)
    else []
  }

  /** The backtick literals of the elements `e.elems[i..]`. */
  function DxstrNodesFrom(e: Sexp, i: nat): (r: seq<Sexp>)
    requires e.Node? && i <= |e.elems|
    ensures forall d <- r :: IsDxstr(d)
    decreases e, 0, |e.elems| - i
  {
    if i == |e.elems| then [] else DxstrNodes(e.elems[i]) + DxstrNodesFrom(e, i + 1)
  }
}
