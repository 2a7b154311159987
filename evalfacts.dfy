/**
 * What the evaluator guarantees on the code the parser writes: it never
 * pops an empty stack and never follows a symbol reference that points
 * nowhere.
 */
module EvalFacts {
  import opened Machine
  import opened Attrs
  import opened Tokens
  import opened Symbols
  import opened State
  import opened Operators
  import opened Evaluator
  import opened ParserFacts

  /** Every symbol reference from cell k on points at an entry. */
  predicate ResolvedFrom(cells: seq<Cell>, k: nat, symptr: seq<SymKey>, tab: SymTab)
  {
    forall i :: k <= i < |cells| && cells[i].CSym? ==> cells[i].idx < |symptr| && symptr[cells[i].idx] in tab
  }

  /** Once a cell runs short the depth stays stuck. */
  lemma {:induction false} DepthStuck(cells: seq<Cell>)
    ensures Depth(cells, -1) == -1
  {
  }

  /** Depth from a cell on, one cell at a time. */
  lemma DepthStep(cells: seq<Cell>, k: nat, d: int)
    requires k < |cells| && d >= 0
    ensures Depth(cells[k..], d) ==
      Depth(cells[k + 1..], if d < Pops(cells[k]) then -1 else d - Pops(cells[k]) + 1)
  {
    assert cells[k..][1..] == cells[k + 1..];
  }

  /** Code whose depth never runs short and ends with a value on the stack
      never makes the evaluator pop an empty stack, and code whose symbol
      references are resolved never makes it follow a dangling one. */
  lemma {:induction false} RunNeverShort(cells: seq<Cell>, k: nat, ev: Ev, symptr: seq<SymKey>, fpu: FloatOps)
    requires k <= |cells|
    requires Depth(cells[k..], |ev.stack|) >= 1
    requires ResolvedFrom(cells, k, symptr, ev.tab)
    ensures Run(cells, k, ev, symptr, fpu).0 != Failed(Undefined(StackUnderflow))
    ensures Run(cells, k, ev, symptr, fpu).0 != Failed(Undefined(DanglingSymbol))
    decreases |cells| - k
  {
    if k == |cells| {
      assert cells[k..] == [];
    } else {
      var c := cells[k];
      var d := |ev.stack|;
      DepthStep(cells, k, d);
      DepthStuck(cells[k + 1..]);
      assert d >= Pops(c);
      RunStep(cells, k, ev, symptr, fpu);
      var o := Step(c, ev, symptr, fpu);
      if o.Go? {
        RunNeverShort(cells, k + 1, o.ev, symptr, fpu);
      } else if c.CSym? {
        assert c.idx < |symptr| && symptr[c.idx] in ev.tab;
      }
    }
  }
}
