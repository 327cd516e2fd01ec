/** The factory `Transition::next(i, o)` checks the edge against the type of the box `i` it is
    handed, and nothing ties that box to the state whose step calls it. This module shows a
    program the Rust compiler accepts in which a state with no outgoing edge goes on to a
    successor anyway, by handing the factory a fresh box of another state's type. */
module EdgeBypass {
  import opened KubeletState

  /** Three unit state types. */
  datatype Kind = A | B | C

  /** One resource-state type. */
  datatype Resource = S

  /** `A`, `B` and `C` are states over `S`; the only declared edge is `B -> C`. */
  function Program(): Declarations<Kind, Resource>
  {
    DeclareEdge(DeclareState(DeclareState(DeclareState(NoDeclarations(), A, S), B, S), C, S), B, C)
  }

  /** The steps of the three states. `A` returns `Transition::next(Box::new(B), C)`, `B` returns
      `Transition::next(self, C)`, and `C` completes. */
  function Step(n: Node<Kind, ()>, p: (), m: ()): (Transition<Kind, ()>, ())
  {
    match n.kind
    case A => (TransitionNext(Program(), S, Node(B, ()), Node(C, ())), p)
    case B => (TransitionNext(Program(), S, n, Node(C, ())), p)
    case C => (Complete(Ok(())), p)
  }

  /** The Rust compiler accepts every step, yet `A`, which declares no edge, steps to `C`: the
      chain `[A, C]` does not follow a declared edge, and the program does not pass its own
      `self` to the factory. */
  lemma ForeignBoxBypassesEdge()
    ensures RustTyped(Program(), S, Step)
    ensures forall o :: !HasEdge(Program(), A, o)
    ensures Step(Node(A, ()), (), ()).0 == Next(StateHolder(Node(C, ())))
    ensures IsChain(Step, [Node(A, ()), Node(C, ())], [(), ()], ())
    ensures !HasEdge(Program(), A, C)
    ensures !PassesOwnSelf(Program(), S, Step)
  {
    forall n: Node<Kind, ()>, p: (), m: () | IsState(Program(), n.kind, S)
      ensures Buildable(Program(), S, Step(n, p, m).0)
    {
      assert MayTransition(Program(), S, B, C);
    }
    assert !Admissible(Program(), S, A, Step(Node(A, ()), (), ()).0);
  }
}
