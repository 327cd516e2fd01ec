/** The example programs that document the state-machine framework, each stated as the
    declarations it makes and what the factory accepts or rejects under them. An example the
    Rust compiler rejects becomes a lemma that the factory's precondition does not hold. */
module StateDocExamples {
  import opened KubeletState

  /** The state types the examples define. */
  datatype Kind = TestState | NotState | OtherState | Stub

  /** The resource-state types the examples define. */
  datatype Resource = PodState | OtherPodState

  /** A value of a unit struct of the given kind. */
  function UnitState(k: Kind): Node<Kind, ()>
  {
    Node(k, ())
  }

  /** The accepted example: `TestState: State<PodState>` and `TestState: TransitionTo<TestState>`. */
  function SelfLoopProgram(): Declarations<Kind, Resource>
  {
    DeclareEdge(DeclareState(NoDeclarations(), TestState, PodState), TestState, TestState)
  }

  /** The example whose successor is no state: the edge to `NotState` is declared, but
      `NotState` implements no `State`. */
  function NotStateProgram(): Declarations<Kind, Resource>
  {
    DeclareEdge(DeclareState(NoDeclarations(), TestState, PodState), TestState, NotState)
  }

  /** The example with the self-edge left out. */
  function MissingSelfEdgeProgram(): Declarations<Kind, Resource>
  {
    DeclareState(NoDeclarations(), TestState, PodState)
  }

  /** The example whose successor is a state over another resource state:
      `OtherState: State<OtherPodState>`. */
  function OtherResourceProgram(): Declarations<Kind, Resource>
  {
    DeclareEdge(
      DeclareState(DeclareState(NoDeclarations(), TestState, PodState), OtherState, OtherPodState),
      TestState, OtherState)
  }

  /** `TestState` stepping to itself is accepted once the self-edge is declared, and the
      transition holds the new `TestState`. */
  lemma SelfLoopAccepted()
    ensures MayTransition(SelfLoopProgram(), PodState, TestState, TestState)
    ensures TransitionNext(SelfLoopProgram(), PodState, UnitState(TestState), UnitState(TestState))
            == Next(StateHolder(UnitState(TestState)))
  {
  }

  /** A declared edge to a type that is no `State` is still rejected, over any resource state. */
  lemma NotStateRejected()
    ensures HasEdge(NotStateProgram(), TestState, NotState)
    ensures forall s :: !MayTransition(NotStateProgram(), s, TestState, NotState)
  {
  }

  /** Without the self-edge the self-transition is rejected; declaring it gives the accepted
      example. */
  lemma MissingSelfEdgeRejected()
    ensures !MayTransition(MissingSelfEdgeProgram(), PodState, TestState, TestState)
    ensures DeclareEdge(MissingSelfEdgeProgram(), TestState, TestState) == SelfLoopProgram()
  {
  }

  /** An edge between states over different resource states is rejected over either of them. */
  lemma OtherResourceRejected()
    ensures HasEdge(OtherResourceProgram(), TestState, OtherState)
    ensures IsState(OtherResourceProgram(), OtherState, OtherPodState)
    ensures !MayTransition(OtherResourceProgram(), PodState, TestState, OtherState)
    ensures !MayTransition(OtherResourceProgram(), OtherPodState, TestState, OtherState)
  {
  }

  /** A `Next` holding a `Stub` written by hand, under any declarations that give `Stub` no
      incoming edge (the example declares nothing at all), is built by no call of the factory and
      is admissible from no state: since the field of `StateHolder` is private, the example's
      `Next` cannot be written. */
  lemma HandBuiltHolderInadmissible(d: Declarations<Kind, Resource>, s: Resource)
    requires forall i :: !HasEdge(d, i, Stub)
    ensures !Buildable(d, s, Next(StateHolder(UnitState(Stub))))
    ensures forall i :: !Admissible(d, s, i, Next(StateHolder(UnitState(Stub))))
  {
    NoIncomingEdgeNotBuildable(d, s, UnitState(Stub));
  }
}
