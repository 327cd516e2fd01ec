/** The state-graph contract of the kubelet's lifecycle framework.

    A resource (a pod, say) is driven through states. Each state is a Rust type implementing
    `State<S>` for one resource-state type `S`; a step of a state yields a `Transition`, which
    either holds the successor state or completes the run with a result. The successor can only
    be packed into a `Transition` by the factory `Transition::next(i, o)`, which the Rust compiler
    lets through only when the type of the consumed box `i` declares an edge `TransitionTo<O>` to
    the successor's type and both implement `State<S>` for the same `S`. Nothing ties `i` to the
    state that is stepping: that it passes its own `self` is the documented intent, not a check.

    Here the facts the Rust compiler resolves (which types implement `State<S>` for which `S`,
    and which `TransitionTo` edges exist) are a value of type `Declarations`, and the trait bounds
    of the factory become its precondition. */
module KubeletState {

  /** An `anyhow::Error`, of which only the message is kept. */
  datatype Error = Error(message: string)

  /** `anyhow::Result<T>`: success with a value, or an error. */
  datatype Result<T> = Ok(value: T) | Err(error: Error)

  /** A state value: `kind` is the Rust type that implements `State`, `data` the value's fields. */
  datatype Node<K, D> = Node(kind: K, data: D)

  /** The boxed successor state held by `Transition::Next`. */
  datatype StateHolder<K, D> = StateHolder(state: Node<K, D>)

  /** The outcome of one state step: go on with the held state, or stop with the run's result. */
  datatype Transition<K, D> =
    | Next(holder: StateHolder<K, D>)
    | Complete(result: Result<()>)

  /** What a program declares about its states: `(k, s) in states` is `impl State<s> for k`, and
      `(i, o) in edges` is `impl TransitionTo<o> for i` (written by hand or by the derive macro). */
  datatype Declarations<K(==), R(==)> = Declarations(states: set<(K, R)>, edges: set<(K, K)>)

  /** A program that declares no state and no edge. */
  function NoDeclarations<K(==), R(==)>(): Declarations<K, R>
  {
    Declarations({}, {})
  }

  /** Kind `k` implements `State<s>`. */
  predicate IsState<K(==), R(==)>(d: Declarations<K, R>, k: K, s: R)
  {
    (k, s) in d.states
  }

  /** Kind `i` implements `TransitionTo<o>`. */
  predicate HasEdge<K(==), R(==)>(d: Declarations<K, R>, i: K, o: K)
  {
    (i, o) in d.edges
  }

  /** The trait bounds of `Transition::<s>::next::<i, o>`: `i: State<s>`, `o: State<s>` and
      `i: TransitionTo<o>`. */
  predicate MayTransition<K(==), R(==)>(d: Declarations<K, R>, s: R, i: K, o: K)
  {
    IsState(d, i, s) && IsState(d, o, s) && HasEdge(d, i, o)
  }

  /** Declares `impl State<s> for k`; the declared edges stay as they are. */
  function DeclareState<K(==,!new), R(==,!new)>(d: Declarations<K, R>, k: K, s: R): (d': Declarations<K, R>)
    ensures forall k', s' :: IsState(d', k', s') <==> IsState(d, k', s') || (k' == k && s' == s)
    ensures forall i, o :: HasEdge(d', i, o) <==> HasEdge(d, i, o)
  {
    Declarations(d.states + {(k, s)}, d.edges)
  }

  /** Declares `impl TransitionTo<o> for i`; the declared states stay as they are. */
  function DeclareEdge<K(==,!new), R(==,!new)>(d: Declarations<K, R>, i: K, o: K): (d': Declarations<K, R>)
    ensures forall a, b :: HasEdge(d', a, b) <==> HasEdge(d, a, b) || (a == i && b == o)
    ensures forall k, s :: IsState(d', k, s) <==> IsState(d, k, s)
  {
    Declarations(d.states, d.edges + {(i, o)})
  }

  /** `Transition::next(i, o)`: consumes the current state `i` and yields `Next` holding exactly
      the successor `o`. Callable only along a declared edge between two states over the same
      resource state `s`. */
  function TransitionNext<K(==), D, R(==)>(d: Declarations<K, R>, s: R, i: Node<K, D>, o: Node<K, D>): (t: Transition<K, D>)
    requires MayTransition(d, s, i.kind, o.kind)
    ensures t.Next? && t.holder.state == o
  {
    Next(StateHolder(o))
  }

  /** A transition that a step of a state of kind `i` over `s` returns when it hands its own
      `self` to the factory: a `Complete`, or a `Next` whose held state the factory accepts from
      a box of kind `i`. */
  predicate Admissible<K(==), D, R(==)>(d: Declarations<K, R>, s: R, i: K, t: Transition<K, D>)
  {
    t.Next? ==> MayTransition(d, s, i, t.holder.state.kind)
  }

  /** A transition that some call of the factory builds over `s`: a `Complete`, or a `Next` whose
      held state the factory accepts from a box of some kind. This is all the Rust compiler checks
      of a `Next` that a step returns, because the field of `StateHolder` is private to the crate
      and the factory's consumed box need not be the stepping state itself. */
  ghost predicate Buildable<K(!new), D, R>(d: Declarations<K, R>, s: R, t: Transition<K, D>)
  {
    t.Next? ==> Enterable(d, s, t.holder.state.kind)
  }

  /** Some kind may transition to `o` over `s`: `o` is a state over `s` with a declared edge into it. */
  ghost predicate Enterable<K(!new), R>(d: Declarations<K, R>, s: R, o: K)
  {
    exists i :: MayTransition(d, s, i, o)
  }

  /** The precondition of the factory holds exactly when the edge and both state declarations do;
      in particular an undeclared edge, a successor that is no `State`, and a successor over a
      different resource state are each rejected. */
  lemma MayTransitionExactly<K, R>(d: Declarations<K, R>, s: R, i: K, o: K)
    ensures MayTransition(d, s, i, o) <==> (i, o) in d.edges && (i, s) in d.states && (o, s) in d.states
    ensures (i, o) !in d.edges ==> !MayTransition(d, s, i, o)
    ensures (o, s) !in d.states ==> !MayTransition(d, s, i, o)
  {
  }

  /** A self-transition is allowed exactly when the self-edge is declared, like any other edge. */
  lemma SelfTransitionNeedsSelfEdge<K, R>(d: Declarations<K, R>, s: R, k: K)
    ensures MayTransition(d, s, k, k) <==> IsState(d, k, s) && HasEdge(d, k, k)
  {
  }

  /** Declaring the edge `i -> o` allows the transitions allowed before and, when `i` and `o` are
      states over `s`, the transition from `i` to `o`; nothing else. */
  lemma DeclareEdgeAllows<K(!new), R(!new)>(d: Declarations<K, R>, s: R, i: K, o: K)
    ensures forall a, b :: MayTransition(DeclareEdge(d, i, o), s, a, b) <==>
      MayTransition(d, s, a, b) || (a == i && b == o && IsState(d, i, s) && IsState(d, o, s))
  {
  }

  /** Declaring `k` a state over `s` allows the transitions allowed before and those along a
      declared edge that only lacked this declaration; nothing else. */
  lemma DeclareStateAllows<K(!new), R(!new)>(d: Declarations<K, R>, s: R, k: K, s': R)
    ensures forall a, b :: MayTransition(DeclareState(d, k, s'), s, a, b) <==>
      MayTransition(d, s, a, b) ||
      (s' == s && HasEdge(d, a, b) && (a == k || IsState(d, a, s)) && (b == k || IsState(d, b, s)))
  {
  }

  /** Every result of the factory is admissible from the state it consumed. */
  lemma TransitionNextAdmissible<K, D, R>(d: Declarations<K, R>, s: R, i: Node<K, D>, o: Node<K, D>)
    requires MayTransition(d, s, i.kind, o.kind)
    ensures Admissible(d, s, i.kind, TransitionNext(d, s, i, o))
  {
  }

  /** Conversely, every admissible `Next` is what the factory builds from the current state and
      the held successor, so the factory is the only way to a `Next`. */
  lemma AdmissibleNextIsFactoryResult<K, D, R>(d: Declarations<K, R>, s: R, i: Node<K, D>, t: Transition<K, D>)
    requires t.Next? && Admissible(d, s, i.kind, t)
    ensures MayTransition(d, s, i.kind, t.holder.state.kind)
    ensures t == TransitionNext(d, s, i, t.holder.state)
  {
  }

  /** Every `Next` that some call of the factory builds is the result of the factory for a box
      of a kind with a declared edge to the held state. */
  lemma BuildableNextIsFactoryResult<K(!new), D, R>(d: Declarations<K, R>, s: R, t: Transition<K, D>)
    requires t.Next? && Buildable(d, s, t)
    ensures exists i: Node<K, D> :: MayTransition(d, s, i.kind, t.holder.state.kind) &&
                                    t == TransitionNext(d, s, i, t.holder.state)
  {
    var k :| MayTransition(d, s, k, t.holder.state.kind);
    var i := Node(k, t.holder.state.data);
    assert t == TransitionNext(d, s, i, t.holder.state);
  }

  /** A state kind that is the target of no declared edge over `s` is held by no `Next` the
      factory can build: such a `Next` could only be written by hand. */
  lemma NoIncomingEdgeNotBuildable<K(!new), D, R>(d: Declarations<K, R>, s: R, o: Node<K, D>)
    requires forall i :: !HasEdge(d, i, o.kind)
    ensures !Buildable(d, s, Next(StateHolder(o)))
  {
  }

  /** The current state is consumed: the factory's result depends on the successor only. */
  lemma TransitionNextIgnoresCurrent<K, D, R>(d: Declarations<K, R>, s: R, i1: Node<K, D>, i2: Node<K, D>, o: Node<K, D>)
    requires MayTransition(d, s, i1.kind, o.kind) && MayTransition(d, s, i2.kind, o.kind)
    ensures TransitionNext(d, s, i1, o) == TransitionNext(d, s, i2, o)
  {
  }

  /** The steps `next` of a program's `State<s>` implementations as the Rust compiler accepts
      them: for every state of a kind declared as `State<s>`, every pod state and every manifest,
      the step returns a transition that some factory call builds (`next` also returns the pod
      state it was handed by `&mut`). */
  ghost predicate RustTyped<K(!new), D(!new), R, P(!new), M(!new)>(d: Declarations<K, R>, s: R, next: (Node<K, D>, P, M) -> (Transition<K, D>, P))
  {
    forall n: Node<K, D>, p: P, m: M | IsState(d, n.kind, s) :: Buildable(d, s, next(n, p, m).0)
  }

  /** The steps of a program whose every `State<s>` implementation builds its `Next` by handing
      its own `self` to the factory, as the factory's documentation asks: each step is admissible
      from the stepping state's own kind. */
  ghost predicate PassesOwnSelf<K(!new), D(!new), R, P(!new), M(!new)>(d: Declarations<K, R>, s: R, next: (Node<K, D>, P, M) -> (Transition<K, D>, P))
  {
    forall n: Node<K, D>, p: P, m: M | IsState(d, n.kind, s) :: Admissible(d, s, n.kind, next(n, p, m).0)
  }

  /** Passing its own `self` is one way of being accepted by the Rust compiler. */
  lemma PassesOwnSelfIsRustTyped<K(!new), D(!new), R, P(!new), M(!new)>(
    d: Declarations<K, R>, s: R, next: (Node<K, D>, P, M) -> (Transition<K, D>, P))
    requires PassesOwnSelf(d, s, next)
    ensures RustTyped(d, s, next)
  {
    forall n: Node<K, D>, p: P, m: M | IsState(d, n.kind, s) ensures Buildable(d, s, next(n, p, m).0) {
      assert Admissible(d, s, n.kind, next(n, p, m).0);
    }
  }

  /** A state that passes its own `self` and whose kind has no declared outgoing edge can only
      complete. */
  lemma NoOutgoingEdgeCompletes<K(!new), D(!new), R, P(!new), M(!new)>(
    d: Declarations<K, R>, s: R, next: (Node<K, D>, P, M) -> (Transition<K, D>, P), n: Node<K, D>, p: P, m: M)
    requires PassesOwnSelf(d, s, next) && IsState(d, n.kind, s)
    requires forall o :: !HasEdge(d, n.kind, o)
    ensures next(n, p, m).0.Complete?
  {
  }

  /** `nodes` and `podStates` are the successive states and pod states of steps that each went on
      with a `Next`: the step of `nodes[k]` on `podStates[k]` held `nodes[k + 1]` and left
      `podStates[k + 1]`. */
  ghost predicate IsChain<K, D, P, M>(
    next: (Node<K, D>, P, M) -> (Transition<K, D>, P), nodes: seq<Node<K, D>>, podStates: seq<P>, m: M)
  {
    && |nodes| == |podStates|
    && forall k :: 0 <= k < |nodes| - 1 ==>
         next(nodes[k], podStates[k], m) == (Next(StateHolder(nodes[k + 1])), podStates[k + 1])
  }

  /** A chain of two states or more starts with a step that went on with a `Next`. */
  lemma ChainStartsWithNext<K, D, P, M>(
    next: (Node<K, D>, P, M) -> (Transition<K, D>, P), nodes: seq<Node<K, D>>, podStates: seq<P>, m: M)
    requires IsChain(next, nodes, podStates, m)
    ensures |nodes| > 1 ==> next(nodes[0], podStates[0], m).0 == Next(StateHolder(nodes[1]))
  {
    if |nodes| > 1 {
      assert next(nodes[0], podStates[0], m) == (Next(StateHolder(nodes[1])), podStates[1]);
    }
  }

  /** What the Rust compiler guarantees of a chain: starting from a state over `s`, a chain of
      `Next` steps of accepted implementations only visits states over the same `s`, and each
      state entered is the target of some declared edge over `s`. */
  lemma {:induction false} ChainStaysOverResource<K(!new), D(!new), R, P(!new), M(!new)>(
    d: Declarations<K, R>, s: R, next: (Node<K, D>, P, M) -> (Transition<K, D>, P),
    nodes: seq<Node<K, D>>, podStates: seq<P>, m: M)
    requires RustTyped(d, s, next) && IsChain(next, nodes, podStates, m)
    requires |nodes| > 0 && IsState(d, nodes[0].kind, s)
    ensures forall k :: 0 <= k < |nodes| ==> IsState(d, nodes[k].kind, s)
    ensures forall k :: 0 < k < |nodes| ==> Enterable(d, s, nodes[k].kind)
  {
    var n := |nodes|;
    if n > 1 {
      var init, initP := nodes[..n - 1], podStates[..n - 1];
      assert IsChain(next, init, initP, m) by {
        forall k | 0 <= k < |init| - 1
          ensures next(init[k], initP[k], m) == (Next(StateHolder(init[k + 1])), initP[k + 1])
        {
          assert init[k] == nodes[k] && init[k + 1] == nodes[k + 1];
        }
      }
      ChainStaysOverResource(d, s, next, init, initP, m);
      assert IsState(d, init[n - 2].kind, s);
      assert next(nodes[n - 2], podStates[n - 2], m).0 == Next(StateHolder(nodes[n - 1]));
      assert Buildable(d, s, next(nodes[n - 2], podStates[n - 2], m).0);
      var w :| MayTransition(d, s, w, nodes[n - 1].kind);
      forall k | 0 <= k < n ensures IsState(d, nodes[k].kind, s) {
        if k < n - 1 { assert nodes[k] == init[k]; }
      }
      forall k | 0 < k < n ensures Enterable(d, s, nodes[k].kind) {
        if k < n - 1 {
          assert nodes[k] == init[k];
        } else {
          assert MayTransition(d, s, w, nodes[k].kind);
        }
      }
    }
  }

  /** The declared graph is closed when every state passes its own `self`: starting from a state
      over `s`, a chain of `Next` steps only visits states over the same `s`, and each step follows
      a declared edge. */
  lemma {:induction false} ChainFollowsEdges<K(!new), D(!new), R, P(!new), M(!new)>(
    d: Declarations<K, R>, s: R, next: (Node<K, D>, P, M) -> (Transition<K, D>, P),
    nodes: seq<Node<K, D>>, podStates: seq<P>, m: M)
    requires PassesOwnSelf(d, s, next) && IsChain(next, nodes, podStates, m)
    requires |nodes| > 0 && IsState(d, nodes[0].kind, s)
    ensures forall k :: 0 <= k < |nodes| ==> IsState(d, nodes[k].kind, s)
    ensures forall k :: 0 <= k < |nodes| - 1 ==> HasEdge(d, nodes[k].kind, nodes[k + 1].kind)
  {
    var n := |nodes|;
    if n > 1 {
      var init, initP := nodes[..n - 1], podStates[..n - 1];
      assert IsChain(next, init, initP, m) by {
        forall k | 0 <= k < |init| - 1
          ensures next(init[k], initP[k], m) == (Next(StateHolder(init[k + 1])), initP[k + 1])
        {
          assert init[k] == nodes[k] && init[k + 1] == nodes[k + 1];
        }
      }
      ChainFollowsEdges(d, s, next, init, initP, m);
      assert IsState(d, init[n - 2].kind, s);
      assert next(nodes[n - 2], podStates[n - 2], m).0 == Next(StateHolder(nodes[n - 1]));
      assert Admissible(d, s, nodes[n - 2].kind, next(nodes[n - 2], podStates[n - 2], m).0);
      forall k | 0 <= k < n ensures IsState(d, nodes[k].kind, s) {
        if k < n - 1 { assert nodes[k] == init[k]; }
      }
      forall k | 0 <= k < n - 1 ensures HasEdge(d, nodes[k].kind, nodes[k + 1].kind) {
        if k < n - 2 { assert nodes[k] == init[k] && nodes[k + 1] == init[k + 1]; }
      }
    }
  }
}
