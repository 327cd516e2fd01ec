/** The `Completed` state of the WASI provider, documented as "pod was deleted": stepping it ends
    the run successfully and its status reports the pod as succeeded.

    `Completed` is a unit struct whose kind and fields are left generic, as are the pod state, the
    pod and the status type (`PodStatus`); the status constructor `make_status` is passed in as
    `makeStatus`. */
module WasiCompleted {
  import opened KubeletState

  /** The phases of a Kubernetes pod. */
  datatype Phase = Pending | Running | Succeeded | Failed | Unknown

  /** The message that `Completed` reports with its status. */
  const CompletedMessage: string := "Completed"

  /** `State::next` for `Completed`: the state `current` is consumed, the run ends successfully
      and the pod state, handed over by `&mut`, comes back untouched. No `Next` is ever produced. */
  function CompletedNext<K, D, P, M>(current: Node<K, D>, podState: P, pod: M): (r: (Transition<K, D>, P))
    ensures r.0 == Complete(Ok(()))
    ensures r.1 == podState
  {
    (Complete(Ok(())), podState)
  }

  /** `State::json_status` for `Completed`: never an error; the status is the one `make_status`
      builds for phase `Succeeded` and the message `"Completed"`. The pod state comes back
      untouched. */
  function CompletedJsonStatus<P, M, St>(makeStatus: (Phase, string) -> St, podState: P, pod: M): (r: (Result<St>, P))
    ensures r.0.Ok? && r.0.value == makeStatus(Succeeded, CompletedMessage)
    ensures r.1 == podState
  {
    (Ok(makeStatus(Succeeded, CompletedMessage)), podState)
  }

  /** Whatever the declared edges, a step of `Completed` is admissible: it needs no outgoing
      edge, not even when none is declared from its kind. */
  lemma CompletedNeedsNoEdges<K(!new), D, R, P, M>(d: Declarations<K, R>, s: R, current: Node<K, D>, podState: P, pod: M)
    ensures Admissible(d, s, current.kind, CompletedNext(current, podState, pod).0)
    ensures Buildable(d, s, CompletedNext(current, podState, pod).0)
  {
  }

  /** A step of `Completed` always terminates the run with success, and which state value, pod
      state and pod it is given makes no difference to the transition. */
  lemma CompletedAlwaysTerminates<K, D, P, M>(n1: Node<K, D>, p1: P, m1: M, n2: Node<K, D>, p2: P, m2: M)
    ensures !CompletedNext(n1, p1, m1).0.Next?
    ensures CompletedNext(n1, p1, m1).0.result.Ok?
    ensures CompletedNext(n1, p1, m1).0 == CompletedNext(n2, p2, m2).0
  {
  }

  /** The status of `Completed` depends on neither the pod state nor the pod. */
  lemma CompletedStatusIsConstant<P, M, St>(makeStatus: (Phase, string) -> St, p1: P, m1: M, p2: P, m2: M)
    ensures CompletedJsonStatus(makeStatus, p1, m1).0 == CompletedJsonStatus(makeStatus, p2, m2).0
  {
  }

  /** In a program that steps every state of kind `k` as `Completed`, a chain of `Next` steps
      that starts at such a state is that state alone: the run stops there. */
  lemma ChainFromCompletedEnds<K, D, P, M>(
    next: (Node<K, D>, P, M) -> (Transition<K, D>, P), k: K,
    nodes: seq<Node<K, D>>, podStates: seq<P>, m: M)
    requires forall n: Node<K, D>, p: P :: n.kind == k ==> next(n, p, m) == CompletedNext(n, p, m)
    requires IsChain(next, nodes, podStates, m) && |nodes| > 0 && nodes[0].kind == k
    ensures |nodes| == 1
  {
    ChainStartsWithNext(next, nodes, podStates, m);
  }
}
