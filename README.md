# Lifecycle state graph of the kubelet, in Dafny

This project models the state-machine framework that krustlet's kubelet uses to drive a pod (or
any other resource) through its lifecycle. It also models the WASI provider's `Completed` state.

A lifecycle state is a Rust type that implements `State<S>` for a resource-state type `S`. Its
`next` step consumes the state and returns a `Transition<S>`, which has exactly two variants:

- `Next`, holding the successor state in a `StateHolder`;
- `Complete`, holding `Ok(())` or an error.

The field of `StateHolder` is private to the crate, so user code can only build a `Next` through
the factory `Transition::next(i, o)`. The Rust compiler accepts a call to the factory only when:

- the type of the consumed box `i` declares the edge `TransitionTo<O>` to the successor's type;
- that type and the successor's both implement `State<S>` for the same `S`.

Nothing ties the box `i` to the state whose step calls the factory. The factory's documentation
asks a state to hand over its own `self`, but that is not checked (see "## Findings").

In the model, the facts the Rust compiler resolves are a value of type `Declarations`:

- `states` holds the pairs for `impl State<S> for K`;
- `edges` holds the pairs for `impl TransitionTo<O> for I`.

The factory `TransitionNext` has those trait bounds as its precondition (`MayTransition`), so
Dafny rejects at verification time every call that Rust rejects at compile time.

Crate privacy cannot be expressed here. Two predicates describe which `Next` values a step may
return instead:

- `Buildable`: some call of the factory builds it, from a box of any kind. This is what the Rust
  compiler checks.
- `Admissible`: the factory builds it from a box of the stepping state's own kind. This is the
  documented intent.

Over whole programs:

- `RustTyped` says that every `State<S>` step of a program returns a `Buildable` transition. Under
  it, `ChainStaysOverResource` proves by induction that a chain of `Next` steps that starts from
  a state over `S` stays over `S`, and that each state entered has a declared edge into it.
- `PassesOwnSelf` says that every step returns an `Admissible` transition. It is stronger than
  `RustTyped` (`PassesOwnSelfIsRustTyped`). Under it, `ChainFollowsEdges` proves by induction that
  every step of a chain also follows a declared edge from the stepping state.
- `EdgeBypass.ForeignBoxBypassesEdge` exhibits a program that is `RustTyped` but not
  `PassesOwnSelf`, and whose chain does not follow a declared edge.
- The documentation examples of `state.rs` are lemmas in `StateDocExamples`. Each one states
  what the factory accepts or rejects under that example's declarations.

Modules:

- `KubeletState` (state.dfy): `crates/kubelet/src/state.rs`.
- `WasiCompleted` (completed.dfy): `crates/wasi-provider/src/states/completed.rs`.
- `StateDocExamples` (doc_examples.dfy): the documentation examples in `state.rs`.
- `EdgeBypass` (edge_bypass.dfy): the program of the finding below.

`State::json_status` takes the resource state as `&mut S` (state.rs:235-239), so the model's
status functions return it. `Completed` returns it unchanged.

## Model

| member | source | states |
|---|---|---|
| KubeletState.TransitionNext | crates/kubelet/src/state.rs:199-211 | callable only when `i: State<s>`, `o: State<s>` and `i: TransitionTo<o>` are declared; returns `Next` whose held state is exactly the successor `o` |
| KubeletState.DeclareEdge | crates/kubelet/src/state.rs:196-197 | after `impl TransitionTo<o> for i` the declared edges are the old ones plus `i -> o`, and the state declarations are unchanged |
| KubeletState.DeclareState | crates/kubelet/src/state.rs:228-232 | after `impl State<s> for k` the state declarations are the old ones plus `(k, s)`, and the edges are unchanged |
| KubeletState.MayTransitionExactly | crates/kubelet/src/state.rs:201-209 | the factory is allowed exactly when the edge and both `State<s>` declarations exist; an undeclared edge rejects it, and so does a successor that is no state over `s` |
| KubeletState.SelfTransitionNeedsSelfEdge | crates/kubelet/src/state.rs:76-107 | a self-transition is allowed exactly when the self-edge is declared |
| KubeletState.DeclareEdgeAllows | crates/kubelet/src/state.rs:8-13 | declaring `i -> o` adds exactly the transition from `i` to `o` (when both are states over `s`) to those already allowed |
| KubeletState.DeclareStateAllows | crates/kubelet/src/state.rs:21-22 | declaring `k: State<s'>` adds exactly the declared edges whose only missing bound was that declaration |
| KubeletState.TransitionNextAdmissible | crates/kubelet/src/state.rs:206-210 | every factory result is admissible from the consumed state |
| KubeletState.AdmissibleNextIsFactoryResult | crates/kubelet/src/state.rs:171-194 | an admissible `Next` runs along a declared edge from the current kind and equals the factory's result for the current state and its held state |
| KubeletState.BuildableNextIsFactoryResult | crates/kubelet/src/state.rs:183-210 | every `Next` that some factory call builds equals the factory's result for a box of some kind with a declared edge to the held state |
| KubeletState.NoIncomingEdgeNotBuildable | crates/kubelet/src/state.rs:171-186 | a `Next` holding a state that is the target of no declared edge is built by no factory call |
| KubeletState.TransitionNextIgnoresCurrent | crates/kubelet/src/state.rs:205-210 | the current state is consumed: the factory's result depends on the successor only |
| KubeletState.PassesOwnSelfIsRustTyped | crates/kubelet/src/state.rs:199-211 | a program whose steps hand their own `self` to the factory is accepted by the Rust compiler's check |
| KubeletState.NoOutgoingEdgeCompletes | crates/kubelet/src/state.rs:189-204 | when every state passes its own `self`, a state whose kind has no declared outgoing edge can only return `Complete` |
| KubeletState.ChainStaysOverResource | crates/kubelet/src/state.rs:183-211 | a chain of `Next` steps accepted by the Rust compiler, starting from a state over `s`, visits only states over `s`, each entered through some declared edge over `s` |
| KubeletState.ChainFollowsEdges | crates/kubelet/src/state.rs:199-211 | when every state passes its own `self`, a chain of `Next` steps starting from a state over `s` visits only states over `s`, and each of its steps follows a declared edge |
| WasiCompleted.CompletedNext | crates/wasi-provider/src/states/completed.rs:10-12 | the step of `Completed` consumes its state, returns `Complete(Ok(()))` and hands back the pod state unchanged |
| WasiCompleted.CompletedJsonStatus | crates/wasi-provider/src/states/completed.rs:14-20 | the status of `Completed` is never an error; it is `make_status(Succeeded, "Completed")`, and the pod state comes back unchanged |
| WasiCompleted.CompletedNeedsNoEdges | crates/wasi-provider/src/states/completed.rs:10-12 | under every set of declarations, edgeless ones included, the step of `Completed` is both admissible and buildable |
| WasiCompleted.CompletedAlwaysTerminates | crates/wasi-provider/src/states/completed.rs:10-12 | the step of `Completed` never returns `Next`, always succeeds, and does not depend on the consumed state value, the pod state or the pod |
| WasiCompleted.CompletedStatusIsConstant | crates/wasi-provider/src/states/completed.rs:14-20 | the status of `Completed` does not depend on the pod state or the pod |
| WasiCompleted.ChainFromCompletedEnds | crates/wasi-provider/src/states/completed.rs:10-12 | a chain of `Next` steps that starts at a `Completed` state contains that state only |
| StateDocExamples.SelfLoopAccepted | crates/kubelet/src/state.rs:4-39 | with `TestState: State<PodState>` and its self-edge declared, `Transition::next(self, TestState)` is allowed and holds a new `TestState` |
| StateDocExamples.NotStateRejected | crates/kubelet/src/state.rs:41-74 | an edge to `NotState`, which is no state, is declared, yet the transition is rejected over every resource state |
| StateDocExamples.MissingSelfEdgeRejected | crates/kubelet/src/state.rs:76-107 | without the self-edge the self-transition is rejected; declaring the edge gives the accepted example |
| StateDocExamples.OtherResourceRejected | crates/kubelet/src/state.rs:109-163 | `TestState: State<PodState>` declares an edge to `OtherState: State<OtherPodState>`, yet the transition is rejected over either resource state |
| StateDocExamples.HandBuiltHolderInadmissible | crates/kubelet/src/state.rs:171-186 | under any declarations that give `Stub` no incoming edge, the example's declaring nothing among them, the hand-built `Next` holding `Stub` is built by no factory call and is admissible from no state |
| EdgeBypass.ForeignBoxBypassesEdge | crates/kubelet/src/state.rs:206-208 | with `A`, `B`, `C` states over `S` and only `B -> C` declared, the step of `A` that returns `Transition::next(Box::new(B), C)` is accepted, yet `A` has no outgoing edge and the chain `[A, C]` follows none |

## Findings

| source | as written | input that shows it | evidently intended | confidence | as-written member | corrected member |
|---|---|---|---|---|---|---|
| crates/kubelet/src/state.rs:206-208 | the factory checks the edge against the type of whatever box it is handed, and that box need not be the state whose step calls it | inside `impl State<S> for A`, return `Transition::next(Box::new(B), C)` where only `B -> C` is declared: `A` steps to `C` with no edge | a state steps only along an edge declared from its own type, as the factory's documentation (state.rs:201-204) describes | not executed | EdgeBypass.ForeignBoxBypassesEdge | KubeletState.ChainFollowsEdges |

The corrected rule is `PassesOwnSelf`: each state hands its own `self` to the factory. The model
proves the graph properties under it (`ChainFollowsEdges`, `NoOutgoingEdgeCompletes`). What holds
under the rule as written, `RustTyped`, is proved as well (`ChainStaysOverResource`).

## Left out

- Asynchrony: `async`, `async_trait` and the `Send`/`Sync`/`'static`/`Debug` bounds on `State` are left out. `next` and `json_status` are plain functions.
- `AsyncDrop`: this trait has a signature but no implementation anywhere in the modelled files, so there is nothing to model.
- The `TransitionTo` derive macro and the `prelude` module: their code is not part of this model. An edge declared by `#[transition_to(..)]` is modelled as `DeclareEdge`, the same as a hand-written `impl`.
- Privacy of `StateHolder.state`: Dafny cannot hide a constructor here. The rule that a `Next` only comes from the factory is stated through `Buildable` and `Admissible`, not enforced on every value of the type.
- KubeletState.AdmissibleNextIsFactoryResult: only unfolds `Admissible`, which fixes the factory's consumed box to the current state. Rust does not tie them (see "## Findings"). It does not prove that crate privacy rules out hand-built values.
- StateDocExamples.HandBuiltHolderInadmissible: states that no factory call builds the hand-built `Next`. It does not show that Dafny code cannot write one, because privacy is not enforced here.
- KubeletState.ChainFollowsEdges: assumes `PassesOwnSelf`, which is stronger than the Rust compiler's check. Under that check alone, only `ChainStaysOverResource` holds.
- KubeletState.NoOutgoingEdgeCompletes: assumes `PassesOwnSelf`, which is stronger than the Rust compiler's check. `EdgeBypass.ForeignBoxBypassesEdge` shows a state with no outgoing edge returning `Next` under that check.
- The trait of `Completed`: completed.rs implements a two-parameter `State<PodState, PodStatus>` from `kubelet::pod::state::prelude`, whose `json_status` returns `anyhow::Result<PodStatus>`. That trait is not part of this model. `Completed` is plugged into the one-parameter `Transition`, `IsChain`, `Admissible` and `Buildable` of `KubeletState`.
- `ResourceState::Manifest` (state.rs:223-226): the association of a manifest type with a resource state is not modelled. The manifest type `M` is a free parameter, unrelated to the resource-state identifier.
- The three rejected documentation examples (state.rs:41-163) have other compile errors too. They declare `next` as returning `anyhow::Result<Transition<PodState>>` rather than `Transition<S>`, and their `PodState` has no `impl ResourceState`. So they fail to compile whatever their edges are. Their lemmas state only the edge-and-state reason for rejection.
- Trait resolution: Rust decides `impl State<S> for K` and `impl TransitionTo<O> for I` over types. The model uses kind identifiers `K` and resource-state identifiers `R` instead. The fields of a state value are an abstract `D`.
- `anyhow::Error` is reduced to its message. `serde_json::Value`, `PodStatus`, `PodState` and `Pod` are abstract type parameters.
- `make_status` is not part of this model. It is passed to `CompletedJsonStatus` as the function `makeStatus`.
- `Phase`: kubelet's `Phase` type is not part of this model. It is written as the five Kubernetes pod phases.
- The driver loop that repeatedly steps states, delivers status patches and runs cleanup does not appear in the modelled files. Only chains of `Next` steps are described, through `IsChain`.
- The `json_status` bodies of the documentation examples (which return JSON `null`) are not modelled. `Stub`'s definition is not part of this model either.
