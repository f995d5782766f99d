# Variable registry and resolver selection

A Dafny model of `DefaultAIVariableService`, the registry behind the AI
context variables of the editor (`#file`, `#selection`, ...). Contributions
register variable definitions together with resolvers and optional argument
pickers. Callers later resolve a reference to a variable by name, or by name
and argument. The registry then probes every resolver registered for the
name, picks the best one and delegates to it.

The model consists of:

- `wrappers.dfy`: `Option`, which stands for `undefined` results.
- `keys.dfy`: `getKey`, lower-casing of names. Every registration and lookup
  is keyed by it.
- `variables.dfy`: the interface values. These are `AIVariable`, the resolution
  request, the resolved variable, and the three shapes of `AIVariableArg` with
  their normalisation to a name and an argument.
- `listops.dfy`: `indexOf` and `splice(start, 1)` as JavaScript defines them,
  including a negative start, which counts back from the end.
- `prioritize.dfy`: the ordering contract the registry relies on from
  `Prioritizeable.prioritizeAll`. That utility is not part of this model, so its
  behaviour is an assumption, `IsStableDescending`: keep the positive scores and
  sort them by descending score, equal scores in input order. The module proves
  that this contract determines the result uniquely. It also proves that a
  stable insertion sort, `PrioritizeAll`, meets it.
- `variable_service.dfy`: the class `DefaultAIVariableService`. It has three
  map fields keyed by the lower-cased name and a ghost counter of change
  notifications. The read-only operations (lookups, `prioritize`,
  `getResolver`, `resolveVariable`) are functions of that state. The mutating
  ones (register/unregister) are methods with `modifies this`. The object
  invariant `Valid()` says that `variables` and `resolvers` have the same keys,
  that no resolver list is empty, and that every definition is stored under its
  own key. Every method keeps it.
- `scenarios.dfy`: client methods that show consequences of the contracts on
  concrete registries. Examples: first definition wins; scores 0, 5, 5 select
  the second resolver; a throwing probe loses to a score of 1; the requested
  argument is reasserted on the result.

Resolvers and pickers are foreign objects compared by identity, so they appear
as integer identities. What a resolver's `canResolve` returns (a score, or
that it threw) and what its `resolve` returns are supplied as function
parameters (`ProbeOracle`, `ResolveOracle`). The caller's context goes to those
callbacks unchanged and is never inspected by the registry, so it is folded
into them.

Three behaviours of the code are worth knowing, and the model keeps them:

- Disposing a resolver registration twice removes another resolver. On the
  second call `indexOf` returns -1, and `splice(-1, 1)` removes the list's last
  element; when that empties the list, the variable goes too.
  `ListOps.RemoveOnce` states this, and `Scenarios.StaleDisposeRemovesAnother`
  shows it on a registry.
- `unregisterVariable` leaves `argPickers` untouched, so a variable's picker
  outlives it. `UnregisterVariable` and `UnregisterResolver` state that the
  picker map is unchanged.
- Only `canResolve` is guarded: a probe that throws counts as 0. A `resolve`
  that throws is not caught, so `resolveVariable` then rejects.
  `ResolveVariable` returns `Rejected` in that case.

## Model

| member | source | states |
|---|---|---|
| `Keys.Key` | packages/ai-core/src/common/variable-service.ts:122-124 | the key has the name's length, each character lower-cased and no upper-case letter left |
| `Keys.KeyCaseInsensitive` | packages/ai-core/src/common/variable-service.ts:122-124 | two names share a key if and only if they are equal ignoring case |
| `Keys.KeyIdempotent` | packages/ai-core/src/common/variable-service.ts:122-124 | lower-casing a key again gives the same key |
| `ListOps.IndexOf` | packages/ai-core/src/common/variable-service.ts:177 | `indexOf` gives -1 exactly when the resolver is absent, otherwise the index of its first occurrence |
| `ListOps.SpliceOne` | packages/ai-core/src/common/variable-service.ts:177 | `splice(start, 1)` removes exactly the element at `start` when it is in range; a negative start counts from the end, a start below minus the length removes the first element, and a start at or past the end changes nothing |
| `ListOps.RemoveOnce` | packages/ai-core/src/common/variable-service.ts:177 | removing a resolver from a non-empty list shortens it by exactly one; an absent resolver makes it drop the LAST element |
| `ListOps.RemoveOnceFirstOccurrence` | packages/ai-core/src/common/variable-service.ts:177 | a present resolver is removed at its first occurrence and nothing else changes (as a multiset, exactly one copy goes) |
| `Prioritize.PrioritizeAllIsStableDescending` | packages/ai-core/src/common/variable-service.ts:140-147 | the filter-and-stable-sort definition meets the assumed `prioritizeAll` contract and is a permutation of the positive-score entries |
| `Prioritize.StableDescendingUnique` | packages/ai-core/src/common/variable-service.ts:140-147 | the assumed contract fixes the ordering: two orderings that meet it are equal |
| `Prioritize.StableDescendingMembers` | packages/ai-core/src/common/variable-service.ts:140-147 | an entry is selected if and only if it was probed and scored above 0 |
| `Prioritize.StableDescendingEmpty` | packages/ai-core/src/common/variable-service.ts:140-147 | the ordering is empty if and only if no probe scored above 0 |
| `Prioritize.StableDescendingHead` | packages/ai-core/src/common/variable-service.ts:126-129 | the head of the ordering is the entry at the first position with the highest score, and that score is positive |
| `VariableService.DefaultAIVariableService.ThrowCountsAsZero` | packages/ai-core/src/common/variable-service.ts:140-146 | for selection a throwing probe is the same as one returning 0: probes that agree on every score give the same order and the same selected resolver |
| `VariableService.FirstOfPrioritized` | packages/ai-core/src/common/variable-service.ts:126-128 | the head of the selection order is the first highest-scoring position, which is also where that resolver first occurs in the list |
| `VariableService.DefaultAIVariableService.constructor` | packages/ai-core/src/common/variable-service.ts:103-105 | a new registry has empty maps, satisfies the invariant and has fired no event |
| `VariableService.DefaultAIVariableService.GetVariable` | packages/ai-core/src/common/variable-service.ts:154-156 | a returned definition's name has the queried name's key; a definition is found if and only if the key has resolvers |
| `VariableService.DefaultAIVariableService.HasVariable` | packages/ai-core/src/common/variable-service.ts:150-152 | a variable is known if and only if at least one resolver is registered for it |
| `VariableService.DefaultAIVariableService.GetVariables` | packages/ai-core/src/common/variable-service.ts:158-160 | the snapshot holds every known definition, each found again by its own name, at most one per case-insensitive name |
| `VariableService.DefaultAIVariableService.GetResolvers` | packages/ai-core/src/common/variable-service.ts:131-133 | the list is empty if and only if the name is unknown |
| `VariableService.DefaultAIVariableService.GetArgumentPicker` | packages/ai-core/src/common/variable-service.ts:203-205 | the picker in the slot of the name's key, if any; no context takes part |
| `VariableService.DefaultAIVariableService.LookupsIgnoreCase` | packages/ai-core/src/common/variable-service.ts:122-124 | names equal ignoring case get the same definition, known-ness, resolvers, picker and selection order |
| `VariableService.DefaultAIVariableService.Prioritize` | packages/ai-core/src/common/variable-service.ts:135-148 | unknown name gives the empty list; otherwise exactly the registered resolvers scoring above 0, by descending score, the one ordering the assumed contract allows |
| `VariableService.DefaultAIVariableService.PrioritizeHead` | packages/ai-core/src/common/variable-service.ts:126-148 | the selection order is empty if and only if no score is positive; otherwise it starts at the first best position |
| `VariableService.DefaultAIVariableService.GetResolver` | packages/ai-core/src/common/variable-service.ts:126-129 | none for an unknown name or when no score is above 0; otherwise the resolver at the first position of the highest positive score |
| `VariableService.DefaultAIVariableService.ResolveVariable` | packages/ai-core/src/common/variable-service.ts:207-217 | unknown name, no selected resolver or an empty resolver result fulfil with none; a selected resolver that throws rejects the call; otherwise the selected resolver's record for the stored definition, with `arg` set to the requested argument |
| `VariableService.DefaultAIVariableService.BareNameIsNameWithoutArg` | packages/ai-core/src/common/variable-service.ts:208-213 | a bare name resolves exactly as that name with no argument |
| `VariableService.DefaultAIVariableService.RequestIsNameWithArg` | packages/ai-core/src/common/variable-service.ts:208-215 | a full request resolves exactly as its definition's name with its argument; the resolver receives the stored definition, not the one in the request |
| `VariableService.DefaultAIVariableService.RegisterResolver` | packages/ai-core/src/common/variable-service.ts:162-172 | first definition per key wins and fires one event; the resolver is appended; pickers unchanged; invariant kept |
| `VariableService.DefaultAIVariableService.UnregisterResolver` | packages/ai-core/src/common/variable-service.ts:174-181 | unknown key: no change; otherwise exactly one element is removed; an emptied list removes the variable and fires one event; pickers unchanged; invariant kept |
| `VariableService.DefaultAIVariableService.UnregisterVariable` | packages/ai-core/src/common/variable-service.ts:183-187 | the key leaves both definitions and resolvers; one event fires even for an unknown name; pickers unchanged |
| `VariableService.DefaultAIVariableService.RegisterArgumentPicker` | packages/ai-core/src/common/variable-service.ts:189-193 | the slot of the key holds the new picker (last wins) for every case variant of the name; definitions, resolvers and events unchanged |
| `VariableService.DefaultAIVariableService.UnregisterArgumentPicker` | packages/ai-core/src/common/variable-service.ts:195-201 | the slot is emptied only when it holds the identical picker; otherwise nothing changes |

## Left out

- Contribution wiring (`initContributions` and dependency injection, variable-service.ts:110-120) is container plumbing. Contributions appear only as calls to the registration methods.
- Change notification: subscribers and delivery of the `Emitter` are not modelled. A ghost counter records each `fire()`.
- Asynchrony: `await` points and `MaybePromise` are not modelled; each operation runs against one state of the maps. In the source, `resolveVariable` reads the maps only before its first `await`, but it keeps using what it read. A definition or resolver unregistered by another task while the probes or `resolve` are pending is still used. Also, the registry's live resolver array is handed to `prioritizeAll`. The model does not capture either.
- `VariableService.DefaultAIVariableService.GetResolver`: a probe is a function of the resolver and the request, so a resolver registered twice gets the same score at both positions. The source calls `canResolve` once per list position, and a stateful resolver could answer differently each time. The clause that the selected resolver sits where it first occurs in the list (`GetResolver`, `FirstOfPrioritized`) rests on this abstraction.
- `Prioritizeable.prioritizeAll` is not part of this model. Its contract (filter score > 0, stable sort by descending score) is an assumption, stated as `IsStableDescending`.
- Probe scores are JavaScript numbers and are modelled as reals. NaN and infinities are not modelled.
- `getKey` uses `String.prototype.toLowerCase`. The model lower-cases ASCII letters only; Unicode case mapping is not modelled.
- `AIVariableResolutionRequest.is` is a run-time type guard. It is replaced by the three constructors of `VariableArg`.
- `getVariables` returns the definitions in `Map` insertion order. The model returns a set, since callers must not rely on the order.
- `Disposable` objects: a registration returns its arguments as a `Registration` value. Disposing it means calling the matching unregister method with them, as `Disposable.create` does; a second dispose calls it again.
- Aliasing: `getResolvers` hands out the registry's own array, and `unregisterResolver` splices that array in place. The model holds lists as values and replaces them, so mutation of a handed-out array by a caller is not captured.
- The argument-picking flow (context-variable-picker.ts) and the file variable's resolution (file-variable-contribution.ts) are user interface and file-system code. They are not part of this model, except the file contribution's probe, which appears as `Scenarios.FileProbe`.
