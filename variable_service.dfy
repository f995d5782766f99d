/**
 * The variable registry (`DefaultAIVariableService`): variable definitions,
 * the resolvers registered for each, and one argument picker per variable,
 * all keyed by the lower-cased variable name; resolver selection by probe
 * score; and end-to-end resolution of a variable reference.
 *
 * Resolvers and pickers are foreign objects compared by identity, so they are
 * represented by identities. Their behaviour is supplied as oracles: `probe`
 * gives what a resolver's `canResolve` returns (a score, or that it threw) and
 * `resolve` what its `resolve` returns (a record, nothing, or that it threw). The caller's context is passed to
 * those callbacks unchanged and never inspected, so it is folded into them.
 */
module VariableService {
  import opened Wrappers
  import opened Keys
  import opened Variables
  import opened ListOps
  import opened Prioritize

  /** The identity of a resolver object. */
  type ResolverId = int

  /** The identity of an argument-picker callback. */
  type PickerId = int

  /** What a confidence probe did: returned a score, or threw. */
  datatype Probe = Returned(score: real) | Threw

  type ProbeOracle = (ResolverId, ResolutionRequest) -> Probe

  /** What a resolver's `resolve` did: gave a record or nothing, or threw. */
  datatype ResolveOutcome = Gave(result: Option<ResolvedVariable>) | ResolveThrew

  type ResolveOracle = (ResolverId, ResolutionRequest) -> ResolveOutcome

  /**
   * How the promise of `resolveVariable` settles: fulfilled with a record or
   * with nothing, or rejected, since a throwing `resolve` is not caught.
   */
  datatype Resolution = Fulfilled(result: Option<ResolvedVariable>) | Rejected

  /** The score a probe counts for in selection: a throwing probe counts as 0. */
  function ProbeScore(p: Probe): real {
    match p
    case Returned(s) => s
    case Threw => 0.0
  }

  /** What a registration hands back; disposing it is the matching unregister call with the same arguments. */
  datatype Registration =
    | ResolverRegistration(variable: Variable, resolver: ResolverId)
    | PickerRegistration(variable: Variable, picker: PickerId)

  /** One probe round: each resolver of the list paired with the score its probe gives for `request`. */
  function ProbeRound(rs: seq<ResolverId>, probe: ProbeOracle, request: ResolutionRequest): (es: seq<Scored<ResolverId>>)
    ensures |es| == |rs|
    ensures forall i :: 0 <= i < |rs| ==> es[i].value == rs[i] && es[i].priority == ProbeScore(probe(rs[i], request))
  {
    seq(|rs|, i requires 0 <= i < |rs| => Scored(rs[i], ProbeScore(probe(rs[i], request))))
  }

  /**
   * The head of any ordering that meets the assumed `prioritizeAll` contract
   * sits at the first position of the highest positive score, and that
   * position is where the resolver first occurs in the list.
   */
  lemma FirstOfPrioritized(rs: seq<ResolverId>, probe: ProbeOracle, request: ResolutionRequest, t: seq<Scored<ResolverId>>)
    requires IsStableDescending(ProbeRound(rs, probe, request), t)
    requires t != []
    ensures IsFirstBest(ProbeRound(rs, probe, request), IndexOf(rs, t[0].value))
  {
    var es := ProbeRound(rs, probe, request);
    var k := StableDescendingHead(es, t);
    var i := IndexOf(rs, rs[k]);
    assert es[i].priority == es[k].priority;
  }

  /**
   * The resolvers in the order `PrioritizeAll` gives their probe round: the
   * only order the assumed contract allows, holding exactly the resolvers that
   * score above 0, by descending score.
   */
  lemma SelectionOrder(rs: seq<ResolverId>, probe: ProbeOracle, request: ResolutionRequest)
    ensures var r := Values(PrioritizeAll(ProbeRound(rs, probe, request)));
      (forall t :: IsStableDescending(ProbeRound(rs, probe, request), t) ==> r == Values(t))
      && (forall x :: x in r <==> x in rs && ProbeScore(probe(x, request)) > 0.0)
      && (forall i, j :: 0 <= i < j < |r| ==> ProbeScore(probe(r[i], request)) >= ProbeScore(probe(r[j], request)))
  {
    var es := ProbeRound(rs, probe, request);
    var t := PrioritizeAll(es);
    PrioritizeAllIsStableDescending(es);
    forall t' | IsStableDescending(es, t') ensures Values(t) == Values(t') {
      StableDescendingUnique(es, t, t');
    }
    forall x ensures x in Values(t) <==> x in rs && ProbeScore(probe(x, request)) > 0.0 {
      SelectedMember(rs, probe, request, t, x);
    }
    forall i | 0 <= i < |t| ensures t[i].priority == ProbeScore(probe(t[i].value, request)) {
      StableDescendingMembers(es, t, t[i]);
    }
  }

  lemma SelectedMember(rs: seq<ResolverId>, probe: ProbeOracle, request: ResolutionRequest, t: seq<Scored<ResolverId>>, x: ResolverId)
    requires IsStableDescending(ProbeRound(rs, probe, request), t)
    ensures x in Values(t) <==> x in rs && ProbeScore(probe(x, request)) > 0.0
  {
    var es := ProbeRound(rs, probe, request);
    var e := Scored(x, ProbeScore(probe(x, request)));
    StableDescendingMembers(es, t, e);
    if x in Values(t) {
      var i :| 0 <= i < |t| && Values(t)[i] == x;
      StableDescendingMembers(es, t, t[i]);
      var j :| 0 <= j < |es| && es[j] == t[i];
      assert rs[j] == x;
    }
    if x in rs && ProbeScore(probe(x, request)) > 0.0 {
      var j :| 0 <= j < |rs| && rs[j] == x;
      assert es[j] == e;
      var i :| 0 <= i < |t| && t[i] == e;
      assert Values(t)[i] == x;
    }
  }

  class DefaultAIVariableService {
    var variables: map<string, Variable>
    var resolvers: map<string, seq<ResolverId>>
    var argPickers: map<string, PickerId>
    /** How many times the change notification has fired. */
    ghost var changeEvents: nat

    /**
     * The maps stay in step: the same keys hold a definition and a resolver
     * list, no list is empty, and each definition is stored under its own key.
     */
    ghost predicate Valid()
      reads this
    {
      variables.Keys == resolvers.Keys
      && (forall k :: k in resolvers ==> resolvers[k] != [])
      && (forall k :: k in variables ==> Key(variables[k].name) == k)
    }

    constructor ()
      ensures Valid()
      ensures variables == map[] && resolvers == map[] && argPickers == map[]
      ensures changeEvents == 0
    {
      variables, resolvers, argPickers := map[], map[], map[];
      changeEvents := 0;
    }

    // ----- lookups -----

    /** The stored definition for a name, if any: its own name has the same key. */
    function GetVariable(name: string): (r: Option<Variable>)
      reads this
      requires Valid()
      ensures r.Some? ==> Key(r.value.name) == Key(name)
      ensures r.Some? <==> Key(name) in resolvers
    {
      var key := Key(name);
      if key in variables then Some(variables[key]) else None
    }

    /** A variable is known exactly when it has at least one resolver. */
    function HasVariable(name: string): (b: bool)
      reads this
      requires Valid()
      ensures b <==> GetResolvers(name) != []
    {
      GetVariable(name).Some?
    }

    /** The stored definitions (their order is not modelled): one per key, each found again by its own name. */
    function GetVariables(): (vs: set<Variable>)
      reads this
      requires Valid()
      ensures forall v :: v in vs ==> GetVariable(v.name) == Some(v)
      ensures forall n :: GetVariable(n).Some? ==> GetVariable(n).value in vs
      ensures forall v, w :: v in vs && w in vs && Key(v.name) == Key(w.name) ==> v == w
    {
      variables.Values
    }

    /** The resolvers registered for a name, in registration order; empty exactly for an unknown name. */
    function GetResolvers(name: string): (rs: seq<ResolverId>)
      reads this
      requires Valid()
      ensures rs != [] <==> Key(name) in variables
    {
      var key := Key(name);
      if key in resolvers then resolvers[key] else []
    }

    function GetArgumentPicker(name: string): Option<PickerId>
      reads this
    {
      var key := Key(name);
      if key in argPickers then Some(argPickers[key]) else None
    }

    /** Every lookup goes through the key, so names equal up to case see the same state. */
    lemma LookupsIgnoreCase(n1: string, n2: string, arg: Option<string>, probe: ProbeOracle)
      requires Valid()
      requires SameIgnoringCase(n1, n2)
      ensures GetVariable(n1) == GetVariable(n2)
      ensures HasVariable(n1) == HasVariable(n2)
      ensures GetResolvers(n1) == GetResolvers(n2)
      ensures GetArgumentPicker(n1) == GetArgumentPicker(n2)
      ensures Prioritize(n1, arg, probe) == Prioritize(n2, arg, probe)
    {
      KeyCaseInsensitive(n1, n2);
    }

    // ----- resolver selection -----

    /**
     * The resolvers for a name ordered for selection. For an unknown name this
     * is empty; otherwise every resolver is probed with the stored definition
     * and `arg`, and the result is the one ordering that meets the assumed
     * `prioritizeAll` contract on those scores: exactly the resolvers with a
     * positive score, by descending score, equal scores in registration order.
     */
    function Prioritize(name: string, arg: Option<string>, probe: ProbeOracle): (r: seq<ResolverId>)
      reads this
      requires Valid()
      ensures GetVariable(name).None? ==> r == []
      ensures GetVariable(name).Some? ==>
        var request := ResolutionRequest(GetVariable(name).value, arg);
        var es := ProbeRound(GetResolvers(name), probe, request);
        (forall t :: IsStableDescending(es, t) ==> r == Values(t))
        && (forall x :: x in r <==> x in GetResolvers(name) && ProbeScore(probe(x, request)) > 0.0)
        && (forall i, j :: 0 <= i < j < |r| ==> ProbeScore(probe(r[i], request)) >= ProbeScore(probe(r[j], request)))
    {
      var v := GetVariable(name);
      if v.None? then []
      else
        var es := ProbeRound(GetResolvers(name), probe, ResolutionRequest(v.value, arg));
        SelectionOrder(GetResolvers(name), probe, ResolutionRequest(v.value, arg));
        Values(PrioritizeAll(es))
    }

    /**
     * The selected resolver: none for an unknown name or when no resolver
     * scores above 0; otherwise the resolver at the first position of the
     * highest positive score, where it first occurs in the list.
     */
    function GetResolver(name: string, arg: Option<string>, probe: ProbeOracle): (r: Option<ResolverId>)
      reads this
      requires Valid()
      ensures GetVariable(name).None? ==> r.None?
      ensures GetVariable(name).Some? ==>
        var rs := GetResolvers(name);
        var es := ProbeRound(rs, probe, ResolutionRequest(GetVariable(name).value, arg));
        (r.None? <==> forall j :: 0 <= j < |es| ==> es[j].priority <= 0.0)
        && (r.Some? ==> IsFirstBest(es, IndexOf(rs, r.value)))
    {
      var ordered := Prioritize(name, arg, probe);
      PrioritizeHead(name, arg, probe);
      if ordered == [] then None else Some(ordered[0])
    }

    /** The selection order is empty exactly when no score is positive, and starts with the first best resolver. */
    lemma PrioritizeHead(name: string, arg: Option<string>, probe: ProbeOracle)
      requires Valid()
      ensures GetVariable(name).Some? ==>
        var rs := GetResolvers(name);
        var es := ProbeRound(rs, probe, ResolutionRequest(GetVariable(name).value, arg));
        var ordered := Prioritize(name, arg, probe);
        (ordered == [] <==> forall j :: 0 <= j < |es| ==> es[j].priority <= 0.0)
        && (ordered != [] ==> IsFirstBest(es, IndexOf(rs, ordered[0])))
    {
      if GetVariable(name).Some? {
        var rs := GetResolvers(name);
        var request := ResolutionRequest(GetVariable(name).value, arg);
        var es := ProbeRound(rs, probe, request);
        var t := PrioritizeAll(es);
        PrioritizeAllIsStableDescending(es);
        StableDescendingEmpty(es, t);
        if t != [] {
          FirstOfPrioritized(rs, probe, request, t);
        }
      }
    }

    // ----- resolution -----

    /**
     * Resolves a reference in any of its three shapes. Unknown names, no
     * selected resolver and a resolver that gives nothing all fulfil with
     * nothing; a selected resolver that throws rejects the call; otherwise the
     * result is what the selected resolver gave for the stored definition and
     * the requested argument, with `arg` set to the requested argument
     * whatever the resolver put there.
     */
    function ResolveVariable(request: VariableArg, probe: ProbeOracle, resolve: ResolveOracle): (r: Resolution)
      reads this
      requires Valid()
      ensures GetVariable(RequestedName(request)).None? ==> r == Fulfilled(None)
      ensures r.Fulfilled? && r.result.Some? ==> r.result.value.arg == RequestedArg(request)
      ensures
        var name, arg := RequestedName(request), RequestedArg(request);
        var selected := GetResolver(name, arg, probe);
        && (r.Rejected? <==>
              GetVariable(name).Some? && selected.Some?
              && resolve(selected.value, ResolutionRequest(GetVariable(name).value, arg)).ResolveThrew?)
        && (r.Fulfilled? && r.result.Some? <==>
              GetVariable(name).Some? && selected.Some?
              && resolve(selected.value, ResolutionRequest(GetVariable(name).value, arg)).Gave?
              && resolve(selected.value, ResolutionRequest(GetVariable(name).value, arg)).result.Some?)
      ensures r.Fulfilled? && r.result.Some? ==>
        var name, arg := RequestedName(request), RequestedArg(request);
        var got := resolve(GetResolver(name, arg, probe).value, ResolutionRequest(GetVariable(name).value, arg)).result.value;
        && r.result.value.variable == got.variable
        && r.result.value.value == got.value
        && r.result.value.contextValue == got.contextValue
    {
      var name := RequestedName(request);
      var variable := GetVariable(name);
      if variable.None? then Fulfilled(None)
      else
        var arg := RequestedArg(request);
        var resolver := GetResolver(name, arg, probe);
        if resolver.None? then Fulfilled(None)
        else
          match resolve(resolver.value, ResolutionRequest(variable.value, arg))
          case ResolveThrew => Rejected
          case Gave(None) => Fulfilled(None)
          case Gave(Some(resolved)) => Fulfilled(Some(resolved.(arg := arg)))
    }

    /** A bare name resolves exactly as the same name with no argument. */
    lemma BareNameIsNameWithoutArg(name: string, probe: ProbeOracle, resolve: ResolveOracle)
      requires Valid()
      ensures ResolveVariable(ByName(name), probe, resolve) == ResolveVariable(ByNameAndArg(name, None), probe, resolve)
    {
    }

    /**
     * A full request resolves exactly as its definition's name with its
     * argument: only the name of the definition it carries is used, and the
     * resolver receives the stored definition.
     */
    lemma RequestIsNameWithArg(v: Variable, arg: Option<string>, probe: ProbeOracle, resolve: ResolveOracle)
      requires Valid()
      ensures ResolveVariable(ByRequest(ResolutionRequest(v, arg)), probe, resolve)
              == ResolveVariable(ByNameAndArg(v.name, arg), probe, resolve)
    {
    }

    /**
     * For selection a probe that throws is the same as one that returns 0:
     * two probes that agree on every score select the same resolvers.
     */
    lemma ThrowCountsAsZero(name: string, arg: Option<string>, p: ProbeOracle, q: ProbeOracle)
      requires Valid()
      requires forall x, rq :: ProbeScore(p(x, rq)) == ProbeScore(q(x, rq))
      ensures Prioritize(name, arg, p) == Prioritize(name, arg, q)
      ensures GetResolver(name, arg, p) == GetResolver(name, arg, q)
    {
      if GetVariable(name).Some? {
        var request := ResolutionRequest(GetVariable(name).value, arg);
        assert ProbeRound(GetResolvers(name), p, request) == ProbeRound(GetResolvers(name), q, request);
      }
    }

    // ----- registration -----

    /**
     * Registers a resolver for a variable. The first definition stored under a
     * key wins and its storage fires the change notification once; the
     * resolver is always appended to the key's list, duplicates included.
     */
    method RegisterResolver(variable: Variable, resolver: ResolverId) returns (reg: Registration)
      requires Valid()
      modifies this
      ensures Valid()
      ensures var key := Key(variable.name);
        && variables == (if key in old(variables) then old(variables) else old(variables)[key := variable])
        && resolvers == old(resolvers)[key := (if key in old(resolvers) then old(resolvers)[key] else []) + [resolver]]
        && changeEvents == old(changeEvents) + (if key in old(variables) then 0 else 1)
      ensures argPickers == old(argPickers)
      ensures reg == ResolverRegistration(variable, resolver)
    {
      var key := Key(variable.name);
      if key !in variables {
        variables := variables[key := variable];
        changeEvents := changeEvents + 1;
      }
      var registered := if key in resolvers then resolvers[key] else [];
      resolvers := resolvers[key := registered + [resolver]];
      reg := ResolverRegistration(variable, resolver);
    }

    /**
     * Drops one element from the key's resolver list: the first occurrence of
     * `resolver`, or the last element when `resolver` is not in the list. A
     * list left empty takes the variable with it. An unknown key is a no-op.
     */
    method UnregisterResolver(variable: Variable, resolver: ResolverId)
      requires Valid()
      modifies this
      ensures Valid()
      ensures var key := Key(variable.name);
        if key !in old(resolvers) then
          variables == old(variables) && resolvers == old(resolvers) && changeEvents == old(changeEvents)
        else
          var rest := RemoveOnce(old(resolvers)[key], resolver);
          if rest == [] then
            && variables == old(variables) - {key}
            && resolvers == old(resolvers) - {key}
            && changeEvents == old(changeEvents) + 1
          else
            variables == old(variables) && resolvers == old(resolvers)[key := rest] && changeEvents == old(changeEvents)
      ensures argPickers == old(argPickers)
    {
      var key := Key(variable.name);
      if key in resolvers {
        var registered := RemoveOnce(resolvers[key], resolver);
        resolvers := resolvers[key := registered];
        if registered == [] {
          UnregisterVariable(variable.name);
          assert resolvers == old(resolvers) - {key};
          assert variables == old(variables) - {key};
          assert Valid();
        } else {
          assert resolvers.Keys == old(resolvers).Keys;
          assert Valid();
        }
      }
    }

    /** Removes a variable and all its resolvers, and fires the change notification even for an unknown name. */
    method UnregisterVariable(name: string)
      modifies this
      ensures variables == old(variables) - {Key(name)}
      ensures resolvers == old(resolvers) - {Key(name)}
      ensures changeEvents == old(changeEvents) + 1
      ensures argPickers == old(argPickers)
      ensures old(Valid()) ==> Valid()
    {
      variables := variables - {Key(name)};
      resolvers := resolvers - {Key(name)};
      changeEvents := changeEvents + 1;
    }

    /** Stores the picker for the variable's key, replacing any earlier one (last wins). */
    method RegisterArgumentPicker(variable: Variable, picker: PickerId) returns (reg: Registration)
      requires Valid()
      modifies this
      ensures Valid()
      ensures argPickers == old(argPickers)[Key(variable.name) := picker]
      ensures forall n :: SameIgnoringCase(n, variable.name) ==> GetArgumentPicker(n) == Some(picker)
      ensures variables == old(variables) && resolvers == old(resolvers) && changeEvents == old(changeEvents)
      ensures reg == PickerRegistration(variable, picker)
    {
      argPickers := argPickers[Key(variable.name) := picker];
      forall n | SameIgnoringCase(n, variable.name) ensures Key(n) == Key(variable.name) {
        KeyCaseInsensitive(n, variable.name);
      }
      reg := PickerRegistration(variable, picker);
    }

    /** Removes the variable's picker only if it is the very picker given; otherwise nothing changes. */
    method UnregisterArgumentPicker(variable: Variable, picker: PickerId)
      requires Valid()
      modifies this
      ensures Valid()
      ensures var key := Key(variable.name);
        argPickers == if key in old(argPickers) && old(argPickers)[key] == picker then old(argPickers) - {key} else old(argPickers)
      ensures variables == old(variables) && resolvers == old(resolvers) && changeEvents == old(changeEvents)
    {
      var key := Key(variable.name);
      if key in argPickers && argPickers[key] == picker {
        argPickers := argPickers - {key};
      }
    }
  }
}
