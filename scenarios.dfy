/**
 * Client code in the style of a contribution and its callers: what can be
 * proved about a registry from the contracts of its operations alone.
 */
module Scenarios {
  import opened Wrappers
  import opened Keys
  import opened Variables
  import opened ListOps
  import opened Prioritize
  import opened VariableService

  /** The `file` variable contributed by the file-variable contribution. */
  const FileVariable := Variable(
    "file-provider", "file", "Resolves the contents of a file", None,
    Some([ArgDescription("uri", "The URI of the requested file.")]))

  /** The file contribution's probe: score 1 for a request on the variable named `file`, else 0. */
  function FileProbe(resolver: ResolverId, request: ResolutionRequest): Probe {
    if request.variable.name == "file" then Returned(1.0) else Returned(0.0)
  }

  /** The first definition stored under a key wins, whatever the case of later names. */
  method FirstDefinitionWins() {
    var s := new DefaultAIVariableService();
    var upper := FileVariable.(name := "File", description := "another provider");
    KeyCaseInsensitive("File", "file");
    KeyCaseInsensitive("FILE", "file");
    var _ := s.RegisterResolver(upper, 1);
    var _ := s.RegisterResolver(FileVariable, 2);
    assert s.GetVariable("file") == Some(upper);
    assert s.GetVariable("FILE") == Some(upper);
    assert s.GetResolvers("FILE") == [1, 2];
    assert s.changeEvents == 1;
  }

  /**
   * Disposing the same resolver registration twice: the second call finds the
   * resolver absent and removes the LAST resolver of the list instead, here
   * the other resolver, which takes the variable with it.
   */
  method StaleDisposeRemovesAnother() {
    var s := new DefaultAIVariableService();
    var first := s.RegisterResolver(FileVariable, 1);
    var _ := s.RegisterResolver(FileVariable, 2);
    s.UnregisterResolver(first.variable, first.resolver);
    assert s.GetResolvers("file") == [2];
    assert s.HasVariable("file");
    s.UnregisterResolver(first.variable, first.resolver);
    assert !s.HasVariable("file");
    assert s.changeEvents == 2;
  }

  /** A stale picker unregistration leaves the newer picker in place. */
  method StalePickerUnregisterIsNoOp() {
    var s := new DefaultAIVariableService();
    var stale := s.RegisterArgumentPicker(FileVariable, 10);
    var _ := s.RegisterArgumentPicker(FileVariable, 11);
    s.UnregisterArgumentPicker(stale.variable, stale.picker);
    assert s.GetArgumentPicker("file") == Some(11);
  }

  /** Scores 0, 5, 5 in registration order: the first resolver scoring 5 is selected. */
  method TieGoesToEarliest() {
    var s := new DefaultAIVariableService();
    var _ := s.RegisterResolver(FileVariable, 1);
    var _ := s.RegisterResolver(FileVariable, 2);
    var _ := s.RegisterResolver(FileVariable, 3);
    var probe := (x: ResolverId, rq: ResolutionRequest) => if x == 1 then Returned(0.0) else Returned(5.0);
    var es := ProbeRound([1, 2, 3], probe, ResolutionRequest(FileVariable, None));
    assert es[0].priority == 0.0 && es[1].priority == 5.0 && es[2].priority == 5.0;
    assert s.GetResolvers("file") == [1, 2, 3];
    assert s.GetVariable("file") == Some(FileVariable);
    var chosen := s.GetResolver("file", None, probe);
    assert chosen.Some?;
    var i := IndexOf([1, 2, 3], chosen.value);
    assert IsFirstBest(es, i);
    assert i == 1;
    assert chosen == Some(2);
  }

  /** A throwing probe counts as 0, so a resolver scoring 1 is preferred to it. */
  method ThrowingProbeLoses() {
    var s := new DefaultAIVariableService();
    var _ := s.RegisterResolver(FileVariable, 1);
    var _ := s.RegisterResolver(FileVariable, 2);
    var probe := (x: ResolverId, rq: ResolutionRequest) => if x == 1 then Threw else Returned(1.0);
    var es := ProbeRound([1, 2], probe, ResolutionRequest(FileVariable, None));
    assert es[0].priority == 0.0 && es[1].priority == 1.0;
    var chosen := s.GetResolver("file", None, probe);
    assert chosen == Some(2);
  }

  /** The requested argument is reported on the result even though the resolver left it out. */
  method ArgumentIsReasserted() {
    var s := new DefaultAIVariableService();
    var _ := s.RegisterResolver(FileVariable, 1);
    var resolve := (x: ResolverId, rq: ResolutionRequest) =>
      Gave(Some(ResolvedVariable(rq.variable, None, "b.txt", Some("<contents>"))));
    var es := ProbeRound([1], FileProbe, ResolutionRequest(FileVariable, Some("/a/b.txt")));
    assert es[0].priority == 1.0;
    var r := s.ResolveVariable(ByNameAndArg("file", Some("/a/b.txt")), FileProbe, resolve);
    assert r == Fulfilled(Some(ResolvedVariable(FileVariable, Some("/a/b.txt"), "b.txt", Some("<contents>"))));
  }

  /** A selected resolver whose `resolve` throws makes the whole resolution reject. */
  method ThrowingResolveRejects() {
    var s := new DefaultAIVariableService();
    var _ := s.RegisterResolver(FileVariable, 1);
    var resolve := (x: ResolverId, rq: ResolutionRequest) => ResolveThrew;
    var es := ProbeRound([1], FileProbe, ResolutionRequest(FileVariable, None));
    assert es[0].priority == 1.0;
    var r := s.ResolveVariable(ByName("file"), FileProbe, resolve);
    assert r == Rejected;
  }

  /** Nothing scores above 0: resolution yields no value. */
  method AllZeroGivesNothing() {
    var s := new DefaultAIVariableService();
    var _ := s.RegisterResolver(FileVariable.(name := "selection"), 1);
    var resolve := (x: ResolverId, rq: ResolutionRequest) => Gave(Some(ResolvedVariable(rq.variable, None, "x", None)));
    var es := ProbeRound([1], FileProbe, ResolutionRequest(FileVariable.(name := "selection"), None));
    assert es[0].priority == 0.0;
    var r := s.ResolveVariable(ByName("selection"), FileProbe, resolve);
    assert r == Fulfilled(None);
  }
}
