/** The contract dependency graph: depth-first ordering and configuration validation (scripts/deployment/models.py). */
module DependencyOrder {
  import opened Prelude

  datatype Name = Name(text: string)

  datatype Mode = ByConstructor | ByInitialize

  /** A JSON argument template: its text and the context keys it mentions. */
  datatype Template = Template(text: string, refs: set<Name>)

  datatype ContractSpec = ContractSpec(
    name: Name,
    envKey: string,
    dependencies: seq<Name>,
    mode: Mode,
    constructorArgs: Template,
    initializeArgs: Template,
    healthCheck: Option<Template>)

  datatype SortError = Cycle(path: seq<Name>) | UnknownName(name: Name)

  type Graph = map<Name, ContractSpec>

  /** The dictionary built from the contracts: a later duplicate replaces the earlier value. */
  function ByName(contracts: seq<ContractSpec>): Graph {
    if contracts == [] then map[]
    else var last := contracts[|contracts| - 1];
         ByName(contracts[..|contracts| - 1])[last.name := last]
  }

  /** The dictionary's keys in insertion order. */
  function Keys(contracts: seq<ContractSpec>): (r: seq<Name>)
    ensures forall n :: n in r <==> n in ByName(contracts)
  {
    if contracts == [] then []
    else
      var init := contracts[..|contracts| - 1];
      var name := contracts[|contracts| - 1].name;
      if name in ByName(init) then Keys(init) else Keys(init) + [name]
  }

  predicate IsEdge(g: Graph, a: Name, b: Name) {
    a in g && b in g[a].dependencies
  }

  ghost predicate IsPath(g: Graph, path: seq<Name>) {
    forall i :: 0 <= i < |path| - 1 ==> IsEdge(g, path[i], path[i + 1])
  }

  /** A closed walk along dependency edges. */
  ghost predicate IsCycle(g: Graph, path: seq<Name>) {
    |path| >= 2 && path[0] == path[|path| - 1] && IsPath(g, path)
  }

  ghost predicate HasCycle(g: Graph) {
    exists path :: IsCycle(g, path)
  }

  /** Every entry is filed under its own name. */
  ghost predicate NamesMatch(g: Graph) {
    forall n :: n in g ==> g[n].name == n
  }

  /** Some suffix of the reported chain is a cycle. */
  ghost predicate EndsInCycle(g: Graph, path: seq<Name>) {
    exists k :: 0 <= k < |path| && IsCycle(g, path[k..])
  }

  ghost predicate AllKnown(g: Graph) {
    forall n, d :: n in g && d in g[n].dependencies ==> d in g
  }

  ghost predicate Occurs(n: Name, ordered: seq<ContractSpec>) {
    exists j :: 0 <= j < |ordered| && ordered[j].name == n
  }

  /** Every dependency occurs strictly earlier. */
  ghost predicate DepsFirst(ordered: seq<ContractSpec>) {
    forall i, d :: 0 <= i < |ordered| && d in ordered[i].dependencies ==> Occurs(d, ordered[..i])
  }

  ghost predicate DistinctNames(ordered: seq<ContractSpec>) {
    forall i, j :: 0 <= i < j < |ordered| ==> ordered[i].name != ordered[j].name
  }

  ghost predicate Entries(g: Graph, ordered: seq<ContractSpec>) {
    forall i :: 0 <= i < |ordered| ==> ordered[i].name in g && ordered[i] == g[ordered[i].name]
  }

  /** `ordered` lists every contract of the graph once, each after all its dependencies. */
  ghost predicate IsOrder(g: Graph, ordered: seq<ContractSpec>) {
    DistinctNames(ordered) && Entries(g, ordered) && DepsFirst(ordered) && forall n :: n in g ==> Occurs(n, ordered)
  }

  // ---- An ordered graph has no cycle ------------------------------------------

  lemma {:induction false} PathsDescend(g: Graph, ordered: seq<ContractSpec>, path: seq<Name>, first: nat)
    returns (last: nat)
    requires IsOrder(g, ordered) && IsPath(g, path) && path != []
    requires first < |ordered| && ordered[first].name == path[0]
    ensures last + |path| - 1 <= first && ordered[last].name == path[|path| - 1]
    decreases |path|
  {
    last := first;
    if |path| > 1 {
      assert IsEdge(g, path[0], path[1]);
      assert ordered[first] == g[path[0]];
      assert Occurs(path[1], ordered[..first]);
      var second :| 0 <= second < first && ordered[second].name == path[1];
      var rest := path[1..];
      forall i | 0 <= i < |rest| - 1
        ensures IsEdge(g, rest[i], rest[i + 1])
      {
        assert IsEdge(g, path[i + 1], path[i + 2]);
      }
      last := PathsDescend(g, ordered, rest, second);
    }
  }

  lemma OrderedMeansAcyclic(g: Graph, ordered: seq<ContractSpec>)
    requires IsOrder(g, ordered)
    ensures !HasCycle(g)
  {
    forall path | IsCycle(g, path)
      ensures false
    {
      assert IsEdge(g, path[0], path[1]);
      assert Occurs(path[0], ordered);
      var first :| 0 <= first < |ordered| && ordered[first].name == path[0];
      var last := PathsDescend(g, ordered, path, first);
    }
  }

  // ---- Facts about the dictionary ----------------------------------------------

  lemma {:induction false} UniqueEntries(contracts: seq<ContractSpec>)
    requires DistinctNames(contracts)
    ensures Entries(ByName(contracts), contracts)
    ensures forall n :: n in ByName(contracts) ==> Occurs(n, contracts)
    decreases |contracts|
  {
    hide Keys;
    if contracts != [] {
      var init := contracts[..|contracts| - 1];
      var last := contracts[|contracts| - 1];
      UniqueEntries(init);
      assert contracts == init + [last];
      forall n | n in ByName(contracts)
        ensures Occurs(n, contracts)
      {
        OccursInMore(n, init, last);
      }
    }
  }

  lemma {:induction false} UniqueKeys(contracts: seq<ContractSpec>)
    requires DistinctNames(contracts)
    ensures |Keys(contracts)| == |contracts|
    ensures forall i :: 0 <= i < |contracts| ==> Keys(contracts)[i] == contracts[i].name
    decreases |contracts|
  {
    hide ByName, Occurs;
    if contracts != [] {
      var init := contracts[..|contracts| - 1];
      var last := contracts[|contracts| - 1];
      UniqueKeys(init);
      UniqueEntries(init);
      NotYetPresent(init, last);
    }
  }

  lemma NotYetPresent(init: seq<ContractSpec>, last: ContractSpec)
    requires DistinctNames(init + [last])
    requires forall n :: n in ByName(init) ==> Occurs(n, init)
    ensures last.name !in ByName(init)
  {
    var all := init + [last];
    assert all[|init|] == last && forall j :: 0 <= j < |init| ==> all[j] == init[j];
  }

  lemma OccursInMore(n: Name, ordered: seq<ContractSpec>, c: ContractSpec)
    ensures Occurs(n, ordered + [c]) <==> n == c.name || Occurs(n, ordered)
  {
    var more := ordered + [c];
    if Occurs(n, ordered) {
      var j :| 0 <= j < |ordered| && ordered[j].name == n;
      assert more[j].name == n;
    }
    assert more[|ordered|].name == c.name;
  }

  lemma {:induction false} ByNameEntries(contracts: seq<ContractSpec>)
    ensures forall n :: n in ByName(contracts) ==> ByName(contracts)[n] in contracts && ByName(contracts)[n].name == n
    ensures forall c :: c in contracts ==> c.name in ByName(contracts)
    decreases |contracts|
  {
    if contracts != [] {
      ByNameEntries(contracts[..|contracts| - 1]);
    }
  }

  lemma AppendToOrder(g: Graph, ordered: seq<ContractSpec>, c: ContractSpec)
    requires DistinctNames(ordered) && Entries(g, ordered) && DepsFirst(ordered)
    requires c.name in g && g[c.name] == c && !Occurs(c.name, ordered)
    requires forall d :: d in c.dependencies ==> Occurs(d, ordered)
    ensures DistinctNames(ordered + [c]) && Entries(g, ordered + [c]) && DepsFirst(ordered + [c])
    ensures forall n :: Occurs(n, ordered + [c]) <==> n == c.name || Occurs(n, ordered)
  {
    var more := ordered + [c];
    forall i, d | 0 <= i < |more| && d in more[i].dependencies
      ensures Occurs(d, more[..i])
    {
      if i < |ordered| {
        assert more[..i] == ordered[..i] && Occurs(d, ordered[..i]);
      } else {
        assert more[..i] == ordered;
      }
    }
    forall n
      ensures Occurs(n, more) <==> n == c.name || Occurs(n, ordered)
    {
      OccursInMore(n, ordered, c);
    }
    if Occurs(c.name, ordered) {
      assert false;
    }
  }

  // ---- The depth-first visit ---------------------------------------------------

  /** The mutable working sets that the nested `visit` function shares with its caller. */
  class Sorter {
    const byName: Graph
    var permanent: set<Name>
    var temporary: set<Name>
    var ordered: seq<ContractSpec>

    ghost predicate Valid()
      reads this
    {
      && DistinctNames(ordered) && Entries(byName, ordered) && DepsFirst(ordered)
      && (forall n :: n in permanent <==> Occurs(n, ordered))
      && temporary !! permanent
      && temporary <= byName.Keys
    }

    constructor (byName: Graph)
      ensures Valid() && this.byName == byName && permanent == {} && temporary == {} && ordered == []
    {
      this.byName := byName;
      permanent, temporary, ordered := {}, {}, [];
    }

    method Visit(name: Name, chain: seq<Name>) returns (error: Option<SortError>)
      requires Valid() && IsPath(byName, chain + [name])
      requires forall n :: n in temporary <==> n in chain
      requires NamesMatch(byName)
      modifies this
      ensures error.None? ==> Valid() && temporary == old(temporary) && name in permanent
      ensures error.None? ==> old(permanent) <= permanent
      ensures name in old(permanent) ==> error.None? && ordered == old(ordered)
      ensures name in byName && name !in old(permanent) && name !in old(temporary)
              && (forall d :: d in byName[name].dependencies ==> d in old(permanent))
              ==> error.None? && ordered == old(ordered) + [byName[name]]
      ensures error.Some? && error.value.Cycle? ==> EndsInCycle(byName, error.value.path)
      ensures AllKnown(byName) && name in byName ==> error.None? || error.value.Cycle?
      decreases |byName.Keys - temporary|, 0
    {
      hide DistinctNames, Entries, DepsFirst, Occurs, IsPath, EndsInCycle;
      if name in permanent {
        return None;
      }
      if name in temporary {
        RepeatIsCycle(byName, chain, name);
        return Some(Cycle(chain + [name]));
      }
      if name !in byName {
        return Some(UnknownName(name));
      }
      temporary := temporary + {name};
      var contract := byName[name];
      SubsetSize(byName.Keys - temporary, old(byName.Keys - temporary), name);
      var failure := VisitDependencies(contract, chain + [name]);
      if failure.Some? {
        return failure;
      }
      Finish(contract);
      return None;
    }

    /** The end of `visit`: all dependencies are in place, and the contract goes after them. */
    method Finish(contract: ContractSpec)
      requires Valid() && contract.name in byName && byName[contract.name] == contract
      requires contract.name in temporary && forall d :: d in contract.dependencies ==> d in permanent
      modifies this
      ensures Valid() && temporary == old(temporary) - {contract.name} && permanent == old(permanent) + {contract.name}
      ensures ordered == old(ordered) + [contract]
    {
      hide DistinctNames, Entries, DepsFirst, Occurs;
      temporary := temporary - {contract.name};
      AppendToOrder(byName, ordered, contract);
      permanent := permanent + {contract.name};
      ordered := ordered + [contract];
    }

    /** The loop of `visit`: `contract` is the last name of the chain `here`, and all of `here` is in progress. */
    method VisitDependencies(contract: ContractSpec, here: seq<Name>) returns (error: Option<SortError>)
      requires Valid() && IsPath(byName, here) && here != [] && contract.name == here[|here| - 1]
      requires contract.name in byName && byName[contract.name] == contract
      requires forall n :: n in temporary <==> n in here
      requires NamesMatch(byName)
      modifies this
      ensures error.None? ==> Valid() && temporary == old(temporary) && old(permanent) <= permanent
      ensures error.None? ==> forall d :: d in contract.dependencies ==> d in permanent
      ensures (forall d :: d in contract.dependencies ==> d in old(permanent))
              ==> error.None? && ordered == old(ordered) && permanent == old(permanent)
      ensures error.Some? && error.value.Cycle? ==> EndsInCycle(byName, error.value.path)
      ensures AllKnown(byName) ==> error.None? || error.value.Cycle?
      decreases |byName.Keys - temporary|, 1
    {
      hide DistinctNames, Entries, DepsFirst, Occurs, IsPath, EndsInCycle;
      for i := 0 to |contract.dependencies|
        invariant Valid() && temporary == old(temporary) && old(permanent) <= permanent
        invariant forall j :: 0 <= j < i ==> contract.dependencies[j] in permanent
        invariant (forall d :: d in contract.dependencies ==> d in old(permanent)) ==> ordered == old(ordered)
      {
        var dependency := contract.dependencies[i];
        ExtendPath(byName, here, dependency);
        var failure := Visit(dependency, here);
        if failure.Some? {
          return failure;
        }
      }
      assert (forall n :: n in permanent <==> Occurs(n, ordered));
      return None;
    }
  }

  lemma SubsetSize<T>(small: set<T>, big: set<T>, x: T)
    requires small <= big && x in big && x !in small
    ensures |small| < |big|
  {
    assert x in big - small;
    assert big == small + (big - small);
    assert |big| == |small| + |big - small|;
  }

  lemma ExtendPath(g: Graph, path: seq<Name>, next: Name)
    requires IsPath(g, path) && path != [] && IsEdge(g, path[|path| - 1], next)
    ensures IsPath(g, path + [next])
  {
  }

  lemma RepeatIsCycle(g: Graph, chain: seq<Name>, name: Name)
    requires IsPath(g, chain + [name]) && name in chain
    ensures EndsInCycle(g, chain + [name])
  {
    var path := chain + [name];
    var k :| 0 <= k < |chain| && chain[k] == name;
    var tail := path[k..];
    forall i | 0 <= i < |tail| - 1
      ensures IsEdge(g, tail[i], tail[i + 1])
    {
      assert IsEdge(g, path[k + i], path[k + i + 1]);
    }
    assert IsCycle(g, path[k..]);
  }

  /** The input already lists every dependency before its dependents. */
  ghost predicate AlreadyOrdered(contracts: seq<ContractSpec>) {
    DistinctNames(contracts) && DepsFirst(contracts)
  }

  lemma AlreadyOrderedStep(contracts: seq<ContractSpec>, i: nat)
    requires AlreadyOrdered(contracts) && i < |contracts|
    ensures !Occurs(contracts[i].name, contracts[..i])
    ensures forall d :: d in contracts[i].dependencies ==> Occurs(d, contracts[..i])
    ensures contracts[..i] + [contracts[i]] == contracts[..i + 1]
  {
  }

  lemma AlreadyOrderedNames(contracts: seq<ContractSpec>)
    requires AlreadyOrdered(contracts)
    ensures |Keys(contracts)| == |contracts|
    ensures forall i :: 0 <= i < |contracts| ==>
              Keys(contracts)[i] == contracts[i].name
              && contracts[i].name in ByName(contracts) && ByName(contracts)[contracts[i].name] == contracts[i]
  {
    UniqueEntries(contracts);
    UniqueKeys(contracts);
  }

  lemma SingletonPath(g: Graph, name: Name)
    ensures IsPath(g, [] + [name])
  {
  }

  lemma EndingInCycle(g: Graph, path: seq<Name>)
    requires EndsInCycle(g, path)
    ensures HasCycle(g)
  {
    var k :| 0 <= k < |path| && IsCycle(g, path[k..]);
  }

  method TopologicalOrder(contracts: seq<ContractSpec>) returns (r: Result<seq<ContractSpec>, SortError>)
    ensures r.Ok? ==> IsOrder(ByName(contracts), r.value)
    ensures r.Err? && r.error.Cycle? ==> EndsInCycle(ByName(contracts), r.error.path)
    ensures AllKnown(ByName(contracts)) ==> (r.Err? <==> HasCycle(ByName(contracts))) && (r.Ok? || r.error.Cycle?)
    ensures AlreadyOrdered(contracts) ==> r == Ok(contracts)
  {
    hide DistinctNames, Entries, DepsFirst, Occurs, IsPath, EndsInCycle, HasCycle, ByName, AlreadyOrdered, Keys;
    var names := Keys(contracts);
    var sorter := new Sorter(ByName(contracts));
    ByNameEntries(contracts);
    if AlreadyOrdered(contracts) {
      AlreadyOrderedNames(contracts);
    }
    for i := 0 to |names|
      invariant sorter.Valid() && sorter.byName == ByName(contracts) && sorter.temporary == {} && fresh(sorter)
      invariant forall j :: 0 <= j < i ==> names[j] in sorter.permanent
      invariant AlreadyOrdered(contracts) ==> sorter.ordered == contracts[..i]
    {
      assert names[i] in names;
      if AlreadyOrdered(contracts) {
        AlreadyOrderedStep(contracts, i);
      }
      SingletonPath(sorter.byName, names[i]);
      var failure := sorter.Visit(names[i], []);
      if failure.Some? {
        if failure.value.Cycle? {
          EndingInCycle(sorter.byName, failure.value.path);
        }
        return Err(failure.value);
      }
    }
    assert IsOrder(ByName(contracts), sorter.ordered);
    OrderedMeansAcyclic(ByName(contracts), sorter.ordered);
    assert contracts[..|contracts|] == contracts;
    return Ok(sorter.ordered);
  }

  // ---- Validation --------------------------------------------------------------

  datatype ConfigError =
    | DuplicateName
    | DuplicateEnvKey
    | UnknownDependency(contract: Name)
    | SelfDependency(contract: Name)
    | DependencyCycle(path: seq<Name>)
    | MissingKey(name: Name)

  ghost predicate DistinctEnvKeys(contracts: seq<ContractSpec>) {
    forall i, j :: 0 <= i < j < |contracts| ==> contracts[i].envKey != contracts[j].envKey
  }

  /** Comparing the number of distinct items with the length detects repetition. */
  lemma {:induction false} DistinctBySize<T>(items: seq<T>)
    ensures |set x | x in items| == |items| <==> forall i, j :: 0 <= i < j < |items| ==> items[i] != items[j]
    ensures |set x | x in items| <= |items|
    decreases |items|
  {
    if items != [] {
      var init := items[..|items| - 1];
      var last := items[|items| - 1];
      DistinctBySize(init);
      assert items == init + [last];
      assert (set x | x in items) == (set x | x in init) + {last};
      if last in init {
        assert (set x | x in items) == (set x | x in init);
        var i :| 0 <= i < |init| && init[i] == last;
        assert items[i] == items[|items| - 1];
      } else {
        assert forall i :: 0 <= i < |init| ==> items[i] == init[i] && init[i] in init;
      }
    }
  }

  function ContractNames(contracts: seq<ContractSpec>): seq<Name> {
    seq(|contracts|, i requires 0 <= i < |contracts| => contracts[i].name)
  }

  function EnvKeys(contracts: seq<ContractSpec>): seq<string> {
    seq(|contracts|, i requires 0 <= i < |contracts| => contracts[i].envKey)
  }

  /** A configuration passes exactly when names and environment keys are unique, dependencies are known
      and the dependency graph has no cycle (a self-dependency is one). */
  ghost predicate Acceptable(contracts: seq<ContractSpec>) {
    && DistinctNames(contracts) && DistinctEnvKeys(contracts)
    && AllKnown(ByName(contracts)) && !HasCycle(ByName(contracts))
  }

  method Validate(contracts: seq<ContractSpec>) returns (error: Option<ConfigError>)
    ensures error.None? <==> Acceptable(contracts)
    ensures error.Some? ==> !error.value.MissingKey?
    ensures error.Some? && error.value.DependencyCycle? ==> EndsInCycle(ByName(contracts), error.value.path)
  {
    hide DistinctNames, DistinctEnvKeys, Entries, Occurs, EndsInCycle, HasCycle, ByName, IsEdge;
    var names := ContractNames(contracts);
    var envKeys := EnvKeys(contracts);
    DistinctNamesBySize(contracts);
    var known := set n | n in names;
    if |known| != |names| {
      return Some(DuplicateName);
    }
    if |set k | k in envKeys| != |envKeys| {
      return Some(DuplicateEnvKey);
    }
    KnownNames(contracts);
    ghost var g := ByName(contracts);
    for i := 0 to |contracts|
      invariant forall j, d :: 0 <= j < i && d in contracts[j].dependencies ==> d in g
    {
      var c := contracts[i];
      var missing := (set d | d in c.dependencies) - known;
      assert forall d :: d in c.dependencies && d !in known ==> d in missing;
      if missing != {} {
        return Some(UnknownDependency(c.name));
      }
      if c.name in c.dependencies {
        SelfLoop(g, c.name);
        return Some(SelfDependency(c.name));
      }
    }
    var sorted := TopologicalOrder(contracts);
    if sorted.Err? {
      return Some(match sorted.error case Cycle(path) => DependencyCycle(path) case UnknownName(n) => MissingKey(n));
    }
    return None;
  }

  lemma DistinctNamesBySize(contracts: seq<ContractSpec>)
    ensures |set n | n in ContractNames(contracts)| == |ContractNames(contracts)| <==> DistinctNames(contracts)
    ensures |set k | k in EnvKeys(contracts)| == |EnvKeys(contracts)| <==> DistinctEnvKeys(contracts)
  {
    var names, envKeys := ContractNames(contracts), EnvKeys(contracts);
    DistinctBySize(names);
    DistinctBySize(envKeys);
    assert forall i :: 0 <= i < |contracts| ==> names[i] == contracts[i].name && envKeys[i] == contracts[i].envKey;
  }

  lemma KnownNames(contracts: seq<ContractSpec>)
    requires DistinctNames(contracts)
    ensures forall n :: n in ByName(contracts) <==> n in ContractNames(contracts)
    ensures forall c :: c in contracts ==> c.name in ByName(contracts) && ByName(contracts)[c.name] == c
    ensures forall n :: n in ByName(contracts) ==> ByName(contracts)[n] in contracts
  {
    var names := ContractNames(contracts);
    UniqueEntries(contracts);
    ByNameEntries(contracts);
    forall n | n in ByName(contracts)
      ensures n in names
    {
      assert Occurs(n, contracts);
      var j :| 0 <= j < |contracts| && contracts[j].name == n;
      assert names[j] == n;
    }
  }

  lemma SelfLoop(g: Graph, n: Name)
    requires n in g && n in g[n].dependencies
    ensures HasCycle(g)
  {
    assert IsEdge(g, n, n);
    assert IsCycle(g, [n, n]);
  }

  // ---- Loading -----------------------------------------------------------------

  /** Every order lists distinct contracts after their dependencies, and a list that does so is an order of the graph
      it defines. */
  lemma OrderIsOrdered(g: Graph, ordered: seq<ContractSpec>)
    ensures IsOrder(g, ordered) ==> AlreadyOrdered(ordered)
    ensures AlreadyOrdered(ordered) <==> IsOrder(ByName(ordered), ordered)
  {
    hide DepsFirst, Entries, ByName;
    if DistinctNames(ordered) {
      UniqueEntries(ordered);
    }
  }

  /** The contracts of a loaded configuration in the order of deployment: validation, then the sort, which no longer
      fails. */
  method OrderedContracts(contracts: seq<ContractSpec>) returns (r: Result<seq<ContractSpec>, ConfigError>)
    ensures r.Ok? <==> Acceptable(contracts)
    ensures r.Ok? ==> IsOrder(ByName(contracts), r.value) && AlreadyOrdered(r.value)
  {
    hide DistinctNames, DistinctEnvKeys, IsOrder, HasCycle, ByName, AllKnown, AlreadyOrdered;
    var error := Validate(contracts);
    if error.Some? {
      return Err(error.value);
    }
    var sorted := TopologicalOrder(contracts);
    OrderIsOrdered(ByName(contracts), sorted.value);
    return Ok(sorted.value);
  }
}
