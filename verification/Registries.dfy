/** The extension registry: named contracts with requirements, resolved through the dependency closure. */
module ExtensionRegistries {
  import opened Collections
  import opened DependencyClosure
  import opened DependencyOrders
  import opened Options

  /** A plugin contract; the three flags say which hooks it supplies. */
  datatype ExtensionPoint = ExtensionPoint(name: string, requirements: seq<string>, build: bool, startup: bool,
                                           shutdown: bool)

  datatype RegistryError =
    | EmptyName
    | RequiresItself
    | AlreadyRegistered
    | UnknownNames(names: set<string>)
    | Circular(cycles: seq<seq<string>>)

  type Entries = map<string, ExtensionPoint>

  /** Contracts are filed under their own, non-empty name and none requires itself. */
  ghost predicate WellFiled(extensions: Entries) {
    forall n | n in extensions ::
      n != "" && extensions[n].name == n && n !in extensions[n].requirements
  }

  // ---- what the contracts require ----

  ghost predicate Requires(extensions: Entries, a: string, b: string) {
    a in extensions && b in extensions[a].requirements
  }

  /** Every name requires the next. */
  ghost predicate NeedPath(extensions: Entries, p: seq<string>) {
    p != [] && forall i {:trigger p[i]} | 0 <= i < |p| - 1 :: Requires(extensions, p[i], p[i + 1])
  }

  /** `x` is one of the names or is required, directly or not, by one. */
  ghost predicate Needs(extensions: Entries, names: set<string>, x: string) {
    exists p :: NeedPath(extensions, p) && p[0] in names && p[|p| - 1] == x
  }

  ghost predicate NeedCycle(extensions: Entries, c: seq<string>) {
    |c| >= 2 && NeedPath(extensions, c) && c[0] == c[|c| - 1]
  }

  /** The names that are needed require one another in a circle. */
  ghost predicate NeedsCycle(extensions: Entries, names: set<string>, c: seq<string>) {
    NeedCycle(extensions, c) && Needs(extensions, names, c[0])
  }

  /** A circle in which no name repeats. */
  ghost predicate NeedsSimpleCycle(extensions: Entries, names: set<string>, c: seq<string>) {
    NeedsCycle(extensions, names, c) && Distinct(c[..|c| - 1])
  }

  ghost predicate CompleteAt(extensions: Entries, chain: seq<string>, i: nat)
    requires i < |chain|
  {
    chain[i] in extensions && forall x | x in extensions[chain[i]].requirements :: x in chain[..i]
  }

  /** All of the names are there, and each name comes after all that its contract requires. */
  ghost predicate CanLoad(extensions: Entries, names: set<string>, chain: seq<string>) {
    (forall n | n in names :: n in chain) && forall i | 0 <= i < |chain| :: CompleteAt(extensions, chain, i)
  }

  ghost predicate RequiredLater(extensions: Entries, chain: seq<string>, k: nat)
    requires k < |chain|
  {
    exists m :: k < m < |chain| && Requires(extensions, chain[m], chain[k])
  }

  /** Nothing is in the chain twice, and nothing that neither is one of the names nor required by a later one. */
  ghost predicate NothingInVain(extensions: Entries, names: set<string>, chain: seq<string>) {
    Distinct(chain) && forall k | 0 <= k < |chain| && chain[k] !in names :: RequiredLater(extensions, chain, k)
  }

  // ---- the same as a graph ----

  function GraphOf(extensions: Entries): Graph {
    map n | n in extensions :: extensions[n].requirements
  }

  lemma PathsAgree(extensions: Entries, p: seq<string>)
    ensures NeedPath(extensions, p) <==> IsPath(GraphOf(extensions), p)
  {
    forall i | 0 <= i < |p| - 1
      ensures Requires(extensions, p[i], p[i + 1]) <==> Edge(GraphOf(extensions), p[i], p[i + 1])
    {
    }
  }

  lemma NeedsAgree(extensions: Entries, names: set<string>, x: string)
    ensures Needs(extensions, names, x) <==> Reachable(GraphOf(extensions), names, x)
  {
    if Needs(extensions, names, x) {
      var p :| NeedPath(extensions, p) && p[0] in names && p[|p| - 1] == x;
      PathsAgree(extensions, p);
      assert PathTo(GraphOf(extensions), names, p, x);
    }
    if Reachable(GraphOf(extensions), names, x) {
      var p :| PathTo(GraphOf(extensions), names, p, x);
      PathsAgree(extensions, p);
    }
  }

  lemma CyclesAgree(extensions: Entries, names: set<string>, c: seq<string>)
    ensures NeedsCycle(extensions, names, c) <==> ReachableCycle(GraphOf(extensions), names, c)
    ensures NeedsSimpleCycle(extensions, names, c)
       <==> IsSimpleCycle(GraphOf(extensions), c) && Reachable(GraphOf(extensions), names, c[0])
  {
    PathsAgree(extensions, c);
    if c != [] {
      NeedsAgree(extensions, names, c[0]);
    }
  }

  lemma OrdersAgree(extensions: Entries, names: set<string>, chain: seq<string>)
    ensures CanLoad(extensions, names, chain) <==> LoadOrder(GraphOf(extensions), names, chain)
  {
    forall i | 0 <= i < |chain|
      ensures CompleteAt(extensions, chain, i) <==> LoadableAt(GraphOf(extensions), chain, i)
    {
    }
  }

  /** A chain that can be loaded exists only if all that is needed is registered and nothing needs itself. */
  lemma CanLoadRules(extensions: Entries, names: set<string>, chain: seq<string>)
    requires CanLoad(extensions, names, chain)
    ensures forall x | Needs(extensions, names, x) :: x in extensions && x in chain
    ensures forall c :: !NeedsCycle(extensions, names, c)
  {
    OrdersAgree(extensions, names, chain);
    LoadOrderRules(GraphOf(extensions), names, chain);
    forall x ensures Needs(extensions, names, x) ==> x in extensions && x in chain {
      NeedsAgree(extensions, names, x);
    }
    forall c ensures !NeedsCycle(extensions, names, c) {
      CyclesAgree(extensions, names, c);
    }
  }

  lemma ClosureCanLoad(extensions: Entries, names: set<string>, chain: seq<string>)
    requires IsClosure(GraphOf(extensions), names, chain, [], {})
    ensures CanLoad(extensions, names, chain) && NothingInVain(extensions, names, chain)
  {
    ClosureIsLoadOrder(GraphOf(extensions), names, chain);
    OrdersAgree(extensions, names, chain);
    forall k | 0 <= k < |chain| && chain[k] !in names ensures RequiredLater(extensions, chain, k) {
      var m := MemberIsRequired(GraphOf(extensions), names, chain, k);
      assert Requires(extensions, chain[m], chain[k]);
    }
  }

  // ---- resolving and validating ----

  function NamesOf(chain: seq<ExtensionPoint>): seq<string> {
    seq(|chain|, k requires 0 <= k < |chain| => chain[k].name)
  }

  /** What resolving `name` must answer: the unregistered names it needs, if any; then the circles among those it needs,
      if any; otherwise the contracts of a chain that can be loaded, holds nothing in vain and ends with the target. */
  ghost predicate IsResolution(extensions: Entries, name: string, r: Result<seq<ExtensionPoint>, RegistryError>) {
    match r
    case Success(chain) =>
      && CanLoad(extensions, {name}, NamesOf(chain)) && NothingInVain(extensions, {name}, NamesOf(chain))
      && chain != [] && chain[|chain| - 1].name == name
      && forall e | e in chain :: e.name in extensions && extensions[e.name] == e
    case Failure(UnknownNames(names)) =>
      names != {} && forall x :: x in names <==> x !in extensions && Needs(extensions, {name}, x)
    case Failure(Circular(cycles)) =>
      && cycles != [] && (forall c | c in cycles :: NeedsSimpleCycle(extensions, {name}, c))
      && forall x | Needs(extensions, {name}, x) :: x in extensions
    case _ => false
  }

  function EntriesOf(extensions: Entries, chain: seq<string>): seq<ExtensionPoint>
    requires forall n | n in chain :: n in extensions
  {
    seq(|chain|, k requires 0 <= k < |chain| => assert chain[k] in chain; extensions[chain[k]])
  }

  lemma UnknownIsResolution(extensions: Entries, name: string, chain: seq<string>, circular: seq<seq<string>>,
                            unknown: set<string>)
    requires IsClosure(GraphOf(extensions), {name}, chain, circular, unknown) && unknown != {}
    ensures IsResolution(extensions, name, Failure(UnknownNames(unknown)))
  {
    forall x ensures x in unknown <==> x !in extensions && Needs(extensions, {name}, x) {
      NeedsAgree(extensions, {name}, x);
    }
  }

  lemma ChainIsResolution(extensions: Entries, name: string, chain: seq<string>)
    requires WellFiled(extensions) && IsClosure(GraphOf(extensions), {name}, chain, [], {})
    ensures forall n | n in chain :: n in extensions
    ensures IsResolution(extensions, name, Success(EntriesOf(extensions, chain)))
  {
    var g := GraphOf(extensions);
    AllRegistered(g, {name}, chain, []);
    RootIsReachable(g, {name}, name);
    TargetIsLast(g, name, chain, {});
    ClosureCanLoad(extensions, {name}, chain);
    var entries := EntriesOf(extensions, chain);
    forall k | 0 <= k < |chain| ensures entries[k].name == chain[k] {
      assert chain[k] in chain;
    }
    assert NamesOf(entries) == chain;
  }

  lemma CircularIsResolution(extensions: Entries, name: string, chain: seq<string>, circular: seq<seq<string>>)
    requires IsClosure(GraphOf(extensions), {name}, chain, circular, {}) && circular != []
    ensures IsResolution(extensions, name, Failure(Circular(circular)))
  {
    AllRegistered(GraphOf(extensions), {name}, chain, circular);
    forall x ensures Needs(extensions, {name}, x) ==> x in extensions {
      NeedsAgree(extensions, {name}, x);
    }
    forall c | c in circular ensures NeedsSimpleCycle(extensions, {name}, c) {
      CyclesAgree(extensions, {name}, c);
    }
  }

  /** The report on a set of enabled names. */
  datatype Validation = Validation(ok: bool, unknown: set<string>, circular: seq<seq<string>>, closure: set<string>,
                                   chain: seq<string>)

  function NameSet(names: seq<string>): set<string> {
    set n | n in names
  }

  /** The chain is what the enabled names need and is registered, each name once; the report names what is needed and
      not registered, and circles among what is needed, some if there are any; it is ok if there is neither, and then
      the chain can be loaded and holds nothing in vain. */
  ghost predicate IsValidation(extensions: Entries, enabled: seq<string>, v: Validation) {
    && (forall x :: x in v.chain <==> x in extensions && Needs(extensions, NameSet(enabled), x))
    && Distinct(v.chain) && v.closure == NameSet(v.chain)
    && (forall x :: x in v.unknown <==> x !in extensions && Needs(extensions, NameSet(enabled), x))
    && (forall c | c in v.circular :: NeedsSimpleCycle(extensions, NameSet(enabled), c))
    && (v.circular == [] ==> forall c :: !NeedsCycle(extensions, NameSet(enabled), c))
    && (v.ok <==> v.unknown == {} && v.circular == [])
    && (v.ok ==> CanLoad(extensions, NameSet(enabled), v.chain) && NothingInVain(extensions, NameSet(enabled), v.chain))
  }

  lemma ClosureIsValidation(extensions: Entries, enabled: seq<string>, v: Validation)
    requires IsClosure(GraphOf(extensions), NameSet(enabled), v.chain, v.circular, v.unknown)
    requires v.closure == NameSet(v.chain) && (v.ok <==> v.unknown == {} && v.circular == [])
    ensures IsValidation(extensions, enabled, v)
  {
    var names := NameSet(enabled);
    forall x ensures Needs(extensions, names, x) <==> Reachable(GraphOf(extensions), names, x) {
      NeedsAgree(extensions, names, x);
    }
    forall c ensures NeedsCycle(extensions, names, c) <==> ReachableCycle(GraphOf(extensions), names, c) {
      CyclesAgree(extensions, names, c);
    }
    forall c | c in v.circular ensures NeedsSimpleCycle(extensions, names, c) {
      CyclesAgree(extensions, names, c);
    }
    if v.ok {
      ClosureCanLoad(extensions, names, v.chain);
    }
  }

  lemma NotOkCannotLoad(extensions: Entries, enabled: seq<string>, v: Validation)
    requires IsValidation(extensions, enabled, v) && !v.ok
    ensures forall chain :: !CanLoad(extensions, NameSet(enabled), chain)
  {
    assert v.unknown != {} || v.circular[0] in v.circular;
    forall chain ensures !CanLoad(extensions, NameSet(enabled), chain) {
      if CanLoad(extensions, NameSet(enabled), chain) {
        CanLoadRules(extensions, NameSet(enabled), chain);
      }
    }
  }

  lemma FailureCannotLoad(extensions: Entries, name: string, r: Result<seq<ExtensionPoint>, RegistryError>)
    requires IsResolution(extensions, name, r) && r.Failure?
    ensures forall chain :: !CanLoad(extensions, {name}, chain)
  {
    match r.error {
      case UnknownNames(names) => assert names != {};
      case Circular(cycles) => assert cycles[0] in cycles;
    }
    forall chain ensures !CanLoad(extensions, {name}, chain) {
      if CanLoad(extensions, {name}, chain) {
        CanLoadRules(extensions, {name}, chain);
      }
    }
  }

  class ExtensionRegistry {
    var extensions: Entries

    constructor ()
      ensures extensions == map[]
    {
      extensions := map[];
    }

    method Register(extension: ExtensionPoint, overwrite: bool) returns (error: Option<RegistryError>)
      requires WellFiled(extensions)
      modifies this
      ensures WellFiled(extensions)
      ensures error == if extension.name == "" then Some(EmptyName)
                       else if extension.name in extension.requirements then Some(RequiresItself)
                       else if extension.name in old(extensions) && !overwrite then Some(AlreadyRegistered)
                       else None
      ensures extensions == if error.None? then old(extensions)[extension.name := extension] else old(extensions)
    {
      if extension.name == "" {
        return Some(EmptyName);
      }
      if extension.name in extension.requirements {
        return Some(RequiresItself);
      }
      if extension.name in extensions && !overwrite {
        return Some(AlreadyRegistered);
      }
      extensions := extensions[extension.name := extension];
      return None;
    }

    method Unregister(name: string)
      requires WellFiled(extensions)
      modifies this
      ensures WellFiled(extensions) && extensions == old(extensions) - {name}
    {
      extensions := extensions - {name};
    }

    method Resolve(name: string) returns (r: Result<seq<ExtensionPoint>, RegistryError>)
      requires WellFiled(extensions)
      ensures IsResolution(extensions, name, r)
      ensures r.Success? <==> exists chain :: CanLoad(extensions, {name}, chain)
    {
      var g := GraphOf(extensions);
      var chain, circular, unknown := TopologicalClosure(g, {name});
      if unknown != {} {
        UnknownIsResolution(extensions, name, chain, circular, unknown);
        FailureCannotLoad(extensions, name, Failure(UnknownNames(unknown)));
        return Failure(UnknownNames(unknown));
      }
      if circular != [] {
        CircularIsResolution(extensions, name, chain, circular);
        FailureCannotLoad(extensions, name, Failure(Circular(circular)));
        return Failure(Circular(circular));
      }
      ChainIsResolution(extensions, name, chain);
      return Success(EntriesOf(extensions, chain));
    }

    method Validate(enabled: seq<string>) returns (v: Validation)
      ensures IsValidation(extensions, enabled, v)
      ensures v.ok <==> exists order :: CanLoad(extensions, NameSet(enabled), order)
    {
      var names := NameSet(enabled);
      var chain, circular, unknown := TopologicalClosure(GraphOf(extensions), names);
      v := Validation(unknown == {} && circular == [], unknown, circular, NameSet(chain), chain);
      ClosureIsValidation(extensions, enabled, v);
      if !v.ok {
        NotOkCannotLoad(extensions, enabled, v);
      }
    }
  }
}

/** The capability registry: the same closure, and the framework modules of the whole chain in first-use order. */
module CapabilityRegistries {
  import opened Collections
  import opened DependencyClosure
  import opened DependencyOrders
  import opened Options

  datatype Capability = Capability(name: string, modules: seq<string>, requirements: seq<string>)

  /** The modules of the first `n` capabilities, one after another. */
  function AllModules(chain: seq<Capability>, n: nat): seq<string>
    requires n <= |chain|
  {
    if n == 0 then [] else AllModules(chain, n - 1) + chain[n - 1].modules
  }

  /** The first `x` is met before any `y`. */
  ghost predicate MetBefore(all: seq<string>, x: string, y: string) {
    exists p :: 0 <= p < |all| && all[p] == x && y !in all[..p + 1]
  }

  /** `kept` is `all` without repetitions, in the order of first occurrence. */
  ghost predicate FirstOccurrences(all: seq<string>, kept: seq<string>) {
    && (forall m :: m in kept <==> m in all)
    && forall i, j | 0 <= i < j < |kept| :: MetBefore(all, kept[i], kept[j])
  }

  // ---- the same along the chain ----

  /** The first `n` capabilities do not use the module. */
  ghost predicate NotUsed(chain: seq<Capability>, n: nat, m: string)
    requires n <= |chain|
  {
    forall h | 0 <= h < n :: m !in chain[h].modules
  }

  /** `x` is the `k`-th module of the `i`-th capability, and `y` is not met up to there. */
  ghost predicate UsedBeforeAt(chain: seq<Capability>, x: string, y: string, i: nat, k: nat) {
    && i < |chain| && k < |chain[i].modules|
    && chain[i].modules[k] == x && NotUsed(chain, i, y) && y !in chain[i].modules[..k + 1]
  }

  /** Going along the chain, and within a capability along its modules, `x` is met before any `y`. */
  ghost predicate UsedBefore(chain: seq<Capability>, x: string, y: string) {
    exists i: nat, k: nat :: UsedBeforeAt(chain, x, y, i, k)
  }

  /** The modules of the chain, each once, in the order in which they are first used. */
  ghost predicate ModulesOf(chain: seq<Capability>, modules: seq<string>) {
    && (forall m :: m in modules <==> !NotUsed(chain, |chain|, m))
    && forall a, b | 0 <= a < b < |modules| :: UsedBefore(chain, modules[a], modules[b])
  }

  lemma {:induction false} AllModulesHold(chain: seq<Capability>, n: nat, m: string)
    requires n <= |chain|
    ensures m in AllModules(chain, n) <==> !NotUsed(chain, n, m)
  {
    if n > 0 {
      AllModulesHold(chain, n - 1, m);
    }
  }

  lemma {:induction false} MetIsUsed(chain: seq<Capability>, n: nat, x: string, y: string)
    requires n <= |chain| && MetBefore(AllModules(chain, n), x, y)
    ensures UsedBefore(chain, x, y)
  {
    var all := AllModules(chain, n);
    var p :| 0 <= p < |all| && all[p] == x && y !in all[..p + 1];
    var before, own := AllModules(chain, n - 1), chain[n - 1].modules;
    if p < |before| {
      assert before[..p + 1] == all[..p + 1];
      MetIsUsed(chain, n - 1, x, y);
    } else {
      var k := p - |before|;
      assert all[..p + 1] == before + own[..k + 1];
      AllModulesHold(chain, n - 1, y);
      assert UsedBeforeAt(chain, x, y, n - 1, k);
    }
  }

  lemma FirstOccurrencesAreModules(chain: seq<Capability>, modules: seq<string>)
    requires FirstOccurrences(AllModules(chain, |chain|), modules)
    ensures ModulesOf(chain, modules)
  {
    forall m ensures m in modules <==> !NotUsed(chain, |chain|, m) {
      AllModulesHold(chain, |chain|, m);
    }
    forall a, b | 0 <= a < b < |modules| ensures UsedBefore(chain, modules[a], modules[b]) {
      MetIsUsed(chain, |chain|, modules[a], modules[b]);
    }
  }

  // ---- one module after another ----

  lemma MetBeforeInLonger(all: seq<string>, m: string, x: string, y: string)
    requires MetBefore(all, x, y) || (x in all && y !in all && m == y)
    ensures MetBefore(all + [m], x, y)
  {
    var longer := all + [m];
    var p :| 0 <= p < |all| && all[p] == x && y !in all[..p + 1];
    assert longer[..p + 1] == all[..p + 1] && longer[p] == x;
  }

  lemma TakeOneMore(all: seq<string>, more: seq<string>, k: nat)
    requires k < |more|
    ensures all + more[..k] + [more[k]] == all + more[..k + 1]
  {
  }

  /** One more module: kept at the end if it is new, otherwise skipped. */
  lemma OneMoreModule(all: seq<string>, kept: seq<string>, m: string)
    requires FirstOccurrences(all, kept)
    ensures FirstOccurrences(all + [m], if m in kept then kept else kept + [m])
  {
    var kept' := if m in kept then kept else kept + [m];
    forall i, j | 0 <= i < j < |kept'| ensures MetBefore(all + [m], kept'[i], kept'[j]) {
      assert kept'[i] in kept;
      assert j < |kept| ==> MetBefore(all, kept[i], kept[j]);
      MetBeforeInLonger(all, m, kept'[i], kept'[j]);
    }
  }

  ghost predicate Filed(capabilities: map<string, Capability>) {
    forall n | n in capabilities :: capabilities[n].name == n
  }

  // ---- what the contracts require ----

  ghost predicate CompleteAt(capabilities: map<string, Capability>, chain: seq<string>, i: nat)
    requires i < |chain|
  {
    chain[i] in capabilities && forall x | x in capabilities[chain[i]].requirements :: x in chain[..i]
  }

  /** The capability is there, and each one comes after all that its contract requires. */
  ghost predicate CanLoad(capabilities: map<string, Capability>, name: string, chain: seq<string>) {
    name in chain && forall i | 0 <= i < |chain| :: CompleteAt(capabilities, chain, i)
  }

  ghost predicate RequiredLater(chain: seq<Capability>, k: nat)
    requires k < |chain|
  {
    exists m :: k < m < |chain| && chain[k].name in chain[m].requirements
  }

  // ---- the same as a graph ----

  function GraphOf(capabilities: map<string, Capability>): Graph {
    map n | n in capabilities :: capabilities[n].requirements
  }

  lemma OrdersAgree(capabilities: map<string, Capability>, name: string, chain: seq<string>)
    ensures CanLoad(capabilities, name, chain) <==> LoadOrder(GraphOf(capabilities), {name}, chain)
  {
    forall i | 0 <= i < |chain|
      ensures CompleteAt(capabilities, chain, i) <==> LoadableAt(GraphOf(capabilities), chain, i)
    {
    }
  }

  /** No chain can be loaded when something that is needed is missing or needs itself. */
  lemma CannotLoad(capabilities: map<string, Capability>, name: string)
    requires HasReachableCycle(GraphOf(capabilities), {name})
             || exists x :: Reachable(GraphOf(capabilities), {name}, x) && x !in capabilities
    ensures forall chain :: !CanLoad(capabilities, name, chain)
  {
    forall chain ensures !CanLoad(capabilities, name, chain) {
      OrdersAgree(capabilities, name, chain);
      if CanLoad(capabilities, name, chain) {
        LoadOrderRules(GraphOf(capabilities), {name}, chain);
      }
    }
  }

  // ---- resolving ----

  function EntriesOf(capabilities: map<string, Capability>, chain: seq<string>): seq<Capability>
    requires forall n | n in chain :: n in capabilities
  {
    seq(|chain|, k requires 0 <= k < |chain| => assert chain[k] in chain; capabilities[chain[k]])
  }

  function NamesOf(chain: seq<Capability>): seq<string> {
    seq(|chain|, k requires 0 <= k < |chain| => chain[k].name)
  }

  datatype Resolution = Resolution(chain: seq<Capability>, modules: seq<string>)

  /** The registered contracts of a chain that can be loaded, each once, all but the last required by a later one. */
  ghost predicate IsChain(capabilities: map<string, Capability>, name: string, chain: seq<Capability>) {
    && CanLoad(capabilities, name, NamesOf(chain)) && Distinct(NamesOf(chain))
    && (forall c | c in chain :: c.name in capabilities && capabilities[c.name] == c)
    && chain != [] && chain[|chain| - 1].name == name
    && forall k | 0 <= k < |chain| - 1 :: RequiredLater(chain, k)
  }

  /** Such a chain, and each module of it once, where it is first used. */
  ghost predicate IsResolution(capabilities: map<string, Capability>, name: string, r: Resolution) {
    IsChain(capabilities, name, r.chain) && ModulesOf(r.chain, r.modules)
  }

  lemma ChainIsResolution(capabilities: map<string, Capability>, name: string, chain: seq<string>)
    requires Filed(capabilities) && IsClosure(GraphOf(capabilities), {name}, chain, [], {})
    ensures forall n | n in chain :: n in capabilities
    ensures CanLoad(capabilities, name, chain) && IsChain(capabilities, name, EntriesOf(capabilities, chain))
  {
    var g := GraphOf(capabilities);
    AllRegistered(g, {name}, chain, []);
    RootIsReachable(g, {name}, name);
    TargetIsLast(g, name, chain, {});
    ClosureIsLoadOrder(g, {name}, chain);
    OrdersAgree(capabilities, name, chain);
    var entries := EntriesOf(capabilities, chain);
    forall k | 0 <= k < |chain| ensures entries[k] == capabilities[chain[k]] && entries[k].name == chain[k] {
      assert chain[k] in chain;
    }
    assert NamesOf(entries) == chain;
    forall k | 0 <= k < |entries| - 1 ensures RequiredLater(entries, k) {
      var m := MemberIsRequired(g, {name}, chain, k);
      assert entries[k].name in entries[m].requirements;
    }
  }

  class CapabilityRegistry {
    var capabilities: map<string, Capability>

    constructor ()
      ensures capabilities == map[]
    {
      capabilities := map[];
    }

    /** Files a contract, replacing one of the same name; false when the source raises. */
    method Register(capability: Capability) returns (ok: bool)
      requires Filed(capabilities)
      modifies this
      ensures Filed(capabilities)
      ensures ok <==> capability.name != "" && capability.name !in capability.requirements
      ensures capabilities == if ok then old(capabilities)[capability.name := capability] else old(capabilities)
    {
      ok := capability.name != "" && capability.name !in capability.requirements;
      if ok {
        capabilities := capabilities[capability.name := capability];
      }
    }

    /** The chain of a capability and the modules to import for it; none when the source raises. */
    method Resolve(name: string) returns (r: Option<Resolution>)
      requires Filed(capabilities)
      ensures r.Some? <==> exists chain :: CanLoad(capabilities, name, chain)
      ensures r.Some? ==> IsResolution(capabilities, name, r.value)
    {
      var g := GraphOf(capabilities);
      var chain, circular, unknown := TopologicalClosure(g, {name});
      if unknown != {} {
        var x :| x in unknown;
        CannotLoad(capabilities, name);
        return None;
      }
      if circular != [] {
        CannotLoad(capabilities, name);
        return None;
      }
      ChainIsResolution(capabilities, name, chain);
      var modules := CollectModules(EntriesOf(capabilities, chain));
      return Some(Resolution(EntriesOf(capabilities, chain), modules));
    }

    /** Collects the modules of a chain, each once. */
    method CollectModules(chain: seq<Capability>) returns (modules: seq<string>)
      ensures ModulesOf(chain, modules)
    {
      modules := [];
      for n := 0 to |chain|
        invariant FirstOccurrences(AllModules(chain, n), modules)
      {
        modules := AddModules(AllModules(chain, n), modules, chain[n].modules);
      }
      FirstOccurrencesAreModules(chain, modules);
    }

    method AddModules(ghost all: seq<string>, modules: seq<string>, more: seq<string>) returns (modules': seq<string>)
      requires FirstOccurrences(all, modules)
      ensures FirstOccurrences(all + more, modules')
    {
      modules' := modules;
      ghost var done := all;
      for k := 0 to |more|
        invariant done == all + more[..k]
        invariant FirstOccurrences(done, modules')
      {
        OneMoreModule(done, modules', more[k]);
        TakeOneMore(all, more, k);
        done := done + [more[k]];
        if more[k] !in modules' {
          modules' := modules' + [more[k]];
        }
      }
      assert done == all + more;
    }
  }
}

/** The application's extension lifecycle: plugins are built and started along the chain and stopped against it. */
module ExtensionLifecycle {
  import opened Collections
  import opened ExtensionRegistries

  function HasStartup(entries: Entries, name: string): bool {
    name in entries && entries[name].startup
  }

  function HasShutdown(entries: Entries, name: string): bool {
    name in entries && entries[name].shutdown
  }

  function Built(entries: Entries, name: string): bool {
    name in entries && entries[name].build
  }

  /** The instances of the first `n` plugins of the chain, and of no plugin outside of it. */
  ghost predicate HoldsBuilt(instances: map<string, bool>, entries: Entries, chain: seq<string>, n: nat)
    requires n <= |chain|
  {
    && (forall k | 0 <= k < n :: chain[k] in instances)
    && (forall x | x in instances :: x in chain && (instances[x] <==> x in entries && entries[x].build))
  }

  /** `calls` are the members of `chain` with a hook, in the same order. */
  ghost predicate InChainOrder(chain: seq<string>, hooked: set<string>, calls: seq<string>) {
    && (forall n :: n in calls <==> n in chain && n in hooked)
    && Distinct(calls)
    && forall a, b | a in hooked && b in hooked && Precedes(chain, b, a) :: Precedes(calls, b, a)
  }

  /** `calls` are the members of `chain` with a hook, in the opposite order. */
  ghost predicate AgainstChainOrder(chain: seq<string>, hooked: set<string>, calls: seq<string>) {
    && (forall n :: n in calls <==> n in chain && n in hooked)
    && Distinct(calls)
    && forall a, b | a in hooked && b in hooked && Precedes(chain, b, a) :: Precedes(calls, a, b)
  }

  ghost function WithStartup(entries: Entries): set<string> {
    set n | n in entries && entries[n].startup
  }

  ghost function WithShutdown(entries: Entries): set<string> {
    set n | n in entries && entries[n].shutdown
  }

  lemma BeforeInLonger(s: seq<string>, name: string, b: string, a: string)
    requires Precedes(s + [name], b, a)
    ensures Precedes(s, b, a) || (a == name && b in s)
  {
    var i, j :| 0 <= i < j < |s + [name]| && (s + [name])[i] == b && (s + [name])[j] == a;
    if j < |s| {
      assert s[i] == b && s[j] == a;
    } else {
      assert s[i] == b;
    }
  }

  /** The hook calls that a name in the chain is good for. */
  function CallsOf(hooked: set<string>, name: string): seq<string> {
    if name in hooked then [name] else []
  }

  lemma HookNext(chain: seq<string>, k: nat, hooked: set<string>, calls: seq<string>)
    requires Distinct(chain) && k < |chain| && InChainOrder(chain[..k], hooked, calls)
    ensures InChainOrder(chain[..k + 1], hooked, calls + CallsOf(hooked, chain[k]))
  {
    var name := chain[k];
    var calls' := calls + CallsOf(hooked, name);
    assert chain[..k + 1] == chain[..k] + [name];
    forall a, b | a in hooked && b in hooked && Precedes(chain[..k + 1], b, a) ensures Precedes(calls', b, a) {
      BeforeInLonger(chain[..k], name, b, a);
      if Precedes(chain[..k], b, a) {
        var i, j :| 0 <= i < j < |calls| && calls[i] == b && calls[j] == a;
        assert calls'[i] == b && calls'[j] == a;
      } else {
        assert b in calls;
        var i :| 0 <= i < |calls| && calls[i] == b;
        assert calls'[i] == b && calls'[|calls|] == a;
      }
    }
  }

  lemma HookPrevious(chain: seq<string>, k: nat, hooked: set<string>, calls: seq<string>)
    requires Distinct(chain) && k < |chain| && AgainstChainOrder(chain[k + 1..], hooked, calls)
    ensures AgainstChainOrder(chain[k..], hooked, calls + CallsOf(hooked, chain[k]))
  {
    var name := chain[k];
    var rest := chain[k + 1..];
    var calls' := calls + CallsOf(hooked, name);
    assert chain[k..] == [name] + rest;
    forall a, b | a in hooked && b in hooked && Precedes(chain[k..], b, a) ensures Precedes(calls', a, b) {
      var i, j :| 0 <= i < j < |chain[k..]| && chain[k..][i] == b && chain[k..][j] == a;
      assert rest[j - 1] == a;
      if i > 0 {
        assert rest[i - 1] == b;
        assert Precedes(rest, b, a);
        var x, y :| 0 <= x < y < |calls| && calls[x] == a && calls[y] == b;
        assert calls'[x] == a && calls'[y] == b;
      } else {
        assert a in calls;
        var x :| 0 <= x < |calls| && calls[x] == a;
        assert calls'[x] == a && calls'[|calls|] == b;
      }
    }
  }

  class Application {
    var extensionChain: seq<string>
    /** Which plugins were built; a plugin without a build hook has no product. */
    var extensionInstances: map<string, bool>
    /** The hook calls made so far. */
    var started: seq<string>
    var stopped: seq<string>

    constructor ()
      ensures extensionChain == [] && extensionInstances == map[] && started == [] && stopped == []
    {
      extensionChain, extensionInstances, started, stopped := [], map[], [], [];
    }

    /** Builds the enabled plugins along the chain; false when the configuration is refused and nothing is set up. */
    method SetupExtensions(registry: ExtensionRegistry, enabled: seq<string>) returns (ok: bool)
      requires extensionChain == [] && extensionInstances == map[]
      modifies this`extensionChain, this`extensionInstances
      ensures enabled == [] ==> ok
      ensures !ok ==> extensionChain == [] && extensionInstances == map[]
      ensures enabled != [] ==>
                (ok <==> exists chain :: CanLoad(registry.extensions, NameSet(enabled), chain))
      ensures ok && enabled != [] ==>
                && CanLoad(registry.extensions, NameSet(enabled), extensionChain)
                && NothingInVain(registry.extensions, NameSet(enabled), extensionChain)
      ensures ok ==> HoldsBuilt(extensionInstances, registry.extensions, extensionChain, |extensionChain|)
    {
      if enabled == [] {
        return true;
      }
      var v := registry.Validate(enabled);
      if !v.ok {
        return false;
      }
      extensionChain := v.chain;
      extensionInstances := BuildChain(registry.extensions, v.chain);
      return true;
    }

    method BuildChain(entries: Entries, chain: seq<string>) returns (instances: map<string, bool>)
      ensures HoldsBuilt(instances, entries, chain, |chain|)
    {
      instances := map[];
      for k := 0 to |chain|
        invariant HoldsBuilt(instances, entries, chain, k)
      {
        instances := instances[chain[k] := Built(entries, chain[k])];
      }
    }

    method RunStartup(entries: Entries, name: string)
      modifies this`started
      ensures started == old(started) + CallsOf(WithStartup(entries), name)
    {
      if HasStartup(entries, name) {
        started := started + [name];
      }
    }

    method RunStartups(entries: Entries)
      requires Distinct(extensionChain)
      modifies this`started
      ensures |started| >= |old(started)| && started[..|old(started)|] == old(started)
      ensures InChainOrder(extensionChain, WithStartup(entries), started[|old(started)|..])
    {
      ghost var calls: seq<string> := [];
      for k := 0 to |extensionChain|
        invariant started == old(started) + calls
        invariant InChainOrder(extensionChain[..k], WithStartup(entries), calls)
      {
        HookNext(extensionChain, k, WithStartup(entries), calls);
        RunStartup(entries, extensionChain[k]);
        calls := calls + CallsOf(WithStartup(entries), extensionChain[k]);
      }
      assert extensionChain[..|extensionChain|] == extensionChain;
    }

    method RunShutdown(entries: Entries, name: string)
      modifies this`stopped
      ensures stopped == old(stopped) + CallsOf(WithShutdown(entries), name)
    {
      if HasShutdown(entries, name) {
        stopped := stopped + [name];
      }
    }

    method RunShutdowns(entries: Entries)
      requires Distinct(extensionChain)
      modifies this`stopped
      ensures |stopped| >= |old(stopped)| && stopped[..|old(stopped)|] == old(stopped)
      ensures AgainstChainOrder(extensionChain, WithShutdown(entries), stopped[|old(stopped)|..])
    {
      ghost var calls: seq<string> := [];
      for k := |extensionChain| downto 0
        invariant stopped == old(stopped) + calls
        invariant AgainstChainOrder(extensionChain[k..], WithShutdown(entries), calls)
      {
        HookPrevious(extensionChain, k, WithShutdown(entries), calls);
        RunShutdown(entries, extensionChain[k]);
        calls := calls + CallsOf(WithShutdown(entries), extensionChain[k]);
      }
    }
  }

  /** Each startup runs after, and each shutdown before, those of all that the plugin's contract required when the
      plugins were set up. */
  lemma RequirementsStartFirstStopLast(setUp: Entries, names: set<string>, chain: seq<string>, entries: Entries,
                                       started: seq<string>, stopped: seq<string>, a: string, b: string)
    requires CanLoad(setUp, names, chain) && a in chain && Requires(setUp, a, b)
    requires InChainOrder(chain, WithStartup(entries), started)
    requires AgainstChainOrder(chain, WithShutdown(entries), stopped)
    ensures a in entries && b in entries && entries[a].startup && entries[b].startup ==> Precedes(started, b, a)
    ensures a in entries && b in entries && entries[a].shutdown && entries[b].shutdown ==> Precedes(stopped, a, b)
  {
    var j :| 0 <= j < |chain| && chain[j] == a;
    assert CompleteAt(setUp, chain, j);
    var i :| 0 <= i < j && chain[i] == b;
    assert Precedes(chain, b, a);
  }
}
