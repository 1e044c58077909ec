/**
 * `getValidPluginsDependencies`: each enabled plugin, in collection order,
 * is checked against the constraints its manifest lists. A plugin that
 * fails is not kept, and every still-present plugin that depends on it is
 * withdrawn from the collection, both from the part already verified and
 * from the part still to visit. When anything was left out, the whole
 * boot halts with the list of plugins left out.
 *
 * The dependency constraints of one plugin form an unordered check here:
 * a failing constraint withdraws the same dependents whichever constraint
 * fails first, and once one fails the plugin is rejected, so the order in
 * which a manifest lists its constraints does not change the outcome.
 */
module Dependencies {
  import opened Php
  import opened Plugins

  /** The host's own version and the semantic-version constraint test. */
  datatype Host = Host(version: Value, satisfies: (Value, Value) -> bool)

  /** `manifest.dependencies`, when set; anything but an array lists nothing. */
  function Deps(p: Plugin): map<string, Value>
  {
    Entries(Lookup(Lookup(Arr(p.data), "manifest"), "dependencies"))
  }

  /** `manifest.dependencies.<name>` of `q` is truthy. */
  predicate DependsOn(q: Plugin, name: string)
  {
    Truthy(Lookup(Lookup(Lookup(Arr(q.data), "manifest"), "dependencies"), name))
  }

  /** The entry with that key, if any. */
  function ByName(ps: seq<Plugin>, name: string): (r: Option<Plugin>)
    ensures r.Some? ==> r.value in ps && r.value.name == name
    ensures r.None? ==> forall q :: q in ps ==> q.name != name
  {
    if ps == [] then None
    else if ps[0].name == name then Some(ps[0])
    else ByName(ps[1..], name)
  }

  /**
   * One constraint: `flextype` is checked against the host version; any
   * other name must still be in the collection with a satisfying version.
   */
  predicate DepOk(input: seq<Plugin>, removed: set<string>, host: Host, dep: string, constraint: Value)
  {
    if dep == "flextype" then host.satisfies(host.version, constraint)
    else match ByName(input, dep)
      case None => false
      case Some(q) =>
        dep !in removed && host.satisfies(Lookup(Lookup(Arr(q.data), "manifest"), "version"), constraint)
  }

  predicate Passes(p: Plugin, input: seq<Plugin>, removed: set<string>, host: Host)
  {
    forall dep | dep in Deps(p) :: DepOk(input, removed, host, dep, Deps(p)[dep])
  }

  /** The plugins withdrawn when `p` fails: those still present that depend on it. */
  function Dependents(input: seq<Plugin>, removed: set<string>, p: Plugin): set<string>
  {
    set q | q in input && q.name !in removed && DependsOn(q, p.name) :: q.name
  }

  function Without(ps: seq<Plugin>, gone: set<string>): (r: seq<Plugin>)
    ensures forall q :: q in r <==> q in ps && q.name !in gone
  {
    if ps == [] then []
    else
      var before := Without(ps[..|ps| - 1], gone);
      assert ps == ps[..|ps| - 1] + [ps[|ps| - 1]];
      if ps[|ps| - 1].name in gone then before else before + [ps[|ps| - 1]]
  }

  /** The names withdrawn so far, and the plugins verified so far in visiting order. */
  datatype DepState = DepState(removed: set<string>, verified: seq<Plugin>)

  /** Visiting one plugin of the collection. */
  function Visit(st: DepState, p: Plugin, input: seq<Plugin>, host: Host): DepState
  {
    if p.name in st.removed then st
    else if Passes(p, input, st.removed, host) then DepState(st.removed, st.verified + [p])
    else
      var gone := Dependents(input, st.removed, p);
      DepState(st.removed + gone, Without(st.verified, gone))
  }

  /** The state after visiting the first `n` plugins. */
  function Run(input: seq<Plugin>, n: nat, host: Host): DepState
    requires n <= |input|
  {
    if n == 0 then DepState({}, []) else Visit(Run(input, n - 1, host), input[n - 1], input, host)
  }

  /** `array_diff_key($nonVerifiedPlugins, $verifiedPlugins)`: the keys left out, in collection order. */
  function Missing(input: seq<Plugin>, verified: seq<Plugin>): (r: seq<string>)
    ensures forall n :: n in r <==> (exists q :: q in input && q.name == n) && (forall q :: q in verified ==> q.name != n)
  {
    if input == [] then []
    else
      var before := Missing(input[..|input| - 1], verified);
      var p := input[|input| - 1];
      assert input == input[..|input| - 1] + [p];
      if ByName(verified, p.name).None? then before + [p.name] else before
  }

  /** The verified collection, or the plugins that halt the boot. */
  function Validate(input: seq<Plugin>, host: Host): Result<seq<Plugin>, seq<string>>
  {
    var verified := Run(input, |input|, host).verified;
    var diff := Missing(input, verified);
    if diff == [] then Success(verified) else Failure(diff)
  }

  method GetValidPluginsDependencies(input: seq<Plugin>, host: Host) returns (r: Result<seq<Plugin>, seq<string>>)
    ensures r == Validate(input, host)
  {
    var removed: set<string> := {};
    var verified: seq<Plugin> := [];
    for i := 0 to |input|
      invariant DepState(removed, verified) == Run(input, i, host)
    {
      var p := input[i];
      if p.name in removed {
        continue;
      }
      if !Passes(p, input, removed, host) {
        var gone := Dependents(input, removed, p);
        removed := removed + gone;
        verified := Without(verified, gone);
        continue;
      }
      verified := verified + [p];
    }
    var diff := Missing(input, verified);
    if diff == [] {
      r := Success(verified);
    } else {
      r := Failure(diff);
    }
  }

  // ---------------------------------------------------------------------
  // What the check guarantees
  // ---------------------------------------------------------------------

  /** Every plugin's constraints hold against the whole collection. */
  predicate AllPass(input: seq<Plugin>, host: Host)
  {
    forall i :: 0 <= i < |input| ==> Passes(input[i], input, {}, host)
  }

  /** While every plugin passes, nothing is withdrawn and every visited plugin is kept. */
  lemma {:induction false} RunClean(input: seq<Plugin>, n: nat, host: Host)
    requires n <= |input|
    requires forall i :: 0 <= i < n ==> Passes(input[i], input, {}, host)
    ensures Run(input, n, host) == DepState({}, input[..n])
  {
    if n > 0 {
      RunClean(input, n - 1, host);
      assert input[..n] == input[..n - 1] + [input[n - 1]];
    }
  }

  /** A withdrawn name never comes back, and no kept plugin carries one. */
  lemma {:induction false} RunKeepsOut(input: seq<Plugin>, n: nat, host: Host)
    requires n <= |input|
    ensures forall q :: q in Run(input, n, host).verified ==> q.name !in Run(input, n, host).removed
  {
    if n > 0 {
      RunKeepsOut(input, n - 1, host);
    }
  }

  lemma {:induction false} RemovedGrows(input: seq<Plugin>, m: nat, n: nat, host: Host)
    requires m <= n <= |input|
    ensures Run(input, m, host).removed <= Run(input, n, host).removed
    decreases n - m
  {
    if m < n {
      RemovedGrows(input, m, n - 1, host);
    }
  }

  /** A name absent from the kept plugins stays absent while no plugin of that name is visited. */
  lemma {:induction false} NameStaysOut(input: seq<Plugin>, name: string, m: nat, n: nat, host: Host)
    requires m <= n <= |input|
    requires forall q :: q in Run(input, m, host).verified ==> q.name != name
    requires forall j :: m <= j < n ==> input[j].name != name
    ensures forall q :: q in Run(input, n, host).verified ==> q.name != name
    decreases n - m
  {
    if m < n {
      NameStaysOut(input, name, m, n - 1, host);
    }
  }

  /** The first plugin that fails, when there is one. */
  lemma FirstFailure(input: seq<Plugin>, host: Host) returns (k: nat)
    requires !AllPass(input, host)
    ensures k < |input| && !Passes(input[k], input, {}, host)
    ensures forall i :: 0 <= i < k ==> Passes(input[i], input, {}, host)
  {
    var i :| 0 <= i < |input| && !Passes(input[i], input, {}, host);
    k := 0;
    while Passes(input[k], input, {}, host)
      invariant k <= i
      invariant forall j :: 0 <= j < k ==> Passes(input[j], input, {}, host)
      decreases i - k
    {
      k := k + 1;
    }
  }

  /**
   * With distinct keys, the check lets the boot continue exactly when
   * every plugin's constraints hold, and then it keeps the collection as it is.
   */
  lemma ValidateSucceeds(input: seq<Plugin>, host: Host)
    requires UniqueNames(input)
    ensures Validate(input, host).Success? <==> AllPass(input, host)
    ensures Validate(input, host).Success? ==> Validate(input, host).value == input
  {
    if AllPass(input, host) {
      RunClean(input, |input|, host);
      assert input[..|input|] == input;
      NothingMissing(input, input);
    } else {
      var k := FailureLeftOut(input, host);
    }
  }

  /** Nothing is missing when every plugin was kept. */
  lemma {:induction false} NothingMissing(input: seq<Plugin>, verified: seq<Plugin>)
    requires forall q :: q in input ==> q in verified
    ensures Missing(input, verified) == []
    decreases |input|
  {
    if input != [] {
      var init := input[..|input| - 1];
      assert forall q :: q in init ==> q in input;
      NothingMissing(init, verified);
      assert input[|input| - 1] in input;
    }
  }

  /** Visiting the first failing plugin withdraws its dependents and keeps no entry of its name. */
  lemma AfterFirstFailure(input: seq<Plugin>, host: Host, k: nat)
    requires UniqueNames(input) && k < |input| && !Passes(input[k], input, {}, host)
    requires forall i :: 0 <= i < k ==> Passes(input[i], input, {}, host)
    ensures Run(input, k + 1, host).removed == Dependents(input, {}, input[k])
    ensures forall q :: q in Run(input, k + 1, host).verified ==> q.name != input[k].name
  {
    RunClean(input, k, host);
    var gone := Dependents(input, {}, input[k]);
    VisitFailing(DepState({}, input[..k]), input[k], input, host);
    assert Run(input, k + 1, host) == DepState(gone, Without(input[..k], gone));
    forall q | q in Without(input[..k], gone)
      ensures q.name != input[k].name
    {
      assert q in input[..k];
      var j :| 0 <= j < k && input[..k][j] == q;
      assert input[j] == q;
    }
  }

  lemma VisitFailing(st: DepState, p: Plugin, input: seq<Plugin>, host: Host)
    requires p.name !in st.removed && !Passes(p, input, st.removed, host)
    ensures Visit(st, p, input, host)
            == DepState(st.removed + Dependents(input, st.removed, p), Without(st.verified, Dependents(input, st.removed, p)))
  {
  }

  /**
   * When some plugin fails, the first one to fail is left out, and so is
   * every plugin that depends on it.
   */
  lemma FailureLeftOut(input: seq<Plugin>, host: Host) returns (k: nat)
    requires UniqueNames(input) && !AllPass(input, host)
    ensures k < |input| && !Passes(input[k], input, {}, host)
    ensures Validate(input, host).Failure?
    ensures input[k].name in Validate(input, host).error
    ensures forall q :: q in input && DependsOn(q, input[k].name) ==> q.name in Validate(input, host).error
  {
    k := FirstFailure(input, host);
    FirstFailureMissing(input, host, k);
    DependentsMissing(input, host, k);
  }

  lemma FirstFailureMissing(input: seq<Plugin>, host: Host, k: nat)
    requires UniqueNames(input) && k < |input| && !Passes(input[k], input, {}, host)
    requires forall i :: 0 <= i < k ==> Passes(input[i], input, {}, host)
    ensures input[k].name in Missing(input, Run(input, |input|, host).verified)
  {
    AfterFirstFailure(input, host, k);
    NameStaysOut(input, input[k].name, k + 1, |input|, host);
    assert input[k] in input;
  }

  lemma DependentsMissing(input: seq<Plugin>, host: Host, k: nat)
    requires UniqueNames(input) && k < |input| && !Passes(input[k], input, {}, host)
    requires forall i :: 0 <= i < k ==> Passes(input[i], input, {}, host)
    ensures forall q :: q in input && DependsOn(q, input[k].name)
              ==> q.name in Missing(input, Run(input, |input|, host).verified)
  {
    AfterFirstFailure(input, host, k);
    RunKeepsOut(input, |input|, host);
    RemovedGrows(input, k + 1, |input|, host);
    var gone := Dependents(input, {}, input[k]);
    LeftOutMissing(input, Run(input, |input|, host), gone);
    forall q | q in input && DependsOn(q, input[k].name)
      ensures q.name in gone
    {
    }
  }

  /** Names withdrawn for good are missing from the result. */
  lemma LeftOutMissing(input: seq<Plugin>, final: DepState, gone: set<string>)
    requires gone <= final.removed
    requires forall v :: v in final.verified ==> v.name !in final.removed
    ensures forall q :: q in input && q.name in gone ==> q.name in Missing(input, final.verified)
  {
  }
}
