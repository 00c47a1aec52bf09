// internal/bitci/config.go: validation, dependency ordering and planning.
module Configuration {
  import opened Common
  import opened Dependencies

  datatype Task = Task(
    run: seq<string>, env: map<string, string>, needs: seq<string>, resources: seq<string>,
    paths: seq<string>, timeout: int, maxRetries: int)

  datatype Config = Config(
    version: int, resources: map<string, int>, minFreeBytes: nat, prepare: seq<string>,
    logRetention: int, redact: seq<string>, tasks: map<string, Task>)

  datatype OrderError = Cycle(task: string) | Unknown(task: string)

  datatype OrderResult = Ordered(order: seq<string>) | Refused(error: OrderError)

  function NeedsOf(config: Config): (needs: Needs)
    ensures needs.Keys == config.tasks.Keys
    ensures forall name :: name in config.tasks ==> needs[name] == config.tasks[name].needs
  {
    map name | name in config.tasks :: config.tasks[name].needs
  }

  // ---- Validate -------------------------------------------------------------

  predicate LineBreakFree(value: string) {
    '\r' !in value && '\n' !in value
  }

  predicate NameStart(c: char) {
    c == '_' || 'A' <= c <= 'Z' || 'a' <= c <= 'z'
  }

  ghost predicate EnvironmentName(value: string) {
    && value != ""
    && NameStart(value[0])
    && forall i :: 0 < i < |value| ==> NameStart(value[i]) || '0' <= value[i] <= '9'
  }

  ghost predicate RedactionsOk(config: Config) {
    forall value :: value in config.redact ==> value != "" && LineBreakFree(value)
  }

  ghost predicate LimitsOk(config: Config) {
    forall name :: name in config.resources ==> name != "" && config.resources[name] >= 1
  }

  ghost predicate EnvironmentOk(env: map<string, string>) {
    forall variable :: variable in env ==> EnvironmentName(variable) && '\0' !in env[variable]
  }

  ghost predicate TaskOk(config: Config, name: string)
    requires name in config.tasks
  {
    var task := config.tasks[name];
    && name != "" && task.run != [] && task.run[0] != ""
    && task.timeout >= 0 && task.maxRetries >= 0
    && EnvironmentOk(task.env)
    && (forall need :: need in task.needs ==> need in config.tasks)
    && (forall resource :: resource in task.resources ==> resource in config.resources)
    && NoDuplicates(task.resources)
  }

  ghost predicate HeaderOk(config: Config) {
    && config.version == 1 && config.tasks != map[]
    && (config.prepare == [] || config.prepare[0] != "")
    && config.logRetention >= 0
  }

  // What a configuration must satisfy to be accepted.
  ghost predicate ValidConfig(config: Config) {
    && HeaderOk(config) && RedactionsOk(config) && LimitsOk(config)
    && (forall name :: name in config.tasks ==> TaskOk(config, name))
    && AcyclicGraph(NeedsOf(config))
  }

  method ValidEnvironmentName(value: string) returns (ok: bool)
    ensures ok <==> EnvironmentName(value)
  {
    if value == "" {
      return false;
    }
    for index := 0 to |value|
      invariant forall i :: 0 <= i < index ==> NameStart(value[i]) || (i > 0 && '0' <= value[i] <= '9')
    {
      var character := value[index];
      if NameStart(character) || (index > 0 && '0' <= character <= '9') {
        continue;
      }
      return false;
    }
    return true;
  }

  method ValidEnvironment(env: map<string, string>) returns (ok: bool)
    ensures ok <==> EnvironmentOk(env)
  {
    var rest := env.Keys;
    while rest != {}
      invariant rest <= env.Keys
      invariant forall variable :: variable in env && variable !in rest ==>
        EnvironmentName(variable) && '\0' !in env[variable]
      decreases rest
    {
      var variable :| variable in rest;
      var named := ValidEnvironmentName(variable);
      if !named || '\0' in env[variable] {
        return false;
      }
      rest := rest - {variable};
    }
    return true;
  }

  method ValidTask(config: Config, name: string) returns (ok: bool)
    requires name in config.tasks
    ensures ok <==> TaskOk(config, name)
  {
    var task := config.tasks[name];
    if name == "" || |task.run| == 0 || task.run[0] == "" || task.timeout < 0 || task.maxRetries < 0 {
      return false;
    }
    var environment := ValidEnvironment(task.env);
    if !environment {
      return false;
    }
    for i := 0 to |task.needs|
      invariant forall need :: need in task.needs[..i] ==> need in config.tasks
    {
      if task.needs[i] !in config.tasks {
        return false;
      }
    }
    var resources: set<string> := {};
    for i := 0 to |task.resources|
      invariant forall r :: r in task.resources[..i] ==> r in config.resources
      invariant resources == set r | r in task.resources[..i]
      invariant NoDuplicates(task.resources[..i])
    {
      var resource := task.resources[i];
      if resource !in config.resources {
        return false;
      }
      if resource in resources {
        var j :| 0 <= j < i && task.resources[..i][j] == resource;
        assert task.resources[j] == task.resources[i];
        return false;
      }
      resources := resources + {resource};
      assert task.resources[..i + 1] == task.resources[..i] + [resource];
    }
    assert task.resources[..|task.resources|] == task.resources;
    return true;
  }

  method ValidRedactions(config: Config) returns (ok: bool)
    ensures ok <==> RedactionsOk(config)
  {
    for i := 0 to |config.redact|
      invariant forall value :: value in config.redact[..i] ==> value != "" && LineBreakFree(value)
    {
      assert config.redact[i] in config.redact;
      if config.redact[i] == "" || !LineBreakFree(config.redact[i]) {
        return false;
      }
      assert config.redact[..i + 1] == config.redact[..i] + [config.redact[i]];
    }
    return true;
  }

  method ValidLimits(config: Config) returns (ok: bool)
    ensures ok <==> LimitsOk(config)
  {
    var rest := config.resources.Keys;
    while rest != {}
      invariant rest <= config.resources.Keys
      invariant forall name :: name in config.resources && name !in rest ==> name != "" && config.resources[name] >= 1
      decreases rest
    {
      var name :| name in rest;
      if name == "" || config.resources[name] < 1 {
        return false;
      }
      rest := rest - {name};
    }
    return true;
  }

  method Validate(config: Config) returns (ok: bool)
    ensures ok <==> ValidConfig(config)
  {
    if config.version != 1 || |config.tasks| == 0 {
      return false;
    }
    if (|config.prepare| > 0 && config.prepare[0] == "") || config.logRetention < 0 {
      return false;
    }
    var redactions := ValidRedactions(config);
    if !redactions {
      return false;
    }
    var limits := ValidLimits(config);
    if !limits {
      return false;
    }
    var rest := config.tasks.Keys;
    while rest != {}
      invariant rest <= config.tasks.Keys
      invariant forall name :: name in config.tasks && name !in rest ==> TaskOk(config, name)
      decreases rest
    {
      var name :| name in rest;
      var task := ValidTask(config, name);
      if !task {
        return false;
      }
      rest := rest - {name};
    }
    ok := AcyclicNeeds(config);
  }

  // The last step of validation: order everything and look for a failure.
  method AcyclicNeeds(config: Config) returns (ok: bool)
    requires forall name :: name in config.tasks ==> TaskOk(config, name)
    ensures ok <==> AcyclicGraph(NeedsOf(config))
  {
    var names := TaskNames(config);
    var result := OrderTasks(config, names);
    if result.Ordered? {
      forall name | name in config.tasks
        ensures !OnCycle(NeedsOf(config), name)
      {
        ReachesSelf(NeedsOf(config), name);
        OrderHasNoCycle(NeedsOf(config), result.order, name);
      }
    } else if result.error.Unknown? {
      NeedsDeclared(config);
      ReachedDeclared(NeedsOf(config), names, result.error.task);
    }
    return result.Ordered?;
  }

  lemma NeedsDeclared(config: Config)
    requires forall name :: name in config.tasks ==> TaskOk(config, name)
    ensures Declared(NeedsOf(config))
  {
    forall name, need | name in NeedsOf(config) && need in NeedsOf(config)[name]
      ensures need in NeedsOf(config)
    {
      assert TaskOk(config, name);
    }
  }

  // The configured names. Go sorts them; every contract here holds for any order.
  method TaskNames(config: Config) returns (names: seq<string>)
    ensures NoDuplicates(names)
    ensures forall name :: name in names <==> name in config.tasks
  {
    names := [];
    var rest := config.tasks.Keys;
    while rest != {}
      invariant rest <= config.tasks.Keys
      invariant NoDuplicates(names)
      invariant forall name :: name in names <==> name in config.tasks && name !in rest
      decreases rest
    {
      var name :| name in rest;
      names := names + [name];
      rest := rest - {name};
    }
  }

  // ---- ordered --------------------------------------------------------------

  // The closure of `ordered`: two marking sets and the list being built.
  // The maps of a walk and its open calls `stack`, outermost first, agree.
  ghost predicate WalkState(config: Config, seen: set<string>, visiting: set<string>, ordered: seq<string>, stack: seq<string>) {
    && NoDuplicates(ordered) && NeedsFirst(NeedsOf(config), ordered)
    && seen == (set name | name in ordered)
    && visiting == (set name | name in stack)
    && visiting <= config.tasks.Keys
    && seen !! visiting
    && (stack != [] ==> IsWalk(NeedsOf(config), stack))
  }

  class DependencyWalk {
    const config: Config
    var seen: set<string>
    var visiting: set<string>
    var ordered: seq<string>

    constructor (config: Config)
      ensures this.config == config && seen == {} && visiting == {} && ordered == []
    {
      this.config := config;
      seen, visiting, ordered := {}, {}, [];
    }

    ghost predicate Consistent(stack: seq<string>)
      reads this
    {
      WalkState(config, seen, visiting, ordered, stack)
    }

    method Visit(name: string, ghost stack: seq<string>) returns (error: Option<OrderError>)
      requires Consistent(stack)
      requires stack != [] ==> stack[|stack| - 1] in config.tasks && name in config.tasks[stack[|stack| - 1]].needs
      modifies this
      ensures Consistent(stack) || error.Some?
      ensures error.None? ==> name in seen && old(seen) <= seen && old(ordered) <= ordered
      ensures error.None? ==> forall i :: |old(ordered)| <= i < |ordered| ==> Reaches(NeedsOf(config), name, ordered[i])
      ensures error.Some? ==> Reaches(NeedsOf(config), name, error.value.task)
      ensures error.Some? && error.value.Unknown? ==> error.value.task !in config.tasks
      ensures error.Some? && error.value.Cycle? ==> OnCycle(NeedsOf(config), error.value.task)
      decreases config.tasks.Keys - visiting
    {
      hide Reaches, WalkState, OnCycle;
      ghost var needs := NeedsOf(config);
      ReachesSelf(needs, name);
      WalkOpen(config, seen, visiting, ordered, stack);
      if name in seen {
        return None;
      }
      if name in visiting {
        OpenCallIsCycle(needs, stack, name);
        return Some(Cycle(name));
      }
      if name !in config.tasks {
        return Some(Unknown(name));
      }
      var task := config.tasks[name];
      EnterCall(config, seen, visiting, ordered, stack, name);
      visiting := visiting + {name};
      ghost var inner := stack + [name];
      for i := 0 to |task.needs|
        invariant Consistent(inner)
        invariant old(seen) <= seen && old(ordered) <= ordered
        invariant forall need :: need in task.needs[..i] ==> need in seen
        invariant forall k :: |old(ordered)| <= k < |ordered| ==> Reaches(needs, name, ordered[k])
      {
        ghost var before := ordered;
        var need := task.needs[i];
        ReachesStep(needs, name, need);
        WalkOpen(config, seen, visiting, ordered, inner);
        error := Visit(need, inner);
        if error.Some? {
          ReachesTransitive(needs, name, need, error.value.task);
          return;
        }
        ReachesMore(needs, name, need, before, ordered, |old(ordered)|);
      }
      assert task.needs[..|task.needs|] == task.needs;
      WalkOpen(config, seen, visiting, ordered, inner);
      LeaveCall(config, seen, visiting, ordered, stack, name);
      visiting := visiting - {name};
      seen := seen + {name};
      ordered := ordered + [name];
      return None;
    }
  }

  lemma WalkOpen(config: Config, seen: set<string>, visiting: set<string>, ordered: seq<string>, stack: seq<string>)
    requires WalkState(config, seen, visiting, ordered, stack)
    ensures visiting == (set n | n in stack) && visiting <= config.tasks.Keys
    ensures stack != [] ==> IsWalk(NeedsOf(config), stack)
  {
  }

  lemma EnterCall(
    config: Config, seen: set<string>, visiting: set<string>, ordered: seq<string>, stack: seq<string>, name: string)
    requires WalkState(config, seen, visiting, ordered, stack) && name in config.tasks && name !in seen
    requires stack != [] ==> stack[|stack| - 1] in config.tasks && name in config.tasks[stack[|stack| - 1]].needs
    ensures WalkState(config, seen, visiting + {name}, ordered, stack + [name])
  {
  }

  // All needs seen: the name may be appended.
  lemma LeaveCall(
    config: Config, seen: set<string>, visiting: set<string>, ordered: seq<string>, stack: seq<string>, name: string)
    requires WalkState(config, seen, visiting, ordered, stack + [name]) && name in config.tasks && name !in stack
    requires forall need :: need in config.tasks[name].needs ==> need in seen
    ensures WalkState(config, seen + {name}, visiting - {name}, ordered + [name], stack)
  {
    var longer, inner := ordered + [name], stack + [name];
    assert inner[|stack|] == name;
    assert (set n | n in stack) == (set n | n in inner) - {name};
    assert (set n | n in longer) == (set n | n in ordered) + {name};
    assert forall i :: 0 <= i <= |ordered| ==> longer[..i] == ordered[..i];
    assert ordered[..|ordered|] == ordered;
    assert stack != [] ==> IsWalk(NeedsOf(config), stack) by {
      assert forall k :: 0 <= k < |stack| ==> stack[k] == inner[k];
    }
  }

  lemma ReachesMore(needs: Needs, name: string, need: string, before: seq<string>, after: seq<string>, from: nat)
    requires before <= after && from <= |before| && Reaches(needs, name, need)
    requires forall k :: from <= k < |before| ==> Reaches(needs, name, before[k])
    requires forall k :: |before| <= k < |after| ==> Reaches(needs, need, after[k])
    ensures forall k :: from <= k < |after| ==> Reaches(needs, name, after[k])
  {
    hide Reaches;
    forall k | from <= k < |after|
      ensures Reaches(needs, name, after[k])
    {
      if k < |before| {
        assert after[k] == before[k];
      } else {
        ReachesTransitive(needs, name, need, after[k]);
      }
    }
  }


  // Meeting an open call again closes a cycle through it.
  lemma OpenCallIsCycle(needs: Needs, stack: seq<string>, name: string)
    requires stack != [] && IsWalk(needs, stack) && name in stack
    requires stack[|stack| - 1] in needs && name in needs[stack[|stack| - 1]]
    ensures OnCycle(needs, name)
  {
    var i :| 0 <= i < |stack| && stack[i] == name;
    var loop := stack[i..] + [name];
    forall k | 0 <= k < |loop| - 1
      ensures loop[k] in needs && loop[k + 1] in needs[loop[k]]
    {
      assert loop[k] == stack[i + k];
      if k + 1 < |stack| - i {
        assert loop[k + 1] == stack[i + k + 1];
      }
    }
    assert WalkBetween(needs, loop[1..], loop[1], name);
  }

  ghost predicate Orderable(config: Config, names: seq<string>) {
    forall name :: ReachedFrom(NeedsOf(config), names, name) ==> name in config.tasks && !OnCycle(NeedsOf(config), name)
  }

  // Succeeds with the exact dependency order of `names`, or names a reachable
  // task that is undeclared or lies on a cycle.
  method OrderTasks(config: Config, names: seq<string>) returns (result: OrderResult)
    ensures result.Ordered? <==> Orderable(config, names)
    ensures result.Ordered? ==> OrderOf(NeedsOf(config), names, result.order)
    ensures result.Refused? ==> ReachedFrom(NeedsOf(config), names, result.error.task)
    ensures result.Refused? && result.error.Unknown? ==> result.error.task !in config.tasks
    ensures result.Refused? && result.error.Cycle? ==> OnCycle(NeedsOf(config), result.error.task)
  {
    hide Orderable, OrderOf, WalkState, Reaches, ReachedFrom, OnCycle;
    ghost var needs := NeedsOf(config);
    var search := new DependencyWalk(config);
    FreshWalk(config);
    for i := 0 to |names|
      invariant search.config == config && fresh(search)
      invariant search.Consistent([])
      invariant forall name :: name in names[..i] ==> name in search.seen
      invariant forall k :: 0 <= k < |search.ordered| ==> ReachedFrom(needs, names, search.ordered[k])
    {
      ghost var before := search.ordered;
      var error := search.Visit(names[i], []);
      if error.Some? {
        ReachedBy(needs, names, names[i], error.value.task);
        WalkFails(config, names, error.value);
        return Refused(error.value);
      }
      forall k | 0 <= k < |search.ordered|
        ensures ReachedFrom(needs, names, search.ordered[k])
      {
        if k < |before| {
          assert search.ordered[k] == before[k];
        } else {
          ReachedBy(needs, names, names[i], search.ordered[k]);
        }
      }
    }
    assert names[..|names|] == names;
    WalkSucceeds(config, names, search.seen, search.visiting, search.ordered);
    return Ordered(search.ordered);
  }

  lemma FreshWalk(config: Config)
    ensures WalkState(config, {}, {}, [], [])
  {
  }

  lemma ReachedBy(needs: Needs, names: seq<string>, source: string, target: string)
    requires source in names && Reaches(needs, source, target)
    ensures ReachedFrom(needs, names, target)
  {
    hide Reaches;
  }

  // A reported error makes the names unorderable ...
  lemma WalkFails(config: Config, names: seq<string>, error: OrderError)
    requires ReachedFrom(NeedsOf(config), names, error.task)
    requires if error.Unknown? then error.task !in config.tasks else OnCycle(NeedsOf(config), error.task)
    ensures !Orderable(config, names)
  {
    hide ReachedFrom, OnCycle;
  }

  // ... and a walk that has seen them all has found their order.
  lemma WalkSucceeds(config: Config, names: seq<string>, seen: set<string>, visiting: set<string>, ordered: seq<string>)
    requires WalkState(config, seen, visiting, ordered, []) && forall name :: name in names ==> name in seen
    requires forall k :: 0 <= k < |ordered| ==> ReachedFrom(NeedsOf(config), names, ordered[k])
    ensures OrderOf(NeedsOf(config), names, ordered) && Orderable(config, names)
  {
    hide Reaches, OnCycle;
    var needs := NeedsOf(config);
    forall name | ReachedFrom(needs, names, name)
      ensures name in ordered && name in config.tasks && !OnCycle(needs, name)
    {
      var source :| source in names && Reaches(needs, source, name);
      ReachedInOrder(needs, ordered, source, name);
      OrderHasNoCycle(needs, ordered, name);
    }
  }

  lemma ReachedInOrder(needs: Needs, order: seq<string>, source: string, target: string)
    requires NeedsFirst(needs, order) && source in order && Reaches(needs, source, target)
    ensures target in order
  {
    var walk :| WalkBetween(needs, walk, source, target);
    WalkStaysInOrder(needs, order, walk, |walk| - 1);
  }

  // ---- Plan -----------------------------------------------------------------

  // strings.HasSuffix and strings.HasPrefix.
  predicate EndsWith(s: string, suffix: string) {
    |suffix| <= |s| && s[|s| - |suffix|..] == suffix
  }

  predicate StartsWith(s: string, prefix: string) {
    prefix <= s
  }

  // `glob` stands for filepath.Match.
  predicate PatternMatches(glob: (string, string) -> bool, pattern: string, path: string) {
    || pattern == "**" || pattern == "*" || pattern == path
    || (EndsWith(pattern, "/**") && StartsWith(path, pattern[..|pattern| - 2]))
    || glob(pattern, path)
  }

  // What a pattern stands for: everything, one path, all that is below a directory,
  // or whatever `glob` says.
  ghost predicate Covers(glob: (string, string) -> bool, pattern: string, path: string) {
    || pattern == "**" || pattern == "*" || pattern == path || glob(pattern, path)
    || exists directory, rest :: pattern == directory + "/**" && path == directory + "/" + rest
  }

  lemma PatternExact(glob: (string, string) -> bool, pattern: string, path: string)
    ensures PatternMatches(glob, pattern, path) <==> Covers(glob, pattern, path)
  {
    if EndsWith(pattern, "/**") && StartsWith(path, pattern[..|pattern| - 2]) {
      var directory := pattern[..|pattern| - 3];
      assert pattern == directory + "/**";
      assert pattern[..|pattern| - 2] == directory + "/";
      assert path == directory + "/" + path[|directory| + 1..];
    }
    if directory, rest :| pattern == directory + "/**" && path == directory + "/" + rest {
      assert pattern[|directory|..] == "/**" && pattern[..|pattern| - 2] == directory + "/";
    }
  }

  ghost predicate AnyMatch(glob: (string, string) -> bool, patterns: seq<string>, paths: seq<string>) {
    exists pattern, path :: pattern in patterns && path in paths && Covers(glob, pattern, path)
  }

  ghost predicate Selected(config: Config, glob: (string, string) -> bool, changed: seq<string>, name: string) {
    && name in config.tasks
    && (changed == [] || config.tasks[name].paths == [] || AnyMatch(glob, config.tasks[name].paths, changed))
  }

  // The tasks a plan must contain: the selected ones and all they need.
  ghost predicate InPlan(config: Config, glob: (string, string) -> bool, changed: seq<string>, name: string) {
    exists source :: Selected(config, glob, changed, source) && Reaches(NeedsOf(config), source, name)
  }

  method MatchesAny(glob: (string, string) -> bool, patterns: seq<string>, paths: seq<string>) returns (matched: bool)
    ensures matched <==> exists pattern, path :: pattern in patterns && path in paths && Covers(glob, pattern, path)
  {
    hide Covers, PatternMatches;
    for i := 0 to |patterns|
      invariant forall pattern, path :: pattern in patterns[..i] && path in paths ==> !Covers(glob, pattern, path)
    {
      for j := 0 to |paths|
        invariant forall path :: path in paths[..j] ==> !Covers(glob, patterns[i], path)
      {
        PatternExact(glob, patterns[i], paths[j]);
        if PatternMatches(glob, patterns[i], paths[j]) {
          return true;
        }
      }
    }
    return false;
  }

  method Plan(config: Config, glob: (string, string) -> bool, changed: seq<string>) returns (result: OrderResult)
    ensures result.Ordered? ==> NoDuplicates(result.order) && NeedsFirst(NeedsOf(config), result.order)
    ensures result.Ordered? ==> forall name :: name in result.order <==>
      exists source ::
        && source in config.tasks && Reaches(NeedsOf(config), source, name)
        && (changed == [] || config.tasks[source].paths == [] || AnyMatch(glob, config.tasks[source].paths, changed))
    ensures ValidConfig(config) ==> result.Ordered?
  {
    var names := TaskNames(config);
    var selected: seq<string> := [];
    if |changed| == 0 {
      selected := names;
    } else {
      for i := 0 to |names|
        invariant forall name :: name in selected <==> name in names[..i] && Selected(config, glob, changed, name)
      {
        var task := config.tasks[names[i]];
        var matched := |task.paths| == 0;
        if !matched {
          matched := MatchesAny(glob, task.paths, changed);
        }
        if matched {
          selected := selected + [names[i]];
        }
        assert names[..i + 1] == names[..i] + [names[i]];
      }
    }
    assert forall name :: name in selected <==> Selected(config, glob, changed, name);
    result := OrderTasks(config, selected);
    if ValidConfig(config) {
      ValidOrderSucceeds(config, selected);
    }
  }

  // ---- What validation and planning give the rest of the system --------------

  // In an accepted configuration known names reach only declared, acyclic tasks,
  // so neither failure of an ordering can happen.
  lemma ValidOrderSucceeds(config: Config, names: seq<string>)
    requires ValidConfig(config) && (forall n :: n in names ==> n in config.tasks)
    ensures Orderable(config, names)
  {
    NeedsDeclared(config);
    forall name | ReachedFrom(NeedsOf(config), names, name)
      ensures name in config.tasks
    {
      ReachedDeclared(NeedsOf(config), names, name);
    }
  }

  lemma PlanDistributes(config: Config, glob: (string, string) -> bool, p: seq<string>, q: seq<string>, name: string)
    requires p != [] && q != []
    ensures InPlan(config, glob, p + q, name) <==> InPlan(config, glob, p, name) || InPlan(config, glob, q, name)
  {
    forall source
      ensures Selected(config, glob, p + q, source) <==> Selected(config, glob, p, source) || Selected(config, glob, q, source)
    {
      if Selected(config, glob, p + q, source) && config.tasks[source].paths != [] {
        var pattern, path :| pattern in config.tasks[source].paths && path in p + q && Covers(glob, pattern, path);
        assert path in p || path in q;
      }
      if source in config.tasks && AnyMatch(glob, config.tasks[source].paths, p) {
        var pattern, path :| pattern in config.tasks[source].paths && path in p && Covers(glob, pattern, path);
        assert path in p + q;
      }
      if source in config.tasks && AnyMatch(glob, config.tasks[source].paths, q) {
        var pattern, path :| pattern in config.tasks[source].paths && path in q && Covers(glob, pattern, path);
        assert path in p + q;
      }
    }
  }

  // More changed paths never plan fewer tasks, and no plan exceeds the full one.
  lemma PlanMonotone(config: Config, glob: (string, string) -> bool, p: seq<string>, q: seq<string>, name: string)
    requires p != [] && (forall path :: path in p ==> path in q) && InPlan(config, glob, p, name)
    ensures InPlan(config, glob, q, name) && InPlan(config, glob, [], name)
  {
    var source :| Selected(config, glob, p, source) && Reaches(NeedsOf(config), source, name);
    if config.tasks[source].paths != [] {
      var pattern, path :| pattern in config.tasks[source].paths && path in p && Covers(glob, pattern, path);
      assert path in q;
    }
    assert Selected(config, glob, q, source) && Selected(config, glob, [], source);
  }
}
