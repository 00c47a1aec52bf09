// The dependency graph of a configuration: what a task reaches through `needs`,
// what a cycle is, and what it means for a list to be a dependency order.
module Dependencies {
  import opened Common

  type Needs = map<string, seq<string>>

  // A walk along `needs` edges. The last name may be undeclared.
  ghost predicate IsWalk(needs: Needs, walk: seq<string>) {
    && walk != []
    && forall i :: 0 <= i < |walk| - 1 ==> walk[i] in needs && walk[i + 1] in needs[walk[i]]
  }

  ghost predicate WalkBetween(needs: Needs, walk: seq<string>, source: string, target: string) {
    IsWalk(needs, walk) && walk[0] == source && walk[|walk| - 1] == target
  }

  ghost predicate Reaches(needs: Needs, source: string, target: string) {
    exists walk :: WalkBetween(needs, walk, source, target)
  }

  // `target` is one of `names` or something they transitively need.
  ghost predicate ReachedFrom(needs: Needs, names: seq<string>, target: string) {
    exists source :: source in names && Reaches(needs, source, target)
  }

  ghost predicate OnCycle(needs: Needs, name: string) {
    name in needs && exists next :: next in needs[name] && Reaches(needs, next, name)
  }

  // Every task of `order` comes after everything it needs.
  ghost predicate NeedsFirst(needs: Needs, order: seq<string>) {
    forall i :: 0 <= i < |order| ==>
      && order[i] in needs
      && forall need :: need in needs[order[i]] ==> need in order[..i]
  }

  // The exact meaning of a successful ordering of `names`.
  ghost predicate OrderOf(needs: Needs, names: seq<string>, order: seq<string>) {
    && NoDuplicates(order)
    && NeedsFirst(needs, order)
    && forall name :: name in order <==> ReachedFrom(needs, names, name)
  }

  ghost predicate AcyclicGraph(needs: Needs) {
    forall name :: name in needs ==> !OnCycle(needs, name)
  }

  ghost predicate Declared(needs: Needs) {
    forall name, need :: name in needs && need in needs[name] ==> need in needs
  }

  lemma ReachesSelf(needs: Needs, name: string)
    ensures Reaches(needs, name, name)
  {
    assert WalkBetween(needs, [name], name, name);
  }

  lemma ReachesTransitive(needs: Needs, a: string, b: string, c: string)
    requires Reaches(needs, a, b) && Reaches(needs, b, c)
    ensures Reaches(needs, a, c)
  {
    var left :| WalkBetween(needs, left, a, b);
    var right :| WalkBetween(needs, right, b, c);
    var walk := left + right[1..];
    forall i | 0 <= i < |walk| - 1
      ensures walk[i] in needs && walk[i + 1] in needs[walk[i]]
    {
      if i >= |left| - 1 {
        assert walk[i] == right[i - |left| + 1];
      }
    }
    assert WalkBetween(needs, walk, a, c);
  }

  lemma ReachesStep(needs: Needs, a: string, b: string)
    requires a in needs && b in needs[a]
    ensures Reaches(needs, a, b)
  {
    assert WalkBetween(needs, [a, b], a, b);
  }

  // Whatever a walk starts from, it stays inside any list closed under needs.
  lemma {:induction false} WalkStaysInOrder(needs: Needs, order: seq<string>, walk: seq<string>, k: nat)
    requires NeedsFirst(needs, order) && IsWalk(needs, walk)
    requires walk[0] in order && k < |walk|
    ensures walk[k] in order
  {
    if k > 0 {
      WalkStaysInOrder(needs, order, walk, k - 1);
      var i :| 0 <= i < |order| && order[i] == walk[k - 1];
      assert walk[k] in order[..i];
    }
  }

  // Along a walk inside a dependency order the positions never grow.
  lemma {:induction false} WalkGoesEarlier(needs: Needs, order: seq<string>, walk: seq<string>, first: nat, k: nat)
    returns (position: nat)
    requires NeedsFirst(needs, order) && IsWalk(needs, walk) && k < |walk|
    requires first < |order| && order[first] == walk[0]
    ensures position <= first && order[position] == walk[k]
  {
    if k == 0 {
      position := first;
    } else {
      var previous := WalkGoesEarlier(needs, order, walk, first, k - 1);
      assert walk[k] in order[..previous];
      position :| 0 <= position < previous && order[position] == walk[k];
    }
  }

  // A duplicate-free dependency order contains no cycle.
  lemma OrderHasNoCycle(needs: Needs, order: seq<string>, name: string)
    requires NoDuplicates(order) && NeedsFirst(needs, order) && name in order
    ensures !OnCycle(needs, name)
  {
    if OnCycle(needs, name) {
      var next :| next in needs[name] && Reaches(needs, next, name);
      var walk :| WalkBetween(needs, walk, next, name);
      var i :| 0 <= i < |order| && order[i] == name;
      assert next in order[..i];
      var j :| 0 <= j < i && order[j] == next;
      var _ := WalkGoesEarlier(needs, order, walk, j, |walk| - 1);
    }
  }

  // Success and failure exclude each other: if `names` can be ordered at all,
  // then nothing they reach is undeclared or cyclic.
  lemma OrderableExcludesFailure(needs: Needs, names: seq<string>, order: seq<string>, name: string)
    requires OrderOf(needs, names, order) && ReachedFrom(needs, names, name)
    ensures name in needs && !OnCycle(needs, name)
  {
    assert name in order;
    OrderHasNoCycle(needs, order, name);
  }

  // On a graph whose every need is declared, declared names reach declared names only.
  lemma {:induction false} DeclaredClosed(needs: Needs, walk: seq<string>, k: nat)
    requires Declared(needs) && IsWalk(needs, walk) && walk[0] in needs && k < |walk|
    ensures walk[k] in needs
  {
    if k > 0 {
      DeclaredClosed(needs, walk, k - 1);
    }
  }

  lemma ReachedDeclared(needs: Needs, names: seq<string>, name: string)
    requires Declared(needs) && (forall n :: n in names ==> n in needs)
    requires ReachedFrom(needs, names, name)
    ensures name in needs
  {
    var source :| source in names && Reaches(needs, source, name);
    var walk :| WalkBetween(needs, walk, source, name);
    DeclaredClosed(needs, walk, |walk| - 1);
  }
}
