/** The packages a manifest needs at run time, directly or through other packages. */
module Dependencies {
  import opened Sequences

  /**
   What is installed: the dependency names of every package whose manifest can be read, in
   manifest order. A name outside the map is one whose manifest is missing or unreadable.
   */
  type Installed = map<string, seq<string>>

  function DependenciesOf(installed: Installed, name: string): seq<string> {
    if name in installed then installed[name] else []
  }

  /** `p` goes from a dependency of the root, each package depending on the next. */
  ghost predicate Trail(root: seq<string>, installed: Installed, p: seq<string>) {
    && p != [] && p[0] in root
    && forall i :: 0 <= i < |p| - 1 ==> p[i + 1] in DependenciesOf(installed, p[i])
  }

  ghost predicate Needed(root: seq<string>, installed: Installed, name: string) {
    exists p :: Trail(root, installed, p) && p[|p| - 1] == name
  }

  lemma RootIsNeeded(root: seq<string>, installed: Installed, name: string)
    requires name in root
    ensures Needed(root, installed, name)
  {
    assert Trail(root, installed, [name]);
  }

  lemma DependencyIsNeeded(root: seq<string>, installed: Installed, name: string, dep: string)
    requires Needed(root, installed, name) && dep in DependenciesOf(installed, name)
    ensures Needed(root, installed, dep)
  {
    var p :| Trail(root, installed, p) && p[|p| - 1] == name;
    var q := p + [dep];
    assert Trail(root, installed, q);
  }

  /** Everything from `from` on is either done or still to do. */
  ghost predicate Covers(done: set<string>, todo: seq<string>, names: seq<string>) {
    forall n :: n in names ==> n in done || n in todo
  }

  lemma {:induction false} ClosedHoldsTrails(root: seq<string>, installed: Installed, done: set<string>, p: seq<string>)
    requires forall n :: n in root ==> n in done
    requires forall n, d :: n in done && d in DependenciesOf(installed, n) ==> d in done
    requires Trail(root, installed, p)
    ensures p[|p| - 1] in done
    decreases |p|
  {
    if |p| > 1 {
      var q := p[..|p| - 1];
      assert Trail(root, installed, q);
      ClosedHoldsTrails(root, installed, done, q);
      assert p[|p| - 2 + 1] in DependenciesOf(installed, p[|p| - 2]);
    }
  }

  /** Every name there is: what bounds the number of packages ever visited. */
  function Names(root: seq<string>, installed: Installed): (all: set<string>)
    ensures forall n :: n in root ==> n in all
    ensures forall n, d :: d in DependenciesOf(installed, n) ==> d in all
  {
    (set n | n in root) + (set n, d | n in installed && d in installed[n] :: d)
  }

  /** The next name is taken up: it is done, and its dependencies join the queue unless they are done. */
  ghost predicate Closing(root: seq<string>, installed: Installed, done: set<string>, todo: seq<string>) {
    && Covers(done, todo, root)
    && forall n :: n in done ==> Covers(done, todo, DependenciesOf(installed, n))
  }

  ghost predicate Sound(root: seq<string>, installed: Installed, done: set<string>, todo: seq<string>) {
    && (forall n :: n in done || n in todo ==> Needed(root, installed, n))
    && done <= Names(root, installed)
    && (forall n :: n in todo ==> n in Names(root, installed))
  }

  method Enqueue(visited: set<string>, queue: seq<string>, deps: seq<string>) returns (longer: seq<string>)
    ensures queue <= longer && Covers(visited, longer, deps)
    ensures forall n :: n in longer ==> n in queue || n in deps
  {
    longer := queue;
    for k := 0 to |deps|
      invariant queue <= longer && Covers(visited, longer, deps[..k])
      invariant forall n :: n in longer ==> n in queue || n in deps
    {
      NextPrefix(deps, k);
      if deps[k] !in visited {
        longer := longer + [deps[k]];
      }
    }
    WholePrefix(deps);
  }

  lemma Skip(root: seq<string>, installed: Installed, done: set<string>, todo: seq<string>)
    requires todo != [] && todo[0] in done
    requires Closing(root, installed, done, todo) && Sound(root, installed, done, todo)
    ensures Closing(root, installed, done, todo[1..]) && Sound(root, installed, done, todo[1..])
  {
    assert todo == [todo[0]] + todo[1..];
  }

  lemma VisitKeepsClosing(
      root: seq<string>, installed: Installed, done: set<string>, todo: seq<string>, next: seq<string>)
    requires todo != [] && Closing(root, installed, done, todo)
    requires todo[1..] <= next && Covers(done + {todo[0]}, next, DependenciesOf(installed, todo[0]))
    ensures Closing(root, installed, done + {todo[0]}, next)
  {
    assert todo == [todo[0]] + todo[1..];
    assert forall n :: n in todo ==> n == todo[0] || n in next;
  }

  lemma VisitKeepsSound(
      root: seq<string>, installed: Installed, done: set<string>, todo: seq<string>, next: seq<string>)
    requires todo != [] && Sound(root, installed, done, todo)
    requires forall n :: n in next ==> n in todo[1..] || n in DependenciesOf(installed, todo[0])
    ensures Sound(root, installed, done + {todo[0]}, next)
  {
    forall n | n in next ensures Needed(root, installed, n) && n in Names(root, installed) {
      if n in DependenciesOf(installed, todo[0]) {
        DependencyIsNeeded(root, installed, todo[0], n);
      }
    }
  }

  lemma Start(root: seq<string>, installed: Installed)
    ensures Closing(root, installed, {}, root) && Sound(root, installed, {}, root)
  {
    forall n | n in root ensures Needed(root, installed, n) {
      RootIsNeeded(root, installed, n);
    }
  }

  lemma Finish(root: seq<string>, installed: Installed, done: set<string>)
    requires Closing(root, installed, done, []) && Sound(root, installed, done, [])
    ensures forall n :: n in done <==> Needed(root, installed, n)
  {
    forall n | Needed(root, installed, n) ensures n in done {
      var p :| Trail(root, installed, p) && p[|p| - 1] == n;
      ClosedHoldsTrails(root, installed, done, p);
    }
  }

  lemma OneFewer(all: set<string>, done: set<string>, name: string)
    requires name in all && name !in done
    ensures |all - (done + {name})| < |all - done|
  {
    assert all - done == (all - (done + {name})) + {name};
  }

  /** The walk visits exactly the packages needed, whatever the cycles, the repeats and the missing manifests. */
  method CollectDependencies(root: seq<string>, installed: Installed) returns (visited: set<string>)
    ensures forall n :: n in visited <==> Needed(root, installed, n)
  {
    visited := {};
    var queue := root;
    ghost var all := Names(root, installed);
    Start(root, installed);
    while queue != []
      invariant Closing(root, installed, visited, queue) && Sound(root, installed, visited, queue)
      decreases |all - visited|, |queue|
    {
      var name := queue[0];
      ghost var was, before := visited, queue;
      queue := queue[1..];
      if name in visited {
        Skip(root, installed, was, before);
        continue;
      }
      OneFewer(all, was, name);
      visited := visited + {name};
      if name in installed {
        queue := Enqueue(visited, queue, installed[name]);
      }
      VisitKeepsClosing(root, installed, was, before, queue);
      VisitKeepsSound(root, installed, was, before, queue);
    }
    Finish(root, installed, visited);
  }
}
