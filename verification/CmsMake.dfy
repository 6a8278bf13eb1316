/** The incremental builder: a depth-first search over the dependencies that runs an
    action when a dependency is newer than the target. */
module CmsMake {
  import opened Basics

  type Target = string

  /** What an action does: it reads its input files and writes its output files, whose
      contents depend on nothing else. */
  datatype Action =
    | Noop
    | Make(infiles: seq<Target>, outfiles: seq<Target>, recipe: (seq<string>, Target) -> string)

  datatype Node = Node(deps: seq<Target>, action: Action)

  type Tree = map<Target, Node>

  datatype File = File(content: string, mtime: int)

  type Files = map<Target, File>

  // ------------------------------------------------------ the execution tree

  ghost predicate Closed(tree: Tree) {
    forall t, i :: t in tree && 0 <= i < |tree[t].deps| ==> tree[t].deps[i] in tree
  }

  /** All the outputs of the first n actions, in order. */
  ghost function Outputs(actions: seq<Action>): seq<Target>
    requires forall a :: a in actions ==> a.Make?
  {
    if actions == [] then []
    else
      assert actions[|actions| - 1] in actions;
      Outputs(actions[..|actions| - 1]) + actions[|actions| - 1].outfiles
  }

  /** Every output leads to its action, every other input to a source. */
  ghost predicate IsTreeOf(tree: Tree, actions: seq<Action>)
    requires forall a :: a in actions ==> a.Make?
  {
    && (forall a, t :: a in actions && t in a.outfiles ==> t in tree && tree[t] == Node(a.infiles, a))
    && (forall a, t :: a in actions && t in a.infiles ==> t in tree)
    && (forall t :: t in tree ==>
          || (exists a :: a in actions && t in a.outfiles)
          || (tree[t] == Node([], Noop) && exists a :: a in actions && t in a.infiles))
  }

  /** The loop over the outputs of one action; stops at a target that has an action. */
  method AddOutputs(exec: Tree, generated: seq<Target>, a: Action) returns (ok: bool, more: Tree)
    requires a.Make? && Distinct(generated) && exec.Keys == set t | t in generated
    ensures ok <==> Distinct(generated + a.outfiles)
    ensures ok ==> more.Keys == set t | t in generated + a.outfiles
    ensures ok ==> forall t :: t in a.outfiles ==> t in more && more[t] == Node(a.infiles, a)
    ensures ok ==> forall t :: t in exec ==> t in more && more[t] == exec[t]
  {
    hide Distinct;
    more := exec;
    ghost var all := generated + a.outfiles;
    assert generated + a.outfiles[..0] == generated;
    for j := 0 to |a.outfiles|
      invariant Distinct(generated + a.outfiles[..j])
      invariant more.Keys == set t | t in generated + a.outfiles[..j]
      invariant forall t :: t in a.outfiles[..j] ==> t in more && more[t] == Node(a.infiles, a)
      invariant forall t :: t in exec ==> t in more && more[t] == exec[t]
    {
      var exe := a.outfiles[j];
      ghost var sofar := generated + a.outfiles[..j];
      assert all[|sofar|] == exe && sofar <= all;
      if exe in more {
        assert exe in sofar;
        TwiceThere(sofar, all, exe);
        return false, more;
      }
      DistinctMore(sofar, exe);
      more := more[exe := Node(a.infiles, a)];
      assert generated + a.outfiles[..j + 1] == sofar + [exe];
    }
    assert a.outfiles[..|a.outfiles|] == a.outfiles;
    ok := true;
  }

  lemma TwiceThere(sofar: seq<Target>, all: seq<Target>, t: Target)
    requires sofar < all && t in sofar && all[|sofar|] == t
    ensures !Distinct(all)
  {
    var k :| 0 <= k < |sofar| && sofar[k] == t;
    assert all[k] == t;
  }

  lemma DistinctMore(s: seq<Target>, t: Target)
    requires Distinct(s) && t !in s
    ensures Distinct(s + [t])
  {
  }

  /** build_execution_tree: fails exactly if some target has two actions. */
  method BuildExecutionTree(actions: seq<Action>) returns (tree: Option<Tree>, generated: seq<Target>)
    requires forall a :: a in actions ==> a.Make?
    ensures tree.Some? <==> Distinct(Outputs(actions))
    ensures tree.Some? ==> generated == Outputs(actions) && IsTreeOf(tree.value, actions) && Closed(tree.value)
  {
    hide Distinct, Indexed, Closed, IsTreeOf, Outputs;
    var exec: Tree := map[];
    var sources: set<Target> := {};
    generated := [];
    NothingIndexed();
    for i := 0 to |actions|
      invariant Indexed(actions[..i], exec, generated, sources)
    {
      var a := actions[i];
      assert actions[..i + 1] == actions[..i] + [a];
      IndexedKeys(actions[..i], exec, generated, sources);
      var ok, more := AddOutputs(exec, generated, a);
      if !ok {
        DuplicateOutput(actions, i);
        return None, generated;
      }
      IndexedMore(actions[..i], a, exec, generated, sources, more);
      generated, exec := generated + a.outfiles, more;
      sources := sources + set t | t in a.infiles;
    }
    assert actions[..|actions|] == actions;
    var missing := sources - exec.Keys;
    IndexedAll(actions, exec, generated, sources);
    exec := exec + map t | t in missing :: Node([], Noop);
    tree := Some(exec);
  }

  /** The tree so far, without its sources. */
  ghost predicate Indexed(actions: seq<Action>, exec: Tree, generated: seq<Target>, sources: set<Target>) {
    && (forall a :: a in actions ==> a.Make?)
    && generated == Outputs(actions) && Distinct(generated) && exec.Keys == (set t | t in generated)
    && sources == (set a, t | a in actions && t in a.infiles :: t)
    && (forall a, t :: a in actions && t in a.outfiles ==> t in exec && exec[t] == Node(a.infiles, a))
    && (forall t :: t in exec ==> exists a :: a in actions && t in a.outfiles)
  }

  lemma NothingIndexed()
    ensures Indexed([], map[], [], {})
  {
  }

  lemma IndexedKeys(actions: seq<Action>, exec: Tree, generated: seq<Target>, sources: set<Target>)
    requires Indexed(actions, exec, generated, sources)
    ensures forall a :: a in actions ==> a.Make?
    ensures Distinct(generated) && exec.Keys == (set t | t in generated) && generated == Outputs(actions)
  {
  }

  lemma IndexedMore(actions: seq<Action>, a: Action, exec: Tree, generated: seq<Target>, sources: set<Target>,
        more: Tree)
    requires Indexed(actions, exec, generated, sources) && a.Make? && Distinct(generated + a.outfiles)
    requires more.Keys == set t | t in generated + a.outfiles
    requires forall t :: t in a.outfiles ==> t in more && more[t] == Node(a.infiles, a)
    requires forall t :: t in exec ==> t in more && more[t] == exec[t]
    ensures Indexed(actions + [a], more, generated + a.outfiles, sources + set t | t in a.infiles)
  {
    var all := actions + [a];
    assert all[..|all| - 1] == actions && all[|all| - 1] == a;
    forall t | t in more
      ensures exists b :: b in all && t in b.outfiles
    {
      if t in a.outfiles {
        assert a in all;
      } else {
        var b :| b in actions && t in b.outfiles;
        assert b in all;
      }
    }
  }

  lemma IndexedAll(actions: seq<Action>, exec: Tree, generated: seq<Target>, sources: set<Target>)
    requires Indexed(actions, exec, generated, sources)
    ensures generated == Outputs(actions) && Distinct(generated)
    ensures var tree := exec + map t | t in sources - exec.Keys :: Node([], Noop);
      IsTreeOf(tree, actions) && Closed(tree)
  {
    hide Outputs, Distinct, Closed;
    TreeIsClosed(exec + map t | t in sources - exec.Keys :: Node([], Noop), actions);
  }

  /** The inputs of an action are in the tree, and a source has none. */
  lemma TreeIsClosed(tree: Tree, actions: seq<Action>)
    requires (forall a :: a in actions ==> a.Make?) && IsTreeOf(tree, actions)
    ensures Closed(tree)
  {
    forall t, i | t in tree && 0 <= i < |tree[t].deps|
      ensures tree[t].deps[i] in tree
    {
      var a :| a in actions && t in a.outfiles;
      assert tree[t].deps[i] in a.infiles;
    }
  }

  lemma DuplicateOutput(actions: seq<Action>, i: nat)
    requires forall a :: a in actions ==> a.Make?
    requires i < |actions| && forall a :: a in actions[..i] ==> a.Make?
    requires !Distinct(Outputs(actions[..i]) + actions[i].outfiles)
    ensures !Distinct(Outputs(actions))
  {
    OutputsPrefix(actions, i);
    var some := Outputs(actions[..i]) + actions[i].outfiles;
    var j, k :| 0 <= j < k < |some| && some[j] == some[k];
    assert Outputs(actions)[j] == Outputs(actions)[k];
  }

  lemma {:induction false} OutputsPrefix(actions: seq<Action>, i: nat)
    requires forall a :: a in actions ==> a.Make?
    requires i < |actions|
    ensures forall a :: a in actions[..i] ==> a.Make?
    ensures Outputs(actions[..i]) + actions[i].outfiles <= Outputs(actions)
  {
    if i < |actions| - 1 {
      var prior := actions[..|actions| - 1];
      OutputsPrefix(prior, i);
      assert prior[..i] == actions[..i];
    }
  }

  // ----------------------------------------------------------- the search

  /** A target whose turn is over, and whether its action was run then. */
  datatype Step = Step(target: Target, acted: bool)

  ghost function Finished(log: seq<Step>): set<Target> {
    set i | 0 <= i < |log| :: log[i].target
  }

  /** The log finishes d before step i. */
  ghost predicate DoneBefore(log: seq<Step>, i: int, d: Target) {
    exists j :: 0 <= j < i && j < |log| && log[j].target == d
  }

  /** Every target is finished once, after all its dependencies. */
  ghost predicate Ordered(tree: Tree, log: seq<Step>) {
    && (forall i, j :: 0 <= i < j < |log| ==> log[i].target != log[j].target)
    && (forall i :: 0 <= i < |log| ==> log[i].target in tree)
    && (forall i, d :: 0 <= i < |log| && d in tree[log[i].target].deps ==> DoneBefore(log, i, d))
  }

  ghost predicate Edge(tree: Tree, a: Target, b: Target) {
    a in tree && b in tree[a].deps
  }

  ghost predicate IsPath(tree: Tree, p: seq<Target>) {
    p != [] && forall k :: 0 <= k < |p| - 1 ==> Edge(tree, p[k], p[k + 1])
  }

  /** A path that comes back to one of its targets. */
  ghost predicate Lasso(tree: Tree, p: seq<Target>, i: nat) {
    IsPath(tree, p) && i < |p| - 1 && p[i] == p[|p| - 1]
  }

  /** A circular dependency can be reached from the target. */
  ghost predicate CycleFrom(tree: Tree, t: Target) {
    exists p, i :: Lasso(tree, p, i) && p[0] == t
  }

  /** In an ordered log every path from a finished target goes back in the log, so
      everything it meets was finished before. */
  lemma {:induction false} PathGoesBack(tree: Tree, log: seq<Step>, p: seq<Target>, i: nat) returns (at: seq<nat>)
    requires Ordered(tree, log) && IsPath(tree, p) && i < |log| && log[i].target == p[0]
    ensures |at| == |p| && at[0] == i
    ensures forall k :: 0 <= k < |p| ==> at[k] < |log| && log[at[k]].target == p[k]
    ensures forall j, k :: 0 <= j < k < |p| ==> at[k] < at[j]
  {
    if |p| == 1 {
      at := [i];
    } else {
      assert Edge(tree, p[0], p[1]);
      assert DoneBefore(log, i, p[1]);
      var j :| 0 <= j < i && j < |log| && log[j].target == p[1];
      assert IsPath(tree, p[1..]) by {
        forall k | 0 <= k < |p| - 2
          ensures Edge(tree, p[1..][k], p[1..][k + 1])
        {
          assert Edge(tree, p[k + 1], p[k + 2]);
        }
      }
      var rest := PathGoesBack(tree, log, p[1..], j);
      at := [i] + rest;
    }
  }

  /** A path from a finished target never comes back. */
  lemma NoReturn(tree: Tree, log: seq<Step>, k: nat, p: seq<Target>, i: nat)
    requires Ordered(tree, log) && IsPath(tree, p) && k < |log| && log[k].target == p[0] && i < |p| - 1
    ensures p[i] != p[|p| - 1]
  {
    var at := PathGoesBack(tree, log, p, k);
    assert at[|p| - 1] < at[i];
  }

  /** A finished target leads to no circular dependency. */
  lemma FinishedIsAcyclic(tree: Tree, log: seq<Step>, t: Target)
    requires Ordered(tree, log) && t in Finished(log)
    ensures !CycleFrom(tree, t)
  {
    var k :| 0 <= k < |log| && log[k].target == t;
    forall p, i: nat | IsPath(tree, p) && i < |p| - 1 && p[0] == t
      ensures !Lasso(tree, p, i)
    {
      NoReturn(tree, log, k, p, i);
    }
  }

  /** All the transitive dependencies of a target are finished before it. */
  lemma DependenciesFirst(tree: Tree, log: seq<Step>, i: nat, p: seq<Target>)
    requires Ordered(tree, log) && i < |log| && IsPath(tree, p) && |p| > 1 && p[0] == log[i].target
    ensures DoneBefore(log, i, p[|p| - 1])
  {
    var at := PathGoesBack(tree, log, p, i);
    assert at[|p| - 1] < at[0];
  }

  ghost predicate Reaches(tree: Tree, a: Target, b: Target) {
    exists p :: IsPath(tree, p) && p[0] == a && p[|p| - 1] == b
  }

  lemma ReachesSelf(tree: Tree, a: Target)
    ensures Reaches(tree, a, a)
  {
    assert IsPath(tree, [a]) && [a][0] == a;
  }

  lemma ReachesBefore(tree: Tree, a: Target, b: Target, c: Target)
    requires Edge(tree, a, b) && Reaches(tree, b, c)
    ensures Reaches(tree, a, c)
  {
    var p :| IsPath(tree, p) && p[0] == b && p[|p| - 1] == c;
    var q := [a] + p;
    assert IsPath(tree, q) by {
      forall k | 0 <= k < |q| - 1
        ensures Edge(tree, q[k], q[k + 1])
      {
        if k > 0 {
          assert Edge(tree, p[k - 1], p[k]);
        }
      }
    }
    assert q[0] == a && q[|q| - 1] == c;
  }

  /** Whatever a finished target depends on, however indirectly, is finished. */
  lemma ReachableIsFinished(tree: Tree, log: seq<Step>, t: Target, u: Target)
    requires Ordered(tree, log) && t in Finished(log) && Reaches(tree, t, u)
    ensures u in Finished(log)
  {
    var p :| IsPath(tree, p) && p[0] == t && p[|p| - 1] == u;
    var k :| 0 <= k < |log| && log[k].target == t;
    var at := PathGoesBack(tree, log, p, k);
    assert log[at[|p| - 1]].target == u;
  }

  // -------------------------------------------------------------- the files

  /** The modification time; 0 for a file that does not exist. */
  function Time(files: Files, t: Target): int {
    if t in files then files[t].mtime else 0
  }

  function Content(files: Files, t: Target): string {
    if t in files then files[t].content else ""
  }

  function Contents(files: Files, ts: seq<Target>): seq<string> {
    seq(|ts|, i requires 0 <= i < |ts| => Content(files, ts[i]))
  }

  /** A dependency is more recent than the target. */
  ghost predicate Stale(tree: Tree, files: Files, t: Target) {
    t in tree && (Time(files, t) < 0 || exists d :: d in tree[t].deps && Time(files, t) < Time(files, d))
  }

  ghost predicate Present(tree: Tree, files: Files, t: Target) {
    t in tree && forall d :: d in tree[t].deps ==> d in files
  }

  /** The files after an action has been run at the given time. */
  function Made(action: Action, files: Files, time: int): Files {
    match action
    case Noop => files
    case Make(ins, outs, recipe) => files + map o | o in outs :: File(recipe(Contents(files, ins), o), time)
  }

  datatype Disk = Disk(files: Files, clock: int)

  /** The files and the clock after the steps of a log. */
  ghost function Replay(tree: Tree, start: Disk, log: seq<Step>): Disk {
    if log == [] then start
    else
      var prior := Replay(tree, start, log[..|log| - 1]);
      var s := log[|log| - 1];
      if s.acted && s.target in tree
      then Disk(Made(tree[s.target].action, prior.files, prior.clock + 1), prior.clock + 1)
      else prior
  }

  ghost predicate JustifiedStep(tree: Tree, disk: Disk, s: Step) {
    Present(tree, disk.files, s.target) && (s.acted <==> Stale(tree, disk.files, s.target))
  }

  /** Exactly the targets that were stale when their turn came had their action run. */
  ghost predicate Justified(tree: Tree, start: Disk, log: seq<Step>) {
    forall i :: 0 <= i < |log| ==> JustifiedStep(tree, Replay(tree, start, log[..i]), log[i])
  }

  lemma ReplayMore(tree: Tree, start: Disk, log: seq<Step>, s: Step)
    ensures Replay(tree, start, log + [s]) ==
            var prior := Replay(tree, start, log);
            if s.acted && s.target in tree
            then Disk(Made(tree[s.target].action, prior.files, prior.clock + 1), prior.clock + 1)
            else prior
  {
    hide Made;
    assert (log + [s])[..|log|] == log;
  }

  lemma OneMore(tree: Tree, start: Disk, log: seq<Step>, s: Step)
    requires Ordered(tree, log) && Justified(tree, start, log)
    requires s.target in tree && s.target !in Finished(log)
    requires forall d :: d in tree[s.target].deps ==> d in Finished(log)
    requires JustifiedStep(tree, Replay(tree, start, log), s)
    ensures Ordered(tree, log + [s]) && Justified(tree, start, log + [s])
    ensures Finished(log + [s]) == Finished(log) + {s.target}
  {
    FinishedMore(log, s);
    JustifiedMore(tree, start, log, s);
    OrderedMore(tree, log, s);
  }

  lemma JustifiedMore(tree: Tree, start: Disk, log: seq<Step>, s: Step)
    requires Justified(tree, start, log) && JustifiedStep(tree, Replay(tree, start, log), s)
    ensures Justified(tree, start, log + [s])
  {
    hide JustifiedStep, Replay;
    var more := log + [s];
    forall i | 0 <= i < |more|
      ensures JustifiedStep(tree, Replay(tree, start, more[..i]), more[i])
    {
      assert more[..i] == log[..i];
      assert log[..|log|] == log;
    }
  }

  lemma OrderedMore(tree: Tree, log: seq<Step>, s: Step)
    requires Ordered(tree, log) && s.target in tree && s.target !in Finished(log)
    requires forall d :: d in tree[s.target].deps ==> d in Finished(log)
    ensures Ordered(tree, log + [s])
  {
    var more := log + [s];
    forall i, d | 0 <= i < |more| && d in tree[more[i].target].deps
      ensures DoneBefore(more, i, d)
    {
      if i < |log| {
        assert DoneBefore(log, i, d);
        var j :| 0 <= j < i && j < |log| && log[j].target == d;
        assert more[j].target == d;
      } else {
        var j :| 0 <= j < |log| && log[j].target == d;
        assert more[j].target == d;
      }
    }
    forall i, j | 0 <= i < j < |more|
      ensures more[i].target != more[j].target
    {
      assert log[i].target in Finished(log);
    }
  }

  lemma FinishedMore(log: seq<Step>, s: Step)
    ensures Finished(log + [s]) == Finished(log) + {s.target}
  {
    var more := log + [s];
    assert more[|log|] == s;
    forall t | t in Finished(log)
      ensures t in Finished(more)
    {
      var i :| 0 <= i < |log| && log[i].target == t;
      assert more[i].target == t;
    }
  }

  lemma FinishedPrefix(log: seq<Step>, more: seq<Step>)
    requires log <= more
    ensures Finished(log) <= Finished(more)
  {
    forall t | t in Finished(log)
      ensures t in Finished(more)
    {
      var i :| 0 <= i < |log| && log[i].target == t;
      assert more[i].target == t;
    }
  }

  /** A log without its last step. */
  lemma OneLess(tree: Tree, start: Disk, log: seq<Step>)
    requires Ordered(tree, log) && Justified(tree, start, log) && log != []
    ensures var last := log[|log| - 1]; var prior := log[..|log| - 1];
      && Ordered(tree, prior) && Justified(tree, start, prior)
      && last.target in tree && last.target !in Finished(prior)
      && Finished(log) == Finished(prior) + {last.target}
      && (forall d :: d in tree[last.target].deps ==> d in Finished(prior))
      && JustifiedStep(tree, Replay(tree, start, prior), last)
  {
    hide Ordered, Justified, Finished;
    var n := |log| - 1;
    var prior := log[..n];
    assert log == prior + [log[n]];
    FinishedMore(prior, log[n]);
    JustifiedLess(tree, start, log);
    OrderedLess(tree, log);
  }

  lemma JustifiedLess(tree: Tree, start: Disk, log: seq<Step>)
    requires Justified(tree, start, log) && log != []
    ensures Justified(tree, start, log[..|log| - 1])
    ensures JustifiedStep(tree, Replay(tree, start, log[..|log| - 1]), log[|log| - 1])
  {
    hide JustifiedStep, Replay;
    var prior := log[..|log| - 1];
    forall i | 0 <= i < |prior|
      ensures JustifiedStep(tree, Replay(tree, start, prior[..i]), prior[i])
    {
      assert prior[..i] == log[..i];
    }
  }

  lemma OrderedLess(tree: Tree, log: seq<Step>)
    requires Ordered(tree, log) && log != []
    ensures var last := log[|log| - 1]; var prior := log[..|log| - 1];
      && Ordered(tree, prior) && last.target in tree && last.target !in Finished(prior)
      && forall d :: d in tree[last.target].deps ==> d in Finished(prior)
  {
    var n := |log| - 1;
    var prior := log[..n];
    forall i, d | 0 <= i < n && d in tree[prior[i].target].deps
      ensures DoneBefore(prior, i, d)
    {
      assert DoneBefore(log, i, d);
      var j :| 0 <= j < i && j < |log| && log[j].target == d;
      assert prior[j].target == d;
    }
    forall d | d in tree[log[n].target].deps
      ensures d in Finished(prior)
    {
      assert DoneBefore(log, n, d);
      var j :| 0 <= j < n && j < |log| && log[j].target == d;
      assert prior[j].target == d;
    }
  }

  /** Times are positive and never in the future. */
  ghost predicate Timely(disk: Disk) {
    disk.clock > 0 && forall t :: t in disk.files ==> 0 < disk.files[t].mtime <= disk.clock
  }

  /** Every source is on the disk, every other target is written by its action. */
  ghost predicate Sourced(tree: Tree, files: Files) {
    forall t :: t in tree ==>
      if tree[t].deps == [] then t in files else tree[t].action.Make? && t in tree[t].action.outfiles
  }

  /** Then a finished target is on the disk. */
  lemma {:induction false} FinishedIsOnDisk(tree: Tree, start: Disk, log: seq<Step>)
    requires Ordered(tree, log) && Justified(tree, start, log) && Timely(start) && Sourced(tree, start.files)
    ensures Timely(Replay(tree, start, log)) && start.files.Keys <= Replay(tree, start, log).files.Keys
    ensures Finished(log) <= Replay(tree, start, log).files.Keys
  {
    hide Ordered, Justified, JustifiedStep, Finished, Timely, Sourced, Made;
    if log == [] {
      FinishedNothing();
    } else {
      OneLess(tree, start, log);
      var prior := log[..|log| - 1];
      FinishedIsOnDisk(tree, start, prior);
      StepIsOnDisk(tree, start.files, Replay(tree, start, prior), log[|log| - 1]);
    }
  }

  lemma FinishedNothing()
    ensures Finished([]) == {}
  {
  }

  lemma StepIsOnDisk(tree: Tree, start: Files, disk: Disk, s: Step)
    requires Timely(disk) && Sourced(tree, start) && start.Keys <= disk.files.Keys && s.target in tree
    requires JustifiedStep(tree, disk, s)
    ensures s.acted ==> s.target in Made(tree[s.target].action, disk.files, disk.clock + 1)
    ensures disk.files.Keys <= Made(tree[s.target].action, disk.files, disk.clock + 1).Keys
    ensures Timely(Disk(Made(tree[s.target].action, disk.files, disk.clock + 1), disk.clock + 1))
    ensures !s.acted ==> s.target in disk.files
  {
    var t := s.target;
    if tree[t].deps != [] && t !in disk.files {
      var d := tree[t].deps[0];
      assert d in tree[t].deps && Time(disk.files, d) > 0;
      assert Stale(tree, disk.files, t);
    }
  }

  // ------------------------------------------------- incremental equals clean

  /** A generated target holds what its action would write now. */
  ghost predicate Fresh(tree: Tree, files: Files, t: Target) {
    t in tree && tree[t].action.Make? ==>
      t in files && files[t].content == tree[t].action.recipe(Contents(files, tree[t].deps), t)
  }

  /** Every generated target has an action of its own, with at least one dependency. */
  ghost predicate OneOutputEach(tree: Tree) {
    forall t :: t in tree ==>
      if tree[t].action.Make? then
        tree[t].action.outfiles == [t] && tree[t].action.infiles == tree[t].deps && tree[t].deps != []
      else tree[t].deps == []
  }

  lemma OneOutputActions(tree: Tree, actions: seq<Action>)
    requires forall a :: a in actions ==> a.Make? && |a.outfiles| == 1 && a.infiles != []
    requires IsTreeOf(tree, actions)
    ensures OneOutputEach(tree)
  {
    forall t | t in tree && tree[t].action.Make?
      ensures tree[t].action.outfiles == [t] && tree[t].action.infiles == tree[t].deps && tree[t].deps != []
    {
      var a :| a in actions && t in a.outfiles;
      assert a.outfiles == [a.outfiles[0]];
    }
  }

  /** Whatever is on the disk and not older than its dependencies is fresh. */
  ghost predicate Honest(tree: Tree, files: Files) {
    forall t :: t in files && Present(tree, files, t) && !Stale(tree, files, t) ==> Fresh(tree, files, t)
  }

  ghost predicate Same(a: Files, b: Files, t: Target) {
    (t in a <==> t in b) && (t in a ==> a[t] == b[t])
  }

  /** Where a build stands: the finished targets are fresh, the others are as they were,
      and whatever changed is newer than anything was. */
  ghost predicate Progress(tree: Tree, start: Disk, log: seq<Step>, disk: Disk) {
    && Timely(disk) && start.clock <= disk.clock
    && (forall t :: t in Finished(log) ==> Fresh(tree, disk.files, t))
    && (forall t :: t !in Finished(log) ==> Same(start.files, disk.files, t))
    && (forall t :: Same(start.files, disk.files, t) || Time(disk.files, t) > start.clock)
    && (forall t :: t in tree && tree[t].action.Noop? ==> Same(start.files, disk.files, t))
  }

  lemma SameContents(a: Files, b: Files, ts: seq<Target>)
    requires forall t :: t in ts ==> Content(a, t) == Content(b, t)
    ensures Contents(a, ts) == Contents(b, ts)
  {
    forall i | 0 <= i < |ts|
      ensures Contents(a, ts)[i] == Contents(b, ts)[i]
    {
      assert ts[i] in ts;
    }
  }

  lemma StepProgress(tree: Tree, start: Disk, log: seq<Step>, disk: Disk, t: Target)
    requires OneOutputEach(tree) && Honest(tree, start.files) && Timely(start)
    requires Progress(tree, start, log, disk) && t !in Finished(log)
    requires Present(tree, disk.files, t) && !Stale(tree, disk.files, t) && tree[t].action.Make?
    ensures Fresh(tree, disk.files, t)
  {
    var d := tree[t].deps[0];
    assert d in tree[t].deps && Time(disk.files, d) > 0;
    assert Same(start.files, disk.files, t);
    forall x | x in tree[t].deps
      ensures Same(start.files, disk.files, x)
    {
      assert Time(disk.files, x) <= start.clock;
    }
    assert Fresh(tree, start.files, t);
    SameContents(start.files, disk.files, tree[t].deps);
  }

  lemma OnlyOneMade(tree: Tree, files: Files, time: int, t: Target)
    requires OneOutputEach(tree) && t in tree && tree[t].action.Make?
    ensures var made := Made(tree[t].action, files, time);
      && (forall x :: x != t ==> Same(files, made, x)) && t in made && made[t].mtime == time
      && made[t].content == tree[t].action.recipe(Contents(files, tree[t].deps), t)
  {
    assert t in tree[t].action.outfiles;
  }

  lemma FreshAfterwards(tree: Tree, log: seq<Step>, before: Files, after: Files, t: Target, x: Target)
    requires Ordered(tree, log) && t !in Finished(log) && t in tree
    requires forall d :: d in tree[t].deps ==> d in Finished(log)
    requires forall y :: y != t ==> Same(before, after, y)
    requires tree[t].action.Make? ==>
               t in after && after[t].content == tree[t].action.recipe(Contents(before, tree[t].deps), t)
    requires x == t || (x in Finished(log) && Fresh(tree, before, x))
    ensures Fresh(tree, after, x)
  {
    if x in tree && tree[x].action.Make? {
      forall d | d in tree[x].deps
        ensures Content(before, d) == Content(after, d)
      {
        if x != t {
          var i :| 0 <= i < |log| && log[i].target == x;
          assert DoneBefore(log, i, d);
        }
        assert d in Finished(log);
        assert Same(before, after, d);
      }
      SameContents(before, after, tree[x].deps);
      assert x != t ==> Same(before, after, x);
    }
  }

  lemma ActProgress(tree: Tree, start: Disk, log: seq<Step>, disk: Disk, t: Target)
    requires OneOutputEach(tree) && Timely(start) && Ordered(tree, log)
    requires Progress(tree, start, log, disk) && t in tree && t !in Finished(log) && tree[t].action.Make?
    requires forall d :: d in tree[t].deps ==> d in Finished(log)
    ensures Progress(tree, start, log + [Step(t, true)],
                     Disk(Made(tree[t].action, disk.files, disk.clock + 1), disk.clock + 1))
  {
    hide Made, Fresh, Ordered, Finished, OneOutputEach;
    FinishedMore(log, Step(t, true));
    var made := Made(tree[t].action, disk.files, disk.clock + 1);
    OnlyOneMade(tree, disk.files, disk.clock + 1, t);
    forall x | x in Finished(log) || x == t
      ensures Fresh(tree, made, x)
    {
      FreshAfterwards(tree, log, disk.files, made, t, x);
    }
    forall x
      ensures Same(start.files, made, x) || Time(made, x) > start.clock
      ensures x !in Finished(log) + {t} ==> Same(start.files, made, x)
    {
      assert x != t ==> Same(disk.files, made, x);
      assert Same(start.files, disk.files, x) || Time(disk.files, x) > start.clock;
      assert x == t ==> Time(made, x) == disk.clock + 1;
    }
    forall x | x in made
      ensures 0 < made[x].mtime <= disk.clock + 1
    {
      assert x != t ==> Same(disk.files, made, x);
    }
    forall x | x in tree && tree[x].action.Noop?
      ensures Same(start.files, made, x)
    {
      assert Same(start.files, disk.files, x) && Same(disk.files, made, x);
    }
  }

  lemma SkipProgress(tree: Tree, start: Disk, log: seq<Step>, disk: Disk, s: Step)
    requires OneOutputEach(tree) && Honest(tree, start.files) && Timely(start)
    requires Progress(tree, start, log, disk) && s.target !in Finished(log) && JustifiedStep(tree, disk, s)
    requires tree[s.target].action.Noop? || !s.acted
    ensures Progress(tree, start, log + [s], disk)
  {
    FinishedMore(log, s);
    if tree[s.target].action.Make? {
      StepProgress(tree, start, log, disk, s.target);
    }
  }

  lemma ProgressNothing(tree: Tree, start: Disk)
    requires Timely(start)
    ensures Progress(tree, start, [], start)
  {
  }

  lemma NoopMakesNothing(tree: Tree, start: Disk, log: seq<Step>, disk: Disk, s: Step)
    requires OneOutputEach(tree) && Progress(tree, start, log, disk) && JustifiedStep(tree, disk, s)
             && tree[s.target].action.Noop?
    ensures !s.acted
  {
  }

  lemma {:induction false} BuildProgress(tree: Tree, start: Disk, log: seq<Step>)
    requires OneOutputEach(tree) && Honest(tree, start.files) && Timely(start)
    requires Ordered(tree, log) && Justified(tree, start, log)
    ensures Progress(tree, start, log, Replay(tree, start, log))
  {
    hide Ordered, Justified, JustifiedStep, Progress, OneOutputEach, Honest, Timely, Finished, Made;
    if log == [] {
      FinishedNothing();
      ProgressNothing(tree, start);
    } else {
      OneLess(tree, start, log);
      var prior := log[..|log| - 1];
      var s := log[|log| - 1];
      assert log == prior + [s];
      BuildProgress(tree, start, prior);
      var disk := Replay(tree, start, prior);
      if tree[s.target].action.Noop? {
        NoopMakesNothing(tree, start, prior, disk, s);
      }
      if s.acted {
        ActProgress(tree, start, prior, disk, s.target);
      } else {
        SkipProgress(tree, start, prior, disk, s);
      }
    }
  }

  /** What a build leaves alone: sources, and the targets whose turn has not come. */
  ghost predicate Untouched(tree: Tree, start: Disk, log: seq<Step>, disk: Disk) {
    && Timely(disk) && start.clock <= disk.clock
    && (forall t :: t !in Finished(log) ==> Same(start.files, disk.files, t))
    && (forall t :: t in tree && tree[t].action.Noop? ==> Same(start.files, disk.files, t))
  }

  lemma StepTouches(tree: Tree, start: Disk, log: seq<Step>, disk: Disk, s: Step)
    requires OneOutputEach(tree) && Untouched(tree, start, log, disk) && JustifiedStep(tree, disk, s)
    ensures var next :=
                if s.acted then Disk(Made(tree[s.target].action, disk.files, disk.clock + 1), disk.clock + 1) else disk;
      && Untouched(tree, start, log + [s], next)
      && (forall x :: x != s.target ==> Same(disk.files, next.files, x))
      && (s.acted ==> s.target in tree && tree[s.target].action.Make?)
  {
    FinishedMore(log, s);
    if s.acted {
      assert tree[s.target].action.Make?;
      OnlyOneMade(tree, disk.files, disk.clock + 1, s.target);
      var next := Made(tree[s.target].action, disk.files, disk.clock + 1);
      forall x
        ensures x != s.target ==>
                  Same(disk.files, next, x) && (Same(start.files, disk.files, x) ==> Same(start.files, next, x))
      {
      }
    }
  }

  lemma {:induction false} BuildTouches(tree: Tree, start: Disk, log: seq<Step>)
    requires OneOutputEach(tree) && Timely(start) && Ordered(tree, log) && Justified(tree, start, log)
    ensures Untouched(tree, start, log, Replay(tree, start, log))
  {
    hide Ordered, Justified, JustifiedStep, Untouched, OneOutputEach, Timely, Finished, Made;
    if log == [] {
      NothingTouched(tree, start);
    } else {
      OneLess(tree, start, log);
      var prior := log[..|log| - 1];
      var s := log[|log| - 1];
      assert log == prior + [s];
      BuildTouches(tree, start, prior);
      StepTouches(tree, start, prior, Replay(tree, start, prior), s);
    }
  }

  lemma NothingTouched(tree: Tree, start: Disk)
    requires Timely(start)
    ensures Untouched(tree, start, [], start)
  {
  }

  /** Whether a target is fresh depends on nothing but the target and its dependencies. */
  lemma FreshDepends(tree: Tree, a: Files, b: Files, t: Target)
    requires Same(a, b, t) && t in tree && forall d :: d in tree[t].deps ==> Same(a, b, d)
    ensures Fresh(tree, a, t) <==> Fresh(tree, b, t)
    ensures Stale(tree, a, t) <==> Stale(tree, b, t)
  {
    SameContents(a, b, tree[t].deps);
    assert forall d :: d in tree[t].deps ==> Time(a, d) == Time(b, d);
  }

  // ------------------------------------------------------ exactly what is run

  /** Something the target leads to was out of date. */
  ghost predicate Outdated(tree: Tree, files: Files, t: Target) {
    exists x :: Reaches(tree, t, x) && Stale(tree, files, x)
  }

  lemma OutdatedBy(tree: Tree, files: Files, t: Target, x: Target)
    requires Reaches(tree, t, x) && Stale(tree, files, x)
    ensures Outdated(tree, files, t)
  {
  }

  /** A target is outdated by itself or through a dependency. */
  lemma OutdatedStep(tree: Tree, files: Files, t: Target)
    ensures Outdated(tree, files, t) <==>
              Stale(tree, files, t) || exists d :: Edge(tree, t, d) && Outdated(tree, files, d)
  {
    hide Stale, Reaches;
    ReachesSelf(tree, t);
    if Outdated(tree, files, t) {
      var x :| Reaches(tree, t, x) && Stale(tree, files, x);
      if x != t {
        var d := ReachesThrough(tree, t, x);
        OutdatedBy(tree, files, d, x);
      }
    }
    forall d | Edge(tree, t, d) && Outdated(tree, files, d)
      ensures Outdated(tree, files, t)
    {
      var x :| Reaches(tree, d, x) && Stale(tree, files, x);
      ReachesBefore(tree, t, d, x);
    }
  }

  lemma ReachesThrough(tree: Tree, a: Target, c: Target) returns (b: Target)
    requires Reaches(tree, a, c) && a != c
    ensures Edge(tree, a, b) && Reaches(tree, b, c)
  {
    var p :| IsPath(tree, p) && p[0] == a && p[|p| - 1] == c;
    var q := p[1..];
    b := q[0];
    assert Edge(tree, p[0], p[1]);
    forall k | 0 <= k < |q| - 1
      ensures Edge(tree, q[k], q[k + 1])
    {
      assert Edge(tree, p[k + 1], p[k + 2]);
    }
    assert IsPath(tree, q);
  }

  /** The action of the target was run. */
  ghost predicate Ran(log: seq<Step>, t: Target) {
    Step(t, true) in log
  }

  /** The targets whose action was run are newer than anything was and fresh; the others are
      as they were. */
  ghost predicate Marked(tree: Tree, start: Disk, log: seq<Step>, files: Files) {
    forall t ::
      if Ran(log, t) then t in Finished(log) && t in files && files[t].mtime > start.clock && Fresh(tree, files, t)
      else Same(start.files, files, t)
  }

  lemma StepMarks(tree: Tree, start: Disk, log: seq<Step>, disk: Disk, s: Step)
    requires OneOutputEach(tree) && Ordered(tree, log) && Untouched(tree, start, log, disk)
             && JustifiedStep(tree, disk, s)
    requires s.target in tree && s.target !in Finished(log)
    requires forall d :: d in tree[s.target].deps ==> d in Finished(log)
    requires Marked(tree, start, log, disk.files)
    ensures var next := if s.acted then Made(tree[s.target].action, disk.files, disk.clock + 1) else disk.files;
      Marked(tree, start, log + [s], next)
  {
    hide Ordered, OneOutputEach, JustifiedStep, Finished, Fresh, Same, Made;
    FinishedMore(log, s);
    StepTouches(tree, start, log, disk, s);
    RanMore(log, s);
    if s.acted {
      var next := Made(tree[s.target].action, disk.files, disk.clock + 1);
      OnlyOneMade(tree, disk.files, disk.clock + 1, s.target);
      forall x
        ensures Ran(log, x) || x == s.target ==> Fresh(tree, next, x)
      {
        if Ran(log, x) || x == s.target {
          FreshAfterwards(tree, log, disk.files, next, s.target, x);
        }
      }
      forall x
        ensures x != s.target ==> (x in next <==> x in disk.files) && (x in next ==> next[x] == disk.files[x])
        ensures x != s.target && Same(start.files, disk.files, x) ==> Same(start.files, next, x)
      {
        SameFile(start.files, disk.files, next, x);
      }
    }
  }

  lemma SameFile(a: Files, b: Files, c: Files, x: Target)
    ensures Same(b, c, x) ==> (x in b <==> x in c) && (x in b ==> b[x] == c[x]) && (Same(a, b, x) ==> Same(a, c, x))
  {
  }

  lemma RanMore(log: seq<Step>, s: Step)
    ensures forall t :: Ran(log + [s], t) <==> Ran(log, t) || s == Step(t, true)
  {
    assert forall x :: x in log + [s] <==> x in log || x == s;
  }

  lemma {:induction false} BuildMarks(tree: Tree, start: Disk, log: seq<Step>)
    requires OneOutputEach(tree) && Timely(start) && Ordered(tree, log) && Justified(tree, start, log)
    ensures Marked(tree, start, log, Replay(tree, start, log).files)
  {
    hide Ordered, Justified, JustifiedStep, OneOutputEach, Timely, Finished, Made, Fresh, Untouched;
    if log != [] {
      OneLess(tree, start, log);
      var prior, s := log[..|log| - 1], log[|log| - 1];
      assert log == prior + [s];
      BuildMarks(tree, start, prior);
      BuildTouches(tree, start, prior);
      StepMarks(tree, start, prior, Replay(tree, start, prior), s);
    }
  }

  /** When its turn comes, a target is out of date exactly if something it leads to was so
      at the start. */
  lemma TurnExactly(tree: Tree, start: Disk, log: seq<Step>, files: Files, t: Target)
    requires Timely(start) && Marked(tree, start, log, files)
    requires t in tree && t !in Finished(log)
    requires forall d :: d in tree[t].deps ==> d in Finished(log) && (Ran(log, d) <==> Outdated(tree, start.files, d))
    ensures Stale(tree, files, t) <==> Outdated(tree, start.files, t)
  {
    hide Finished, Outdated, Fresh, Ran;
    OutdatedStep(tree, start.files, t);
    assert !Ran(log, t) && Same(start.files, files, t);
    forall d | d in tree[t].deps
      ensures Time(files, t) < Time(files, d) <==>
                Time(start.files, t) < Time(start.files, d) || Outdated(tree, start.files, d)
    {
      assert Edge(tree, t, d);
      assert if Ran(log, d) then Time(files, d) > start.clock else Same(start.files, files, d);
    }
  }

  /** An incremental build runs the action of a target exactly if the target, or something it
      leads to, was out of date at the start; it leaves every other file alone. */
  lemma {:induction false} RanExactly(tree: Tree, start: Disk, log: seq<Step>, t: Target)
    requires OneOutputEach(tree) && Timely(start) && Ordered(tree, log) && Justified(tree, start, log)
    requires t in Finished(log)
    ensures Ran(log, t) <==> Outdated(tree, start.files, t)
    ensures Same(start.files, Replay(tree, start, log).files, t) <==> !Outdated(tree, start.files, t)
  {
    hide Ordered, Justified, JustifiedStep, OneOutputEach, Finished, Made, Fresh, Outdated, Replay;
    BuildMarks(tree, start, log);
    if log == [] {
      FinishedNothing();
    } else {
      OneLess(tree, start, log);
      var prior, s := log[..|log| - 1], log[|log| - 1];
      var before := Replay(tree, start, prior);
      assert log == prior + [s];
      BuildMarks(tree, start, prior);
      RanMore(prior, s);
      if t == s.target {
        forall d | d in tree[t].deps
          ensures Ran(prior, d) <==> Outdated(tree, start.files, d)
        {
          RanExactly(tree, start, prior, d);
        }
        TurnExactly(tree, start, prior, before.files, t);
        TurnTaken(tree, before, s);
      } else {
        RanExactly(tree, start, prior, t);
      }
      NewIsNotSame(start, Replay(tree, start, log).files, t);
    }
  }

  lemma TurnTaken(tree: Tree, disk: Disk, s: Step)
    requires JustifiedStep(tree, disk, s)
    ensures s.acted <==> Stale(tree, disk.files, s.target)
  {
  }

  lemma NewIsNotSame(start: Disk, files: Files, t: Target)
    requires Timely(start)
    ensures t in files && files[t].mtime > start.clock ==> !Same(start.files, files, t)
  {
  }

  /** A finished target is fresh in the end exactly if something it leads to was out of date
      at the start or it was fresh already: with equal times a change goes unnoticed. */
  lemma FreshExactly(tree: Tree, start: Disk, log: seq<Step>, t: Target)
    requires OneOutputEach(tree) && Timely(start) && Ordered(tree, log) && Justified(tree, start, log)
    requires t in Finished(log)
    ensures Fresh(tree, Replay(tree, start, log).files, t) <==>
            Outdated(tree, start.files, t) || Fresh(tree, start.files, t)
  {
    hide Ordered, Justified, OneOutputEach, Timely, Finished, Made, Fresh, Outdated, Replay;
    BuildMarks(tree, start, log);
    RanExactly(tree, start, log, t);
    var i := Turn(tree, log, t);
    if !Outdated(tree, start.files, t) {
      forall d | d in tree[t].deps
        ensures Same(start.files, Replay(tree, start, log).files, d)
      {
        assert Edge(tree, t, d);
        OutdatedStep(tree, start.files, t);
        TurnBefore(tree, log, i, d);
        RanExactly(tree, start, log, d);
      }
      FreshDepends(tree, start.files, Replay(tree, start, log).files, t);
    }
  }

  lemma Turn(tree: Tree, log: seq<Step>, t: Target) returns (i: nat)
    requires Ordered(tree, log) && t in Finished(log)
    ensures i < |log| && log[i].target == t && t in tree
  {
    i :| 0 <= i < |log| && log[i].target == t;
  }

  lemma TurnBefore(tree: Tree, log: seq<Step>, i: nat, d: Target)
    requires Ordered(tree, log) && i < |log| && log[i].target in tree && d in tree[log[i].target].deps
    ensures d in Finished(log)
  {
    assert DoneBefore(log, i, d);
  }

  /** A source that was changed within the same clock tick as the target was made: nothing is
      run, and the target keeps what it had been made from before. */
  lemma EqualTimesCounterexample() returns (tree: Tree, start: Disk, log: seq<Step>, t: Target)
    ensures OneOutputEach(tree) && Timely(start) && Ordered(tree, log) && Justified(tree, start, log)
    ensures t in Finished(log) && t in tree
    ensures forall d :: d in tree[t].deps ==> Time(start.files, d) == Time(start.files, t)
    ensures !Fresh(tree, Replay(tree, start, log).files, t)
  {
    var copy := Make(["a"], ["b"], (contents: seq<string>, o: Target) => if contents == [] then "" else contents[0]);
    tree := map["a" := Node([], Noop), "b" := Node(["a"], copy)];
    start := Disk(map["a" := File("new", 1), "b" := File("old", 1)], 1);
    t := "b";
    log := [Step("a", false), Step("b", false)];
    NothingRun(tree, start, log[0], log[1]);
    assert Contents(start.files, ["a"]) == ["new"];
  }

  /** Two steps that run nothing, the second of a target that depends on the first. */
  lemma NothingRun(tree: Tree, start: Disk, first: Step, second: Step)
    requires JustifiedStep(tree, start, first) && JustifiedStep(tree, start, second) && !first.acted && !second.acted
    requires first.target in tree && second.target in tree && first.target != second.target
    requires tree[first.target].deps == [] && tree[second.target].deps == [first.target]
    ensures var log := [first, second];
      Ordered(tree, log) && Justified(tree, start, log) && Replay(tree, start, log) == start
      && second.target in Finished(log)
  {
    hide JustifiedStep;
    FinishedNothing();
    assert [first] == [] + [first] && [first, second] == [first] + [second];
    JustifiedNothing(tree, start);
    JustifiedMore(tree, start, [], first);
    ReplayMore(tree, start, [], first);
    JustifiedMore(tree, start, [first], second);
    ReplayMore(tree, start, [first], second);
    FinishedMore([], first);
    FinishedMore([first], second);
    OrderedMore(tree, [], first);
    OrderedMore(tree, [first], second);
  }

  lemma JustifiedNothing(tree: Tree, start: Disk)
    ensures Justified(tree, start, []) && Ordered(tree, []) && Replay(tree, start, []) == start
  {
  }

  /** With every generated file gone, nothing can be out of date unnoticed. */
  lemma CleanIsHonest(tree: Tree, files: Files)
    requires OneOutputEach(tree) && forall t :: t in tree && tree[t].action.Make? ==> t !in files
    ensures Honest(tree, files)
  {
  }

  /** Whatever the target leads to was out of date or held what it should. */
  ghost predicate Trusted(tree: Tree, files: Files, t: Target) {
    forall x :: Reaches(tree, t, x) ==> Outdated(tree, files, x) || Fresh(tree, files, x)
  }

  lemma TrustedStep(tree: Tree, files: Files, t: Target, d: Target)
    requires Trusted(tree, files, t) && Edge(tree, t, d)
    ensures Trusted(tree, files, d)
  {
    hide Reaches, Outdated, Fresh;
    forall x | Reaches(tree, d, x)
      ensures Outdated(tree, files, x) || Fresh(tree, files, x)
    {
      ReachesBefore(tree, t, d, x);
    }
  }

  /** On honest files every target that a build finishes can be trusted. */
  lemma HonestIsTrusted(tree: Tree, start: Disk, log: seq<Step>, t: Target)
    requires OneOutputEach(tree) && Honest(tree, start.files) && Timely(start)
    requires Ordered(tree, log) && Justified(tree, start, log) && t in Finished(log)
    ensures Trusted(tree, start.files, t)
  {
    hide Ordered, Justified, OneOutputEach, Honest, Timely, Finished, Fresh, Reaches, Outdated;
    BuildProgress(tree, start, log);
    forall x | Reaches(tree, t, x)
      ensures Outdated(tree, start.files, x) || Fresh(tree, start.files, x)
    {
      ReachableIsFinished(tree, log, t, x);
      FreshExactly(tree, start, log, x);
    }
  }

  /** An incremental build and a build from nothing but the same sources agree on every target
      that both have finished, if nothing it leads to was out of date unnoticed. */
  lemma {:induction false} IncrementalEqualsClean(tree: Tree, a: Disk, b: Disk, logA: seq<Step>, logB: seq<Step>,
        t: Target)
    requires OneOutputEach(tree) && Trusted(tree, a.files, t) && Timely(a) && Timely(b)
    requires forall x :: x in tree && tree[x].action.Make? ==> x !in b.files
    requires forall x :: x in tree && tree[x].action.Noop? ==> Content(a.files, x) == Content(b.files, x)
    requires Ordered(tree, logA) && Justified(tree, a, logA) && Ordered(tree, logB) && Justified(tree, b, logB)
    requires t in Finished(logA) && t in Finished(logB)
    ensures Content(Replay(tree, a, logA).files, t) == Content(Replay(tree, b, logB).files, t)
  {
    hide Justified, Ordered, Finished, Trusted, Reaches, Timely, OneOutputEach, Replay;
    CleanIsHonest(tree, b.files);
    BuildProgress(tree, b, logB);
    BuildTouches(tree, a, logA);
    var i := Turn(tree, logA, t);
    FreshAgree(tree, a, b, logA, logB, i);
  }

  lemma {:induction false} FreshAgree(tree: Tree, a: Disk, b: Disk, logA: seq<Step>, logB: seq<Step>, i: nat)
    requires OneOutputEach(tree) && Timely(a) && Ordered(tree, logA) && Justified(tree, a, logA) && Ordered(tree, logB)
    requires Untouched(tree, a, logA, Replay(tree, a, logA)) && Progress(tree, b, logB, Replay(tree, b, logB))
    requires forall x :: x in tree && tree[x].action.Noop? ==> Content(a.files, x) == Content(b.files, x)
    requires i < |logA| && logA[i].target in Finished(logA) && logA[i].target in Finished(logB)
    requires Trusted(tree, a.files, logA[i].target)
    ensures Content(Replay(tree, a, logA).files, logA[i].target) == Content(Replay(tree, b, logB).files, logA[i].target)
    decreases i
  {
    hide Justified, Trusted, Reaches, Timely, Replay, Outdated, Finished, Ordered, Fresh, OneOutputEach;
    var t := logA[i].target;
    var x, y := Replay(tree, a, logA).files, Replay(tree, b, logB).files;
    var j := Turn(tree, logB, t);
    if tree[t].action.Make? {
      forall d | d in tree[t].deps
        ensures Content(x, d) == Content(y, d)
      {
        var k := TurnOf(tree, logA, i, d);
        TurnBefore(tree, logA, i, d);
        TurnBefore(tree, logB, j, d);
        assert Edge(tree, t, d);
        TrustedStep(tree, a.files, t, d);
        FreshAgree(tree, a, b, logA, logB, k);
      }
      FreshExactly(tree, a, logA, t);
      TrustedSelf(tree, a.files, t);
      BothFresh(tree, x, y, t);
    } else {
      assert Same(a.files, x, t) && Same(b.files, y, t);
    }
  }

  lemma TrustedSelf(tree: Tree, files: Files, t: Target)
    requires Trusted(tree, files, t)
    ensures Outdated(tree, files, t) || Fresh(tree, files, t)
  {
    ReachesSelf(tree, t);
  }

  lemma BothFresh(tree: Tree, x: Files, y: Files, t: Target)
    requires t in tree && tree[t].action.Make? && Fresh(tree, x, t) && Fresh(tree, y, t)
    requires forall d :: d in tree[t].deps ==> Content(x, d) == Content(y, d)
    ensures Content(x, t) == Content(y, t)
  {
    SameContents(x, y, tree[t].deps);
  }

  lemma TurnOf(tree: Tree, log: seq<Step>, i: nat, d: Target) returns (k: nat)
    requires Ordered(tree, log) && i < |log| && log[i].target in tree && d in tree[log[i].target].deps
    ensures k < i && log[k].target == d
  {
    assert DoneBefore(log, i, d);
    k :| 0 <= k < i && k < |log| && log[k].target == d;
  }

  // --------------------------------------------------------- the search itself

  datatype Outcome = Built | Circular | MissingFile(dependency: Target) | UnknownTarget

  /** What the search knows between two steps: `trail` is the path of targets that are
      waiting for a dependency, and every other target it has met is finished. */
  ghost predicate Searching(tree: Tree, already: set<Target>, stack: set<Target>, trail: seq<Target>, log: seq<Step>) {
    && Ordered(tree, log)
    && already == stack + Finished(log) && stack !! Finished(log) && already <= tree.Keys
    && stack == (set t | t in trail) && Distinct(trail)
    && (forall k :: 0 <= k < |trail| - 1 ==> Edge(tree, trail[k], trail[k + 1]))
  }

  /** The target can be asked for now. */
  ghost predicate Next(tree: Tree, trail: seq<Target>, t: Target) {
    trail == [] || Edge(tree, trail[|trail| - 1], t)
  }

  lemma Known(tree: Tree, already: set<Target>, stack: set<Target>, trail: seq<Target>, log: seq<Step>)
    requires Searching(tree, already, stack, trail, log)
    ensures Ordered(tree, log) && already == stack + Finished(log) && stack !! Finished(log) && already <= tree.Keys
    ensures forall t :: t in stack <==> t in trail
    ensures forall k :: 0 <= k < |trail| - 1 ==> Edge(tree, trail[k], trail[k + 1])
  {
  }

  lemma Extend(tree: Tree, trail: seq<Target>, t: Target)
    requires forall k :: 0 <= k < |trail| - 1 ==> Edge(tree, trail[k], trail[k + 1])
    requires Next(tree, trail, t)
    ensures IsPath(tree, trail + [t])
  {
  }

  lemma StackIsLasso(tree: Tree, trail: seq<Target>, t: Target)
    requires IsPath(tree, trail + [t]) && t in trail
    ensures CycleFrom(tree, (trail + [t])[0])
  {
    var i: nat :| i < |trail| && trail[i] == t;
    var p := trail + [t];
    assert p[i] == t;
    assert Lasso(tree, p, i);
  }

  lemma Enter(tree: Tree, already: set<Target>, stack: set<Target>, trail: seq<Target>, log: seq<Step>, t: Target)
    requires Searching(tree, already, stack, trail, log) && Next(tree, trail, t) && t in tree && t !in already
    ensures Searching(tree, already + {t}, stack + {t}, trail + [t], log)
  {
    Extend(tree, trail, t);
    var more := trail + [t];
    assert forall x :: x in more <==> x in trail || x == t;
    forall k | 0 <= k < |more| - 1
      ensures Edge(tree, more[k], more[k + 1])
    {
    }
  }

  lemma Leave(tree: Tree, start: Disk, already: set<Target>, stack: set<Target>, trail: seq<Target>, log: seq<Step>,
        s: Step)
    requires Searching(tree, already, stack + {s.target}, trail + [s.target], log) && s.target !in stack
    requires forall d :: d in tree[s.target].deps ==> d in Finished(log)
    requires Justified(tree, start, log) && JustifiedStep(tree, Replay(tree, start, log), s)
    ensures Searching(tree, already, stack, trail, log + [s]) && Justified(tree, start, log + [s])
    ensures s.target in Finished(log + [s]) && Finished(log) <= Finished(log + [s])
  {
    var more := trail + [s.target];
    assert more[|trail|] == s.target;
    assert s.target in more;
    OneMore(tree, start, log, s);
    forall x
      ensures x in stack <==> x in trail
    {
      if x in trail {
        var i :| 0 <= i < |trail| && trail[i] == x;
        assert more[i] == x && more[i] != more[|trail|];
      }
      assert x in more <==> x in trail || x == s.target;
    }
    forall k | 0 <= k < |trail| - 1
      ensures Edge(tree, trail[k], trail[k + 1])
    {
      assert Edge(tree, more[k], more[k + 1]);
    }
    forall i, j | 0 <= i < j < |trail|
      ensures trail[i] != trail[j]
    {
      assert more[i] != more[j];
    }
  }

  /** Comparing with the newest dependency decides whether the target is stale. */
  lemma Judged(tree: Tree, disk: Disk, t: Target, newest: int)
    requires t in tree && newest >= 0
    requires forall d :: d in tree[t].deps ==> d in disk.files && Time(disk.files, d) <= newest
    requires newest == 0 || exists d :: d in tree[t].deps && Time(disk.files, d) == newest
    ensures JustifiedStep(tree, disk, Step(t, Time(disk.files, t) < newest))
  {
  }

  class Builder {
    const tree: Tree
    var files: Files
    var clock: int
    var already: set<Target>
    var stack: set<Target>
    ghost var trail: seq<Target>
    ghost var log: seq<Step>

    constructor (tree: Tree, files: Files, clock: int)
      requires Closed(tree)
      ensures this.tree == tree && this.files == files && this.clock == clock
    {
      this.tree, this.files, this.clock := tree, files, clock;
      already, stack, trail, log := {}, {}, [], [];
    }

    ghost predicate Ready(start: Disk)
      reads this
    {
      Searching(tree, already, stack, trail, log) && Justified(tree, start, log)
      && Disk(files, clock) == Replay(tree, start, log)
    }

    /** execute_target: depth-first, and only what is out of date. */
    method ExecuteTarget(target: Target, ghost start: Disk) returns (r: Outcome)
      requires Closed(tree) && Ready(start) && Next(tree, trail, target)
      modifies this
      ensures old(log) <= log && Ordered(tree, log) && Justified(tree, start, log)
      ensures Disk(files, clock) == Replay(tree, start, log)
      ensures forall t :: t in Finished(log) && t !in Finished(old(log)) ==> Reaches(tree, target, t)
      ensures r.Built? ==> Ready(start) && stack == old(stack) && trail == old(trail) && old(already) <= already
                           && target in Finished(log)
      ensures r.Circular? ==> CycleFrom(tree, (old(trail) + [target])[0])
      ensures r.UnknownTarget? <==> target !in tree
      ensures r.MissingFile? ==> r.dependency !in files && exists t :: t in tree && Edge(tree, t, r.dependency)
                                                              && forall d :: d in tree[t].deps ==> d in Finished(log)
      decreases tree.Keys - already
    {
      hide Ordered, Justified, Searching, Finished, Replay, Reaches, CycleFrom, IsPath;
      Known(tree, already, stack, trail, log);
      if target !in tree {
        return UnknownTarget;
      }
      ReachesSelf(tree, target);
      Extend(tree, trail, target);
      if target in stack {
        StackIsLasso(tree, trail, target);
        return Circular;
      }
      if target in already {
        return Built;
      }
      Enter(tree, already, stack, trail, log, target);
      already, stack, trail := already + {target}, stack + {target}, trail + [target];
      var deps := tree[target].deps;
      r := Built;
      for i := 0 to |deps|
        invariant r.Built? && Ready(start) && old(log) <= log
        invariant stack == old(stack) + {target} && trail == old(trail) + [target] && old(already) + {target} <= already
        invariant forall d :: d in deps[..i] ==> d in Finished(log)
        invariant forall t :: t in Finished(log) && t !in Finished(old(log)) ==> Reaches(tree, target, t)
      {
        assert Edge(tree, target, deps[i]);
        ghost var before := log;
        r := ExecuteTarget(deps[i], start);
        forall t | t in Finished(log) && t !in Finished(old(log))
          ensures Reaches(tree, target, t)
        {
          if t !in Finished(before) {
            ReachesBefore(tree, target, deps[i], t);
          }
        }
        if !r.Built? {
          return;
        }
        FinishedPrefix(before, log);
        assert deps[..i + 1] == deps[..i] + [deps[i]];
      }
      stack := stack - {target};
      assert deps[..|deps|] == deps;
      Known(tree, already, stack + {target}, trail, log);
      r := Refresh(target, start);
    }

    /** The latest modification time of the files, or the first of them that is missing. */
    method Newest(deps: seq<Target>) returns (missing: Option<Target>, newest: int)
      ensures missing.Some? ==> missing.value in deps && missing.value !in files
      ensures missing.None? ==> newest >= 0 && forall d :: d in deps ==> d in files && Time(files, d) <= newest
      ensures missing.None? ==> newest == 0 || exists d :: d in deps && Time(files, d) == newest
    {
      newest := 0;
      for i := 0 to |deps|
        invariant newest >= 0
        invariant forall d :: d in deps[..i] ==> d in files && Time(files, d) <= newest
        invariant newest == 0 || exists d :: d in deps[..i] && Time(files, d) == newest
      {
        if deps[i] !in files {
          return Some(deps[i]), newest;
        }
        assert forall d :: d in deps[..i + 1] <==> d in deps[..i] || d == deps[i];
        newest := if files[deps[i]].mtime > newest then files[deps[i]].mtime else newest;
      }
      assert deps[..|deps|] == deps;
      missing := None;
    }

    /** The second half of execute_target: compare the times and run the action. */
    method Refresh(target: Target, ghost start: Disk) returns (r: Outcome)
      requires target in tree && target !in stack && target in already && trail != [] && trail[|trail| - 1] == target
      requires Searching(tree, already, stack + {target}, trail, log) && Justified(tree, start, log)
      requires Disk(files, clock) == Replay(tree, start, log)
      requires forall d :: d in tree[target].deps ==> d in Finished(log)
      modifies this`files, this`clock, this`trail, this`log
      ensures r.Built? || (r.MissingFile? && Edge(tree, target, r.dependency) && r.dependency !in files)
      ensures r.Built? ==> Ready(start) && trail == old(trail)[..|old(trail)| - 1]
      ensures Ordered(tree, log) && Justified(tree, start, log) && old(log) <= log
      ensures r.Built? ==> Finished(log) == Finished(old(log)) + {target}
      ensures r.MissingFile? ==> unchanged(this)
    {
      hide Ordered, Justified, JustifiedStep, Searching, Finished, Replay, Made, Time;
      Known(tree, already, stack + {target}, trail, log);
      var missing, newest := Newest(tree[target].deps);
      if missing.Some? {
        return MissingFile(missing.value);
      }
      var made := Time(files, target);
      ghost var s := Step(target, made < newest);
      Judged(tree, Disk(files, clock), target, newest);
      assert trail == trail[..|trail| - 1] + [target];
      Leave(tree, start, already, stack, trail[..|trail| - 1], log, s);
      FinishedMore(log, s);
      ReplayMore(tree, start, log, s);
      Known(tree, already, stack, trail[..|trail| - 1], log + [s]);
      trail, log := trail[..|trail| - 1], log + [s];
      if made >= newest {
        return Built;
      }
      files, clock := Made(tree[target].action, files, clock + 1), clock + 1;
      return Built;
    }

    /** execute_multiple_targets: one set of visited targets, a new stack for every target. */
    method ExecuteMultipleTargets(targets: seq<Target>) returns (r: Outcome)
      requires Closed(tree)
      modifies this
      ensures Ordered(tree, log) && Justified(tree, old(Disk(files, clock)), log)
      ensures Disk(files, clock) == Replay(tree, old(Disk(files, clock)), log)
      ensures forall t :: t in Finished(log) ==> Wanted(tree, targets, t)
      ensures r.Built? ==> forall t :: Wanted(tree, targets, t) ==> t in Finished(log)
      ensures r.Built? ==> forall g :: g in targets ==> g in tree && !CycleFrom(tree, g)
      ensures r.Circular? ==> exists g :: g in targets && CycleFrom(tree, g)
      ensures r.UnknownTarget? ==> exists g :: g in targets && g !in tree
      ensures Sourced(tree, old(files)) && Timely(old(Disk(files, clock))) ==> !r.MissingFile?
      ensures Sourced(tree, old(files)) && Timely(old(Disk(files, clock)))
              && (forall g :: g in targets ==> g in tree) ==>
                (r.Circular? <==> exists g :: g in targets && CycleFrom(tree, g))
      ensures r.Built? && OneOutputEach(tree) && Honest(tree, old(files)) && Timely(old(Disk(files, clock))) ==>
                forall t :: Wanted(tree, targets, t) ==> Fresh(tree, files, t)
      ensures r.Built? && OneOutputEach(tree) && Timely(old(Disk(files, clock))) ==>
                forall t :: Wanted(tree, targets, t) ==> Exact(tree, old(files), log, files, t)
    {
      hide Exact, Ordered, Justified, Searching, Finished, Replay, Reaches, CycleFrom, IsPath, Honest, Fresh, Timely,
          Sourced, Wanted;
      ghost var start := Disk(files, clock);
      already, log, r := {}, [], Built;
      StartSearch(tree, start);
      for i := 0 to |targets|
        invariant r.Built? && already == Finished(log)
        invariant Searching(tree, already, {}, [], log) && Justified(tree, start, log)
        invariant Disk(files, clock) == Replay(tree, start, log)
        invariant forall g :: g in targets[..i] ==> g in Finished(log)
        invariant forall t :: t in Finished(log) ==> Wanted(tree, targets, t)
      {
        stack, trail := {}, [];
        ghost var before := log;
        r := ExecuteTarget(targets[i], start);
        forall t | t in Finished(log)
          ensures Wanted(tree, targets, t)
        {
          if t !in Finished(before) {
            WantedBy(tree, targets, i, t);
          }
        }
        if !r.Built? {
          if r.MissingFile? && Sourced(tree, start.files) && Timely(start) {
            FinishedIsOnDisk(tree, start, log);
          }
          return;
        }
        Known(tree, already, stack, trail, log);
        FinishedPrefix(before, log);
        assert targets[..i + 1] == targets[..i] + [targets[i]];
      }
      assert targets[..|targets|] == targets;
      Known(tree, already, {}, [], log);
      AllFinished(tree, start, log, targets);
    }
  }

  /** The target or something that depends on it was asked for. */
  ghost predicate Wanted(tree: Tree, targets: seq<Target>, t: Target) {
    exists g :: g in targets && Reaches(tree, g, t)
  }

  lemma WantedBy(tree: Tree, targets: seq<Target>, i: nat, t: Target)
    requires i < |targets| && Reaches(tree, targets[i], t)
    ensures Wanted(tree, targets, t)
  {
  }

  lemma StartSearch(tree: Tree, start: Disk)
    ensures Searching(tree, {}, {}, [], []) && Justified(tree, start, []) && Replay(tree, start, []) == start
    ensures Finished([]) == {}
  {
  }

  /** Run if and only if outdated, fresh in the end if and only if run or fresh before. */
  ghost predicate Exact(tree: Tree, start: Files, log: seq<Step>, end: Files, t: Target) {
    && (Ran(log, t) <==> Outdated(tree, start, t))
    && (Same(start, end, t) <==> !Outdated(tree, start, t))
    && (Fresh(tree, end, t) <==> Outdated(tree, start, t) || Fresh(tree, start, t))
  }

  /** When every requested target is finished, so is everything they need, and nothing is
      out of date. */
  lemma AllFinished(tree: Tree, start: Disk, log: seq<Step>, targets: seq<Target>)
    requires Ordered(tree, log) && Justified(tree, start, log)
    requires forall g :: g in targets ==> g in Finished(log)
    ensures forall t :: Wanted(tree, targets, t) ==> t in Finished(log)
    ensures forall g :: g in targets ==> g in tree && !CycleFrom(tree, g)
    ensures OneOutputEach(tree) && Honest(tree, start.files) && Timely(start) ==>
              forall t :: Wanted(tree, targets, t) ==> Fresh(tree, Replay(tree, start, log).files, t)
    ensures OneOutputEach(tree) && Timely(start) ==>
              forall t :: Wanted(tree, targets, t) ==> Exact(tree, start.files, log, Replay(tree, start, log).files, t)
  {
    hide Justified, Replay, Fresh, OneOutputEach, Honest, Timely, CycleFrom, Outdated, Same;
    forall t | Wanted(tree, targets, t)
      ensures t in Finished(log)
    {
      var g :| g in targets && Reaches(tree, g, t);
      ReachableIsFinished(tree, log, g, t);
    }
    forall g | g in targets
      ensures g in tree && !CycleFrom(tree, g)
    {
      FinishedIsAcyclic(tree, log, g);
    }
    if OneOutputEach(tree) && Timely(start) {
      if Honest(tree, start.files) {
        BuildProgress(tree, start, log);
      }
      forall t | Wanted(tree, targets, t)
        ensures Exact(tree, start.files, log, Replay(tree, start, log).files, t)
      {
        RanExactly(tree, start, log, t);
        FreshExactly(tree, start, log, t);
      }
    }
  }
}
