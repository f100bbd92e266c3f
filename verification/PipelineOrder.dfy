/** `PipelineSpec::validate`: the rules of a pipeline, and the cycle check that says
    whether its tasks can be ordered. */
module PipelineOrder {
  import opened Text

  datatype TaskKind = Sql | Notebook | OtherKind

  /** `notebookProblem` is the verdict of the notebook rules, which are not modelled. */
  datatype Task = Task(name: string, kind: TaskKind, sql: Option<string>, notebookProblem: Option<string>,
                       dependsOn: seq<string>)

  datatype PipelineSpec = PipelineSpec(tasks: seq<Task>, ownerGroup: Option<string>)

  datatype PipelineError =
    | BadOwner | NameTwice(name: string) | NeedsSql(name: string) | NotebookRule(text: string)
    | NotAnotherTask(task: string, dep: string) | Circle

  predicate Letter(c: char) { 'a' <= c <= 'z' || 'A' <= c <= 'Z' || '0' <= c <= '9' }

  /** `group_name_ok`. */
  predicate GroupNameOk(group: string) {
    1 <= |group| <= 64 && Letter(group[0]) && forall c | c in group :: Letter(c) || c == '.' || c == '_' || c == '-'
  }

  // ---------- what the rules say ----------

  predicate UniqueNames(tasks: seq<Task>) {
    forall i, j :: 0 <= i < j < |tasks| ==> tasks[i].name != tasks[j].name
  }

  function Names(tasks: seq<Task>): set<string> {
    set t | t in tasks :: t.name
  }

  predicate IsTask(tasks: seq<Task>, name: string) {
    exists t | t in tasks :: t.name == name
  }

  /** The rule the `i`-th task breaks, given the tasks before it. */
  function TaskError(tasks: seq<Task>, i: nat): Option<PipelineError>
    requires i < |tasks|
  {
    var t := tasks[i];
    if IsTask(tasks[..i], t.name) then Some(NameTwice(t.name))
    else if t.kind == Sql && t.sql == None then Some(NeedsSql(t.name))
    else if t.kind == Notebook && t.notebookProblem.Some? then Some(NotebookRule(t.notebookProblem.value))
    else None
  }

  /** `dep` is another task of the pipeline. */
  predicate AnotherTask(tasks: seq<Task>, t: Task, dep: string) {
    dep != t.name && IsTask(tasks, dep)
  }

  predicate KnownDependencies(tasks: seq<Task>) {
    forall t, d :: t in tasks && d in t.dependsOn ==> d != t.name && exists u | u in tasks :: u.name == d
  }

  predicate NoRepeat(s: seq<string>) {
    forall i, j :: 0 <= i < j < |s| ==> s[i] != s[j]
  }

  predicate NoDependencyTwice(tasks: seq<Task>) {
    forall t :: t in tasks ==> NoRepeat(t.dependsOn)
  }

  /** An edge of the graph: a task of name `a` names `b` in its `dependsOn`. */
  predicate Depends(tasks: seq<Task>, a: string, b: string) {
    exists t | t in tasks :: t.name == a && b in t.dependsOn
  }

  ghost predicate Walk(tasks: seq<Task>, p: seq<string>) {
    forall i, j :: 0 <= i < j < |p| && j == i + 1 ==> Depends(tasks, p[i], p[j])
  }

  /** A closed walk of at least one edge. */
  ghost predicate Cycle(tasks: seq<Task>, p: seq<string>) {
    |p| > 1 && p[0] == p[|p| - 1] && Walk(tasks, p)
  }

  ghost predicate Acyclic(tasks: seq<Task>) {
    forall p :: !Cycle(tasks, p)
  }

  /** Every task once, each after everything it depends on. */
  ghost predicate RunOrder(tasks: seq<Task>, order: seq<string>) {
    && NoRepeat(order)
    && (forall n :: n in order <==> n in Names(tasks))
    && (forall k, d :: 0 <= k < |order| && Depends(tasks, order[k], d) ==> d in order[..k])
  }

  // ---------- counting ----------

  function Elements(s: seq<string>): set<string> {
    set x | x in s
  }

  lemma {:induction false} ElementsSize(s: seq<string>)
    ensures |Elements(s)| <= |s|
    ensures |Elements(s)| == |s| <==> NoRepeat(s)
  {
    if s != [] {
      var rest := s[1..];
      ElementsSize(rest);
      if s[0] in rest {
        assert Elements(s) == Elements(rest);
        var k :| 0 <= k < |rest| && rest[k] == s[0];
        assert s[0] == s[k + 1];
      } else {
        assert Elements(s) == {s[0]} + Elements(rest);
        if NoRepeat(rest) {
          forall i, j | 0 <= i < j < |s| ensures s[i] != s[j] {
            assert s[j] == rest[j - 1];
            if i > 0 { assert s[i] == rest[i - 1]; }
          }
        } else {
          var i, j :| 0 <= i < j < |rest| && rest[i] == rest[j];
          assert s[i + 1] == s[j + 1];
        }
      }
    }
  }

  lemma FirstName(tasks: seq<Task>)
    requires UniqueNames(tasks) && tasks != []
    ensures Names(tasks) == {tasks[0].name} + Names(tasks[1..]) && tasks[0].name !in Names(tasks[1..])
  {
    forall t | t in tasks[1..] ensures t in tasks && t.name != tasks[0].name {
      var k :| 0 <= k < |tasks[1..]| && tasks[1..][k] == t;
      assert tasks[k + 1] == t;
    }
    forall n | n in Names(tasks) ensures n == tasks[0].name || n in Names(tasks[1..]) {
      var t :| t in tasks && t.name == n;
      var k :| 0 <= k < |tasks| && tasks[k] == t;
      if k > 0 { assert tasks[1..][k - 1] == t; }
    }
  }

  lemma {:induction false} NamesSize(tasks: seq<Task>)
    requires UniqueNames(tasks)
    ensures |Names(tasks)| == |tasks|
  {
    if tasks != [] {
      var rest := tasks[1..];
      NamesSize(rest);
      FirstName(tasks);
    }
  }

  /** More elements than values: one value comes twice. */
  lemma {:induction false} Pigeonhole(p: seq<string>, s: set<string>)
    requires forall x :: x in p ==> x in s
    requires |p| > |s|
    ensures !NoRepeat(p)
  {
    if NoRepeat(p) {
      ElementsSize(p);
      SubsetSize(Elements(p), s);
    }
  }

  // ---------- orders and cycles ----------

  /** Along a walk the position in a run order falls, so an ordered graph has no cycle. */
  lemma {:induction false} PositionsFall(tasks: seq<Task>, order: seq<string>, p: seq<string>, k: nat)
    requires RunOrder(tasks, order) && Walk(tasks, p) && 0 < k < |p|
    requires p[0] in order
    ensures exists i, j :: 0 <= i < j < |order| && order[i] == p[k] && order[j] == p[0]
  {
    if k == 1 {
      var j :| 0 <= j < |order| && order[j] == p[0];
      assert Depends(tasks, order[j], p[1]);
      var i :| 0 <= i < j && order[..j][i] == p[1];
      assert order[i] == p[k];
    } else {
      PositionsFall(tasks, order, p, k - 1);
      var m, j :| 0 <= m < j < |order| && order[m] == p[k - 1] && order[j] == p[0];
      assert Depends(tasks, order[m], p[k]);
      var i :| 0 <= i < m && order[..m][i] == p[k];
      assert order[i] == p[k];
    }
  }

  lemma OrderedIsAcyclic(tasks: seq<Task>, order: seq<string>)
    requires RunOrder(tasks, order)
    ensures Acyclic(tasks)
  {
    forall p ensures !Cycle(tasks, p) {
      if Cycle(tasks, p) {
        assert Depends(tasks, p[0], p[1]);
        assert p[0] in Names(tasks);
        PositionsFall(tasks, order, p, |p| - 1);
      }
    }
  }

  predicate DependsWithin(tasks: seq<Task>, stuck: set<string>, n: string) {
    exists d | d in stuck :: Depends(tasks, n, d)
  }

  /** Every name in `stuck` depends on another one in `stuck`. */
  ghost predicate Stuck(tasks: seq<Task>, stuck: set<string>) {
    forall n {:trigger DependsWithin(tasks, stuck, n)} :: n in stuck ==> DependsWithin(tasks, stuck, n)
  }

  lemma {:induction false} WalkWithin(tasks: seq<Task>, stuck: set<string>, n: nat) returns (p: seq<string>)
    requires Stuck(tasks, stuck) && stuck != {}
    ensures |p| == n + 1 && Walk(tasks, p) && forall x :: x in p ==> x in stuck
  {
    if n == 0 {
      var x :| x in stuck;
      p := [x];
    } else {
      var q := WalkWithin(tasks, stuck, n - 1);
      assert q[n - 1] in q;
      assert DependsWithin(tasks, stuck, q[n - 1]);
      var d :| d in stuck && Depends(tasks, q[n - 1], d);
      p := q + [d];
    }
  }

  /** A walk long enough to visit a stuck task twice closes a cycle. */
  lemma StuckHasCycle(tasks: seq<Task>, stuck: set<string>)
    requires Stuck(tasks, stuck) && stuck != {}
    ensures !Acyclic(tasks)
  {
    var p := WalkWithin(tasks, stuck, |stuck|);
    Pigeonhole(p, stuck);
    var i, j :| 0 <= i < j < |p| && p[i] == p[j];
    var c := p[i..j + 1];
    forall k, l | 0 <= k < l < |c| && l == k + 1 ensures Depends(tasks, c[k], c[l]) {
      assert Depends(tasks, p[i + k], p[i + l]);
    }
    assert Cycle(tasks, c);
  }

  // ---------- the worklist ----------

  /** The count a task waits for once the tasks in `placed` are done: a dependency named
      twice is counted twice and taken off once. */
  function Left(t: Task, placed: set<string>): int {
    |t.dependsOn| - |Elements(t.dependsOn) * placed|
  }

  lemma LeftStep(t: Task, placed: set<string>, n: string)
    requires n !in placed
    ensures Left(t, placed + {n}) == Left(t, placed) - (if n in t.dependsOn then 1 else 0)
    ensures Left(t, placed) >= 0 && Left(t, placed + {n}) >= 0
  {
    var deps := Elements(t.dependsOn);
    ElementsSize(t.dependsOn);
    SubsetSize(deps * placed, deps);
    SubsetSize(deps * (placed + {n}), deps);
    if n in t.dependsOn {
      assert deps * (placed + {n}) == deps * placed + {n};
    } else {
      assert deps * (placed + {n}) == deps * placed;
    }
  }

  /** A task waits for nothing exactly when it repeats no dependency and all are placed. */
  lemma LeftNone(t: Task, placed: set<string>)
    ensures Left(t, placed) == 0 <==> NoRepeat(t.dependsOn) && Elements(t.dependsOn) <= placed
  {
    var deps := Elements(t.dependsOn);
    ElementsSize(t.dependsOn);
    SubsetSize(deps * placed, deps);
    if Elements(t.dependsOn) <= placed {
      assert deps * placed == deps;
    }
  }

  /** The worklist with the tasks in `placed` popped. For the first `j` tasks the counts
      allow for all of `placed`, for the others only for `before`. */
  ghost predicate Counted(tasks: seq<Task>, waiting: map<string, int>, ready: seq<string>, placed: set<string>,
                          before: set<string>, j: nat) {
    && Shaped(Names(tasks), waiting, ready, placed)
    && (forall i :: 0 <= i < |tasks| && i < j ==> Waits(tasks[i], waiting, ready, placed, placed))
    && (forall i :: j <= i < |tasks| ==> Waits(tasks[i], waiting, ready, placed, before))
  }

  ghost predicate Shaped(names: set<string>, waiting: map<string, int>, ready: seq<string>, placed: set<string>) {
    && waiting.Keys == names && placed <= names
    && NoRepeat(ready) && forall n :: n in ready ==> n in names && n !in placed
  }

  lemma ShapedMore(names: set<string>, waiting: map<string, int>, ready: seq<string>, placed: set<string>, name: string,
                   count: int)
    requires Shaped(names, waiting, ready, placed) && name in names && name !in ready && name !in placed
    ensures Shaped(names, waiting[name := count], ready, placed)
    ensures Shaped(names, waiting[name := count], ready + [name], placed)
  {
  }

  ghost predicate Waits(t: Task, waiting: map<string, int>, ready: seq<string>, placed: set<string>,
                        allowed: set<string>) {
    && t.name in waiting && waiting[t.name] == Left(t, allowed)
    && (t.name in ready || t.name in placed <==> Left(t, allowed) == 0)
  }

  lemma WaitsElsewhere(t: Task, waiting: map<string, int>, ready: seq<string>, placed: set<string>,
                       allowed: set<string>, name: string, count: int, more: seq<string>)
    requires Waits(t, waiting, ready, placed, allowed) && t.name != name
    requires more == [] || more == [name]
    ensures Waits(t, waiting[name := count], ready + more, placed, allowed)
  {
  }

  lemma WaitsHere(t: Task, waiting: map<string, int>, ready: seq<string>, placed: set<string>, before: set<string>,
                  n: string)
    requires n !in before && placed == before + {n} && n in t.dependsOn
    requires Waits(t, waiting, ready, placed, before)
    ensures t.name !in ready && t.name !in placed
    ensures var count := waiting[t.name] - 1;
      Waits(t, waiting[t.name := count], if count == 0 then ready + [t.name] else ready, placed, placed)
  {
    LeftStep(t, before, n);
  }

  lemma OthersWait(tasks: seq<Task>, waiting: map<string, int>, ready: seq<string>, placed: set<string>,
                   before: set<string>, j: nat, count: int, more: seq<string>)
    requires UniqueNames(tasks) && j < |tasks| && Counted(tasks, waiting, ready, placed, before, j)
    requires more == [] || more == [tasks[j].name]
    ensures forall i :: 0 <= i < |tasks| && i < j ==>
      Waits(tasks[i], waiting[tasks[j].name := count], ready + more, placed, placed)
    ensures forall i :: j + 1 <= i < |tasks| ==>
      Waits(tasks[i], waiting[tasks[j].name := count], ready + more, placed, before)
  {
    var name := tasks[j].name;
    forall i | 0 <= i < |tasks| && i < j ensures Waits(tasks[i], waiting[name := count], ready + more, placed, placed) {
      WaitsElsewhere(tasks[i], waiting, ready, placed, placed, name, count, more);
    }
    forall i | j + 1 <= i < |tasks| ensures Waits(tasks[i], waiting[name := count], ready + more, placed, before) {
      WaitsElsewhere(tasks[i], waiting, ready, placed, before, name, count, more);
    }
  }

  /** Taking `n` off the count of the `j`-th task, which depends on it. */
  lemma TakeOff(tasks: seq<Task>, waiting: map<string, int>, ready: seq<string>, placed: set<string>,
                before: set<string>, n: string, j: nat, count: int, more: seq<string>)
    requires UniqueNames(tasks) && n !in before && placed == before + {n} && j < |tasks| && n in tasks[j].dependsOn
    requires Counted(tasks, waiting, ready, placed, before, j)
    requires tasks[j].name in waiting && count == waiting[tasks[j].name] - 1
    requires more == if count == 0 then [tasks[j].name] else []
    ensures Counted(tasks, waiting[tasks[j].name := count], ready + more, placed, before, j + 1)
  {
    WaitsHere(tasks[j], waiting, ready, placed, before, n);
    OthersWait(tasks, waiting, ready, placed, before, j, count, more);
    var name := tasks[j].name;
    NameOf(tasks, j);
    ShapedMore(Names(tasks), waiting, ready, placed, name, count);
    assert ready + [] == ready;
    CountedJoin(tasks, waiting[name := count], ready + more, placed, before, j);
  }

  lemma NameOf(tasks: seq<Task>, j: nat)
    requires j < |tasks|
    ensures tasks[j].name in Names(tasks)
  {
    assert tasks[j] in tasks;
  }

  lemma CountedJoin(tasks: seq<Task>, waiting: map<string, int>, ready: seq<string>, placed: set<string>,
                    before: set<string>, j: nat)
    requires j < |tasks| && Shaped(Names(tasks), waiting, ready, placed)
    requires forall i :: 0 <= i < |tasks| && i < j ==> Waits(tasks[i], waiting, ready, placed, placed)
    requires Waits(tasks[j], waiting, ready, placed, placed)
    requires forall i :: j + 1 <= i < |tasks| ==> Waits(tasks[i], waiting, ready, placed, before)
    ensures Counted(tasks, waiting, ready, placed, before, j + 1)
  {
  }

  lemma PassOver(tasks: seq<Task>, waiting: map<string, int>, ready: seq<string>, placed: set<string>,
                 before: set<string>, n: string, j: nat)
    requires n !in before && placed == before + {n} && j < |tasks| && n !in tasks[j].dependsOn
    requires Counted(tasks, waiting, ready, placed, before, j)
    ensures Counted(tasks, waiting, ready, placed, before, j + 1)
  {
    LeftStep(tasks[j], before, n);
    assert Waits(tasks[j], waiting, ready, placed, before);
  }

  lemma NoUnderflow(tasks: seq<Task>, waiting: map<string, int>, ready: seq<string>, before: set<string>, n: string)
    requires n !in before && Counted(tasks, waiting, ready, before + {n}, before + {n}, |tasks|)
    ensures forall m :: m in waiting ==> waiting[m] >= 0
  {
    forall m | m in waiting ensures waiting[m] >= 0 {
      var t :| t in tasks && t.name == m;
      var i :| 0 <= i < |tasks| && tasks[i] == t;
      assert Waits(tasks[i], waiting, ready, before + {n}, before + {n});
      LeftStep(t, before, n);
    }
  }

  /** The inner loop: what popping `n` does to the tasks that depend on it. No counter
      goes below zero, and no task is pushed twice. */
  method Place(tasks: seq<Task>, waiting: map<string, int>, ready: seq<string>, ghost before: set<string>, n: string)
    returns (waiting': map<string, int>, ready': seq<string>)
    requires UniqueNames(tasks) && n !in before
    requires Counted(tasks, waiting, ready, before + {n}, before, 0)
    ensures Counted(tasks, waiting', ready', before + {n}, before + {n}, |tasks|)
    ensures forall m :: m in waiting ==> m in waiting' && waiting'[m] >= 0
  {
    waiting', ready' := waiting, ready;
    for j := 0 to |tasks|
      invariant Counted(tasks, waiting', ready', before + {n}, before, j)
    {
      if n in tasks[j].dependsOn {
        assert tasks[j] in tasks;
        var count := waiting'[tasks[j].name] - 1;
        var more := if count == 0 then [tasks[j].name] else [];
        TakeOff(tasks, waiting', ready', before + {n}, before, n, j, count, more);
        waiting', ready' := waiting'[tasks[j].name := count], ready' + more;
      } else {
        PassOver(tasks, waiting', ready', before + {n}, before, n, j);
      }
    }
    NoUnderflow(tasks, waiting', ready', before, n);
  }

  /** Everything placed so far comes after what it depends on. */
  ghost predicate Placed(tasks: seq<Task>, order: seq<string>) {
    NoRepeat(order) && forall k, d :: 0 <= k < |order| && Depends(tasks, order[k], d) ==> d in order[..k]
  }

  lemma Start(tasks: seq<Task>, waiting: map<string, int>, ready: seq<string>)
    requires waiting.Keys == Names(tasks) && forall t :: t in tasks ==> waiting[t.name] == |t.dependsOn|
    requires NoRepeat(ready) && forall n :: n in ready <==> n in waiting && waiting[n] == 0
    ensures Counted(tasks, waiting, ready, {}, {}, |tasks|)
  {
    forall i | 0 <= i < |tasks| ensures Waits(tasks[i], waiting, ready, {}, {}) {
      assert tasks[i] in tasks;
      assert Elements(tasks[i].dependsOn) * {} == {};
    }
  }

  lemma ShapedPop(names: set<string>, waiting: map<string, int>, rest: seq<string>, n: string, before: set<string>)
    requires Shaped(names, waiting, rest + [n], before)
    ensures n in names && n !in before && n !in rest && Shaped(names, waiting, rest, before + {n})
  {
    var ready := rest + [n];
    assert ready[|rest|] == n && n in ready;
    forall i | 0 <= i < |rest| ensures rest[i] != n { assert ready[i] == rest[i]; }
    forall i, j | 0 <= i < j < |rest| ensures rest[i] != rest[j] { assert ready[i] == rest[i] && ready[j] == rest[j]; }
    forall m | m in rest ensures m in names && m !in before { assert m in ready; }
  }

  lemma WaitsPop(t: Task, waiting: map<string, int>, rest: seq<string>, n: string, before: set<string>)
    requires Waits(t, waiting, rest + [n], before, before)
    ensures Waits(t, waiting, rest, before + {n}, before)
  {
  }

  lemma Popped(tasks: seq<Task>, waiting: map<string, int>, rest: seq<string>, n: string, before: set<string>)
    requires Counted(tasks, waiting, rest + [n], before, before, |tasks|)
    ensures n in Names(tasks) && n !in before && Counted(tasks, waiting, rest, before + {n}, before, 0)
  {
    ShapedPop(Names(tasks), waiting, rest, n, before);
    forall i | 0 <= i < |tasks| ensures Waits(tasks[i], waiting, rest, before + {n}, before) {
      WaitsPop(tasks[i], waiting, rest, n, before);
    }
  }

  /** A task is pushed only when all it depends on is placed. */
  lemma ReadyDependencies(tasks: seq<Task>, waiting: map<string, int>, ready: seq<string>, order: seq<string>,
                          n: string, d: string)
    requires n in ready && Depends(tasks, n, d)
    requires Counted(tasks, waiting, ready, Elements(order), Elements(order), |tasks|)
    ensures d in order
  {
    var t :| t in tasks && t.name == n && d in t.dependsOn;
    var i :| 0 <= i < |tasks| && tasks[i] == t;
    assert Waits(tasks[i], waiting, ready, Elements(order), Elements(order));
    LeftNone(t, Elements(order));
    assert d in Elements(t.dependsOn);
  }

  lemma PlacedMore(tasks: seq<Task>, order: seq<string>, n: string)
    requires Placed(tasks, order) && n !in order && forall d :: Depends(tasks, n, d) ==> d in order
    ensures Placed(tasks, order + [n])
  {
    var more := order + [n];
    forall i, j | 0 <= i < j < |more| ensures more[i] != more[j] { assert more[i] in order; }
    forall k, d | 0 <= k < |more| && Depends(tasks, more[k], d) ensures d in more[..k] {
      assert more[..k] == order[..k];
      if k < |order| { assert Depends(tasks, order[k], d); } else { assert order[..k] == order; }
    }
  }

  /** Tasks left over although no dependency repeats: each of them waits for another. */
  lemma LeftOver(tasks: seq<Task>, waiting: map<string, int>, order: seq<string>)
    requires KnownDependencies(tasks) && NoDependencyTwice(tasks)
    requires Counted(tasks, waiting, [], Elements(order), Elements(order), |tasks|)
    ensures Stuck(tasks, Names(tasks) - Elements(order))
  {
    var stuck := Names(tasks) - Elements(order);
    forall n | n in stuck ensures DependsWithin(tasks, stuck, n) {
      var t :| t in tasks && t.name == n;
      var i :| 0 <= i < |tasks| && tasks[i] == t;
      assert Waits(t, waiting, [], Elements(order), Elements(order));
      LeftNone(t, Elements(order));
      var d :| d in Elements(t.dependsOn) && d !in Elements(order);
      assert AnotherTask(tasks, t, d);
      assert Depends(tasks, n, d);
    }
  }

  lemma AllPlaced(tasks: seq<Task>, waiting: map<string, int>, order: seq<string>)
    requires Counted(tasks, waiting, [], Elements(order), Elements(order), |tasks|)
    requires Placed(tasks, order) && Elements(order) == Names(tasks)
    ensures NoDependencyTwice(tasks) && RunOrder(tasks, order)
  {
    forall t | t in tasks ensures NoRepeat(t.dependsOn) {
      var i :| 0 <= i < |tasks| && tasks[i] == t;
      assert Waits(t, waiting, [], Elements(order), Elements(order));
      LeftNone(t, Elements(order));
    }
    forall n ensures n in order <==> n in Names(tasks) {
      assert n in order <==> n in Elements(order);
    }
  }

  lemma NonEmptyRest(a: set<string>, b: set<string>)
    requires a <= b && a != b
    ensures b - a != {}
  {
    var x :| x in b && x !in a;
    assert x in b - a;
  }

  /** Where the outer loop stands. */
  ghost predicate Worklist(tasks: seq<Task>, waiting: map<string, int>, ready: seq<string>, order: seq<string>) {
    Placed(tasks, order) && Counted(tasks, waiting, ready, Elements(order), Elements(order), |tasks|)
  }

  lemma OrderSize(tasks: seq<Task>, order: seq<string>)
    requires UniqueNames(tasks) && NoRepeat(order) && Elements(order) <= Names(tasks)
    ensures |order| <= |tasks|
    ensures |order| == |tasks| <==> Elements(order) == Names(tasks)
  {
    ElementsSize(order);
    NamesSize(tasks);
    SubsetSize(Elements(order), Names(tasks));
  }

  /** The worklist empty: every task is placed exactly when the graph can be ordered and
      no `dependsOn` repeats an entry. */
  lemma Decided(tasks: seq<Task>, waiting: map<string, int>, order: seq<string>)
    requires UniqueNames(tasks) && KnownDependencies(tasks) && Worklist(tasks, waiting, [], order)
    ensures |order| == |tasks| <==> NoDependencyTwice(tasks) && Acyclic(tasks)
    ensures |order| == |tasks| ==> RunOrder(tasks, order)
  {
    OrderSize(tasks, order);
    if Elements(order) == Names(tasks) {
      AllPlaced(tasks, waiting, order);
      OrderedIsAcyclic(tasks, order);
    } else if NoDependencyTwice(tasks) {
      LeftOver(tasks, waiting, order);
      NonEmptyRest(Elements(order), Names(tasks));
      StuckHasCycle(tasks, Names(tasks) - Elements(order));
    }
  }

  /** One round of the outer loop, after the pop of `n`. */
  method Round(tasks: seq<Task>, waiting: map<string, int>, rest: seq<string>, n: string, ghost order: seq<string>)
    returns (waiting': map<string, int>, ready': seq<string>)
    requires UniqueNames(tasks) && Worklist(tasks, waiting, rest + [n], order)
    ensures Worklist(tasks, waiting', ready', order + [n])
    ensures |order| < |tasks|
  {
    Popped(tasks, waiting, rest, n, Elements(order));
    forall d | Depends(tasks, n, d) ensures d in order {
      ReadyDependencies(tasks, waiting, rest + [n], order, n, d);
    }
    PlacedMore(tasks, order, n);
    assert Elements(order + [n]) == Elements(order) + {n};
    OrderSize(tasks, order);
    waiting', ready' := Place(tasks, waiting, rest, Elements(order), n);
  }

  lemma SameName(tasks: seq<Task>, t: Task, u: Task)
    requires UniqueNames(tasks) && t in tasks && u in tasks && t.name == u.name
    ensures t == u
  {
  }

  lemma IncreasingNoRepeat(s: seq<string>)
    requires Increasing(s)
    ensures NoRepeat(s)
  {
    forall i, j | 0 <= i < j < |s| ensures s[i] != s[j] {
      LessAsymmetric(s[i], s[j]);
    }
  }

  /** The counters and the tasks that wait for nothing, in the order of their names. */
  method Prepare(tasks: seq<Task>) returns (waiting: map<string, int>, ready: seq<string>)
    requires UniqueNames(tasks)
    ensures Worklist(tasks, waiting, ready, [])
  {
    forall t, u | t in tasks && u in tasks && t.name == u.name ensures t == u { SameName(tasks, t, u); }
    waiting := map t | t in tasks :: t.name := |t.dependsOn|;
    ready := Sorted(set n | n in waiting && waiting[n] == 0);
    IncreasingNoRepeat(ready);
    Start(tasks, waiting, ready);
    assert Elements([]) == {};
  }

  /** Kahn's algorithm as the validation runs it. */
  method CheckOrder(tasks: seq<Task>) returns (ok: bool, ghost order: seq<string>)
    requires UniqueNames(tasks) && KnownDependencies(tasks)
    ensures ok <==> NoDependencyTwice(tasks) && Acyclic(tasks)
    ensures ok ==> RunOrder(tasks, order)
  {
    var done := 0;
    order := [];
    var waiting, ready := Prepare(tasks);
    while ready != []
      invariant done == |order| && Worklist(tasks, waiting, ready, order)
      decreases |tasks| - |order|
    {
      var n, rest := ready[|ready| - 1], ready[..|ready| - 1];
      assert ready == rest + [n];
      done := done + 1;
      waiting, ready := Round(tasks, waiting, rest, n, order);
      order := order + [n];
    }
    Decided(tasks, waiting, order);
    ok := done == |tasks|;
  }

  // ---------- the whole validation ----------

  /** A rule the `i`-th task breaks: its name is taken by an earlier task, or else it lacks
      its query or breaks a rule for notebooks. */
  ghost predicate Breaks(tasks: seq<Task>, i: nat, e: PipelineError)
    requires i < |tasks|
  {
    if exists j :: 0 <= j < i && tasks[j].name == tasks[i].name then e == NameTwice(tasks[i].name)
    else if tasks[i].kind == Sql then tasks[i].sql == None && e == NeedsSql(tasks[i].name)
    else if tasks[i].kind == Notebook then
      tasks[i].notebookProblem.Some? && e == NotebookRule(tasks[i].notebookProblem.value)
    else false
  }

  lemma TaskErrorExactly(tasks: seq<Task>, i: nat)
    requires i < |tasks|
    ensures forall e :: TaskError(tasks, i) == Some(e) <==> Breaks(tasks, i, e)
  {
    var t := tasks[i];
    if IsTask(tasks[..i], t.name) {
      var u :| u in tasks[..i] && u.name == t.name;
      var j :| 0 <= j < i && tasks[..i][j] == u;
      assert tasks[j].name == t.name;
    }
    if j :| 0 <= j < i && tasks[j].name == t.name { assert tasks[..i][j] in tasks[..i]; }
  }

  /** The `i`-th task is the first that breaks a rule of its own. */
  ghost predicate FirstBroken(tasks: seq<Task>, i: nat, e: PipelineError) {
    i < |tasks| && Breaks(tasks, i, e) && forall j, f :: 0 <= j < i ==> !Breaks(tasks, j, f)
  }

  lemma AllErrorsExactly(tasks: seq<Task>)
    ensures forall i, e :: 0 <= i < |tasks| ==> (TaskError(tasks, i) == Some(e) <==> Breaks(tasks, i, e))
  {
    forall i | 0 <= i < |tasks| ensures forall e :: TaskError(tasks, i) == Some(e) <==> Breaks(tasks, i, e) {
      TaskErrorExactly(tasks, i);
    }
  }

  /** No task breaks a rule exactly when the names differ, every query task has its query, and
      no notebook rule is broken. */
  lemma SoundExactly(tasks: seq<Task>)
    ensures NoneBroken(tasks) <==> forall i :: 0 <= i < |tasks| ==> TaskError(tasks, i) == None
  {
    AllErrorsExactly(tasks);
    forall i, e | 0 <= i < |tasks| && Breaks(tasks, i, e) ensures !NoneBroken(tasks) {
      if TaskOk(tasks[i]) {
        var j :| 0 <= j < i && tasks[j].name == tasks[i].name;
      } else {
        assert tasks[i] in tasks;
      }
    }
    if forall i :: 0 <= i < |tasks| ==> TaskError(tasks, i) == None {
      forall i, j | 0 <= i < j < |tasks| ensures tasks[i].name != tasks[j].name {
        assert !Breaks(tasks, j, NameTwice(tasks[j].name));
      }
      forall t | t in tasks ensures TaskOk(t) {
        var i :| 0 <= i < |tasks| && tasks[i] == t;
        assert !Breaks(tasks, i, NeedsSql(t.name));
        if t.notebookProblem.Some? { assert !Breaks(tasks, i, NotebookRule(t.notebookProblem.value)); }
      }
    }
  }

  predicate TaskOk(t: Task) {
    (t.kind == Sql ==> t.sql.Some?) && (t.kind == Notebook ==> t.notebookProblem == None)
  }

  ghost predicate NoneBroken(tasks: seq<Task>) {
    UniqueNames(tasks) && forall t :: t in tasks ==> TaskOk(t)
  }

  /** The loop over the tasks: the error of the first task that breaks a rule. */
  method CheckTasks(tasks: seq<Task>) returns (problem: Option<PipelineError>)
    ensures problem == None <==> NoneBroken(tasks)
    ensures forall i: nat, e :: FirstBroken(tasks, i, e) ==> problem == Some(e)
    ensures problem != Some(Circle) && problem != Some(BadOwner)
  {
    var names: set<string> := {};
    AllErrorsExactly(tasks);
    SoundExactly(tasks);
    for i := 0 to |tasks|
      invariant names == Names(tasks[..i])
      invariant forall j :: 0 <= j < i ==> TaskError(tasks, j) == None
    {
      var t := tasks[i];
      assert t.name in names <==> IsTask(tasks[..i], t.name);
      problem := None;
      if t.name in names {
        problem := Some(NameTwice(t.name));
      } else if t.kind == Sql && t.sql == None {
        problem := Some(NeedsSql(t.name));
      } else if t.kind == Notebook && t.notebookProblem.Some? {
        problem := Some(NotebookRule(t.notebookProblem.value));
      }
      assert problem == TaskError(tasks, i);
      if problem.Some? { return; }
      assert tasks[..i + 1] == tasks[..i] + [t];
      names := names + {t.name};
    }
    problem := None;
  }

  /** The `k`-th dependency of the `i`-th task is that task itself, or no task at all. */
  ghost predicate Dangles(tasks: seq<Task>, i: nat, k: nat)
    requires i < |tasks| && k < |tasks[i].dependsOn|
  {
    tasks[i].dependsOn[k] == tasks[i].name || forall u :: u in tasks ==> u.name != tasks[i].dependsOn[k]
  }

  /** The first dependency that is not another task: all before it are. */
  ghost predicate FirstUnknown(tasks: seq<Task>, i: nat, k: nat) {
    && i < |tasks| && k < |tasks[i].dependsOn| && Dangles(tasks, i, k)
    && (forall l :: 0 <= l < k ==> !Dangles(tasks, i, l))
    && (forall j, l :: 0 <= j < i && 0 <= l < |tasks[j].dependsOn| ==> !Dangles(tasks, j, l))
  }

  method CheckDependencies(tasks: seq<Task>) returns (problem: Option<PipelineError>)
    ensures problem == None <==> KnownDependencies(tasks)
    ensures forall i: nat, k: nat :: FirstUnknown(tasks, i, k) ==>
      problem == Some(NotAnotherTask(tasks[i].name, tasks[i].dependsOn[k]))
    ensures problem.Some? ==> problem.value.NotAnotherTask?
  {
    for i := 0 to |tasks|
      invariant forall j, l :: 0 <= j < i && 0 <= l < |tasks[j].dependsOn| ==> !Dangles(tasks, j, l)
    {
      var t := tasks[i];
      for k := 0 to |t.dependsOn|
        invariant forall l :: 0 <= l < k ==> !Dangles(tasks, i, l)
      {
        if !AnotherTask(tasks, t, t.dependsOn[k]) {
          assert FirstUnknown(tasks, i, k);
          assert t in tasks && t.dependsOn[k] in t.dependsOn;
          return Some(NotAnotherTask(t.name, t.dependsOn[k]));
        }
      }
    }
    problem := None;
    NoneDangles(tasks);
  }

  lemma NoneDangles(tasks: seq<Task>)
    requires forall j, l :: 0 <= j < |tasks| && 0 <= l < |tasks[j].dependsOn| ==> !Dangles(tasks, j, l)
    ensures KnownDependencies(tasks)
  {
    forall t, d | t in tasks && d in t.dependsOn ensures d != t.name && exists u :: u in tasks && u.name == d {
      var j :| 0 <= j < |tasks| && tasks[j] == t;
      var l :| 0 <= l < |t.dependsOn| && t.dependsOn[l] == d;
      assert !Dangles(tasks, j, l);
    }
  }

  /** A group's name: 1 to 64 letters, digits, dots, underscores and dashes, and the first of
      them a letter or a digit. */
  predicate ValidGroup(g: string) {
    && 1 <= |g| <= 64 && g[0] !in "._-"
    && forall i | 0 <= i < |g| ::
         'a' <= g[i] <= 'z' || 'A' <= g[i] <= 'Z' || '0' <= g[i] <= '9' || g[i] in "._-"
  }

  lemma GroupNameExactly(g: string)
    ensures GroupNameOk(g) <==> ValidGroup(g)
  {
    assert forall i :: 0 <= i < |g| ==> g[i] in g;
  }

  predicate OwnerOk(spec: PipelineSpec) {
    spec.ownerGroup.Some? ==> ValidGroup(spec.ownerGroup.value)
  }

  /** The rules the schema can state too: all but the last one. */
  ghost predicate WellFormed(spec: PipelineSpec) {
    && OwnerOk(spec)
    && NoneBroken(spec.tasks)
    && KnownDependencies(spec.tasks)
  }

  /** `validate`: a pipeline passes exactly when its tasks can be ordered and no task names
      a dependency twice; both refusals read as a circle. */
  method Validate(spec: PipelineSpec) returns (problem: Option<PipelineError>, ghost order: seq<string>)
    ensures problem == None <==> WellFormed(spec) && NoDependencyTwice(spec.tasks) && Acyclic(spec.tasks)
    ensures problem == Some(Circle) <==> WellFormed(spec) && !(NoDependencyTwice(spec.tasks) && Acyclic(spec.tasks))
    ensures problem == Some(BadOwner) <==> !OwnerOk(spec)
    ensures forall i: nat, e :: OwnerOk(spec) && FirstBroken(spec.tasks, i, e) ==> problem == Some(e)
    ensures forall i: nat, k: nat :: OwnerOk(spec) && NoneBroken(spec.tasks) && FirstUnknown(spec.tasks, i, k) ==>
      problem == Some(NotAnotherTask(spec.tasks[i].name, spec.tasks[i].dependsOn[k]))
    ensures problem == None ==> RunOrder(spec.tasks, order)
  {
    order := [];
    if spec.ownerGroup.Some? {
      GroupNameExactly(spec.ownerGroup.value);
      if !GroupNameOk(spec.ownerGroup.value) { return Some(BadOwner), order; }
    }
    problem := CheckTasks(spec.tasks);
    if problem.Some? { return; }
    problem := CheckDependencies(spec.tasks);
    if problem.Some? { return; }
    var ok;
    ok, order := CheckOrder(spec.tasks);
    problem := if ok then None else Some(Circle);
  }

  /** A dependency named twice is refused as a circle although there is none. */
  lemma RepeatIsNoCircle()
    ensures var tasks := [Task("a", OtherKind, None, None, []), Task("b", OtherKind, None, None, ["a", "a"])];
      WellFormed(PipelineSpec(tasks, None)) && Acyclic(tasks) && !NoDependencyTwice(tasks)
  {
    var tasks := [Task("a", OtherKind, None, None, []), Task("b", OtherKind, None, None, ["a", "a"])];
    var twice := tasks[1].dependsOn;
    assert tasks[1] in tasks && twice[0] == twice[1];
    assert tasks[..1] == [tasks[0]];
    assert RunOrder(tasks, ["a", "b"]) by {
      assert ["a", "b"][..1] == ["a"];
    }
    OrderedIsAcyclic(tasks, ["a", "b"]);
  }
}
