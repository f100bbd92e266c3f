/** Who owns a namespace: the oldest Lakehouse. A state machine over the API server's
    objects and the reconciles in flight, one per name, each step one request. */
module LakehouseOwnership {
  import opened Text

  /** `finalizer` is the operator's own; `others` are everybody else's. */
  datatype Lakehouse = Lakehouse(created: nat, deleting: bool, finalizer: bool, others: set<string>)

  /** A reconcile in flight. `had`, `others`: the finalizers of the object it was started
      with; it never looks at the object again. */
  datatype Reconcile =
    | Fetched(deleting: bool, had: bool, others: set<string>)
    | Owner(had: bool, others: set<string>)
    | Applying
    | Uninstalling(had: bool, others: set<string>)

  type Objects = map<string, Lakehouse>

  datatype State = State(objects: Objects, flights: map<string, Reconcile>)

  // ---------- the order ----------

  /** `(creationTimestamp, name)`; timestamps have whole seconds, so names break ties. */
  predicate KeyBefore(t: nat, a: string, u: nat, b: string) {
    t < u || (t == u && Less(a, b))
  }

  ghost predicate IsOldest(objects: Objects, name: string) {
    name in objects && forall m :: m in objects && m != name ==>
      KeyBefore(objects[name].created, name, objects[m].created, m)
  }

  lemma OldestUnique(objects: Objects, a: string, b: string)
    requires IsOldest(objects, a) && IsOldest(objects, b)
    ensures a == b
  {
    if a != b && objects[a].created == objects[b].created { LessAsymmetric(a, b); }
  }

  /** Nobody listed is older: what lets a reconcile go on. */
  ghost predicate NotBlocked(objects: Objects, name: string) {
    objects == map[] || IsOldest(objects, name)
  }

  // ---------- the steps ----------

  datatype Step =
    | Create(name: string, created: nat, others: set<string>)
    | RequestDelete(name: string)
    | SetOthers(name: string, others: set<string>)
    | Fetch(name: string, seen: Lakehouse)
    | List(name: string)
    | Claim(name: string, applied: bool, answered: bool)
    | BeginUninstall(name: string)
    | Release(name: string, applied: bool)
    | End(name: string)

  /** The API server drops an object that is being deleted once nothing holds it. */
  function Stored(objects: Objects, name: string, lh: Lakehouse): Objects {
    if lh.deleting && !lh.finalizer && lh.others == {} then objects - {name} else objects[name := lh]
  }

  function Ended(s: State, name: string): State {
    s.(flights := s.flights - {name})
  }

  ghost predicate Enabled(s: State, step: Step) {
    match step
    case Create(n, _, _) => n !in s.objects
    case RequestDelete(n) => n in s.objects
    case SetOthers(n, others) => n in s.objects && (s.objects[n].deleting ==> others <= s.objects[n].others)
    case Fetch(n, _) => n !in s.flights
    case List(n) => n in s.flights && s.flights[n].Fetched? && !s.flights[n].deleting
    case Claim(n, _, _) => n in s.flights && s.flights[n].Owner?
    case BeginUninstall(n) => n in s.flights && s.flights[n].Fetched? && s.flights[n].deleting
    case Release(n, _) => n in s.flights && s.flights[n].Uninstalling?
    case End(n) => n in s.flights
  }

  /** The PATCH of `ensure_lakehouse_finalizer`: nothing when the snapshot has the finalizer;
      the API server takes no new finalizer on an object that is being deleted. */
  function Claimed(s: State, n: string, had: bool, others: set<string>, applied: bool, answered: bool): State {
    if had then s.(flights := s.flights[n := Applying])
    else if n !in s.objects || s.objects[n].deleting || !applied then Ended(s, n)
    else
      var objects := s.objects[n := s.objects[n].(finalizer := true, others := others)];
      State(objects, if answered then s.flights[n := Applying] else s.flights - {n})
  }

  /** The PATCH of `remove_lakehouse_finalizer`, with the list of the snapshot. */
  function Released(s: State, n: string, had: bool, others: set<string>, applied: bool): State {
    if had && n in s.objects && applied && (s.objects[n].deleting ==> others <= s.objects[n].others) then
      Ended(State(Stored(s.objects, n, s.objects[n].(finalizer := false, others := others)), s.flights), n)
    else Ended(s, n)
  }

  ghost function Next(s: State, step: Step): State
    requires Enabled(s, step)
  {
    match step
    case Create(n, created, others) => s.(objects := s.objects[n := Lakehouse(created, false, false, others)])
    case RequestDelete(n) => s.(objects := Stored(s.objects, n, s.objects[n].(deleting := true)))
    case SetOthers(n, others) => s.(objects := Stored(s.objects, n, s.objects[n].(others := others)))
    case Fetch(n, seen) => s.(flights := s.flights[n := Fetched(seen.deleting, seen.finalizer, seen.others)])
    case List(n) =>
      if NotBlocked(s.objects, n) then s.(flights := s.flights[n := Owner(s.flights[n].had, s.flights[n].others)])
      else Ended(s, n)
    case Claim(n, applied, answered) => Claimed(s, n, s.flights[n].had, s.flights[n].others, applied, answered)
    case BeginUninstall(n) => s.(flights := s.flights[n := Uninstalling(s.flights[n].had, s.flights[n].others)])
    case Release(n, applied) => Released(s, n, s.flights[n].had, s.flights[n].others, applied)
    case End(n) => Ended(s, n)
  }

  /** What is taken for granted of the cluster: a new object's key is above all live ones,
      and a name is not used again while a reconcile of it is in flight. */
  ghost predicate Keyed(s: State, step: Step) {
    step.Create? ==>
      step.name !in s.flights &&
      forall m :: m in s.objects ==> KeyBefore(s.objects[m].created, m, step.created, step.name)
  }

  /** What is taken for granted of the watch cache: a reconcile starts with the object as it
      is. */
  ghost predicate Current(s: State, step: Step) {
    step.Fetch? ==> step.name in s.objects && s.objects[step.name] == step.seen
  }

  ghost predicate Orderly(s: State, step: Step) {
    Keyed(s, step) && Current(s, step)
  }

  // ---------- the invariant ----------

  ghost predicate FlightOk(objects: Objects, n: string, f: Reconcile) {
    match f
    case Fetched(deleting, had, _) =>
      (had ==> n in objects) && (n in objects ==> objects[n].finalizer == had && (deleting ==> objects[n].deleting))
    case Owner(had, _) =>
      (had ==> n in objects) && (n in objects ==> objects[n].finalizer == had && IsOldest(objects, n))
    case Applying => n in objects && objects[n].finalizer
    case Uninstalling(had, _) =>
      (had ==> n in objects) && (n in objects ==> objects[n].finalizer == had && objects[n].deleting)
  }

  /** Whoever holds the finalizer is the oldest, and every reconcile in flight still has
      the object as it was started with, as far as the finalizer goes. */
  ghost predicate Invariant(s: State) {
    && (forall n :: n in s.objects && s.objects[n].finalizer ==> IsOldest(s.objects, n))
    && (forall n :: n in s.flights ==> FlightOk(s.objects, n, s.flights[n]))
  }

  lemma OldestAfterCreate(objects: Objects, n: string, lh: Lakehouse, a: string)
    requires n !in objects && IsOldest(objects, a)
    requires forall m :: m in objects ==> KeyBefore(objects[m].created, m, lh.created, n)
    ensures IsOldest(objects[n := lh], a)
  {
  }

  lemma OldestAfterStore(objects: Objects, n: string, lh: Lakehouse, a: string)
    requires n in objects && lh.created == objects[n].created && IsOldest(objects, a)
    requires a in Stored(objects, n, lh)
    ensures IsOldest(Stored(objects, n, lh), a)
  {
  }

  /** A change of one object that keeps its age and its finalizer. */
  lemma StoreKeeps(s: State, n: string, lh: Lakehouse)
    requires Invariant(s) && n in s.objects
    requires lh.created == s.objects[n].created && lh.finalizer == s.objects[n].finalizer
    requires s.objects[n].deleting ==> lh.deleting
    ensures Invariant(s.(objects := Stored(s.objects, n, lh)))
  {
    var objects := Stored(s.objects, n, lh);
    forall a | a in objects && objects[a].finalizer ensures IsOldest(objects, a) {
      OldestAfterStore(s.objects, n, lh, a);
    }
    forall a | a in s.flights ensures FlightOk(objects, a, s.flights[a]) {
      if a in objects && s.flights[a].Owner? { OldestAfterStore(s.objects, n, lh, a); }
    }
  }

  lemma CreateKeeps(s: State, n: string, created: nat, others: set<string>)
    requires Invariant(s) && Enabled(s, Create(n, created, others)) && Orderly(s, Create(n, created, others))
    ensures Invariant(Next(s, Create(n, created, others)))
  {
    var lh := Lakehouse(created, false, false, others);
    var objects := s.objects[n := lh];
    forall a | a in objects && objects[a].finalizer ensures IsOldest(objects, a) {
      OldestAfterCreate(s.objects, n, lh, a);
    }
    forall a | a in s.flights ensures FlightOk(objects, a, s.flights[a]) {
      if a in s.objects && s.flights[a].Owner? { OldestAfterCreate(s.objects, n, lh, a); }
    }
  }

  lemma ClaimKeeps(s: State, n: string, applied: bool, answered: bool)
    requires Invariant(s) && Enabled(s, Claim(n, applied, answered))
    ensures Invariant(Next(s, Claim(n, applied, answered)))
  {
    var f := s.flights[n];
    assert FlightOk(s.objects, n, f);
    if !f.had && n in s.objects && !s.objects[n].deleting && applied {
      var lh := s.objects[n].(finalizer := true, others := f.others);
      var objects := s.objects[n := lh];
      forall a | a in s.objects && IsOldest(s.objects, a) ensures IsOldest(objects, a) {
        OldestAfterStore(s.objects, n, lh, a);
      }
      forall a | a in s.flights && a != n ensures FlightOk(objects, a, s.flights[a]) {
        assert FlightOk(s.objects, a, s.flights[a]);
      }
    }
  }

  lemma ReleaseKeeps(s: State, n: string, applied: bool)
    requires Invariant(s) && Enabled(s, Release(n, applied))
    ensures Invariant(Next(s, Release(n, applied)))
  {
    var f := s.flights[n];
    assert FlightOk(s.objects, n, f);
    if f.had && applied && f.others <= s.objects[n].others {
      var lh := s.objects[n].(finalizer := false, others := f.others);
      var objects := Stored(s.objects, n, lh);
      forall a | a in objects && IsOldest(s.objects, a) ensures IsOldest(objects, a) {
        OldestAfterStore(s.objects, n, lh, a);
      }
    }
  }

  /** Every step keeps the invariant. */
  lemma StepKeeps(s: State, step: Step)
    requires Invariant(s) && Enabled(s, step) && Orderly(s, step)
    ensures Invariant(Next(s, step))
  {
    match step
    case Create(n, created, others) => CreateKeeps(s, n, created, others);
    case RequestDelete(n) => StoreKeeps(s, n, s.objects[n].(deleting := true));
    case SetOthers(n, others) => StoreKeeps(s, n, s.objects[n].(others := others));
    case Claim(n, applied, answered) => ClaimKeeps(s, n, applied, answered);
    case Release(n, applied) => ReleaseKeeps(s, n, applied);
    case _ =>
  }

  // ---------- runs ----------

  const EMPTY := State(map[], map[])

  ghost predicate Leads(s: State, step: Step, t: State) {
    Enabled(s, step) && t == Next(s, step)
  }

  ghost predicate Runs(states: seq<State>, steps: seq<Step>) {
    && |states| == |steps| + 1 && states[0] == EMPTY
    && forall i :: 0 <= i < |steps| ==> Leads(states[i], steps[i], states[i + 1])
  }

  ghost predicate OrderlyRun(states: seq<State>, steps: seq<Step>) {
    Runs(states, steps) && forall i :: 0 <= i < |steps| ==> Orderly(states[i], steps[i])
  }

  lemma StepAt(states: seq<State>, steps: seq<Step>, j: nat)
    requires OrderlyRun(states, steps) && j < |steps|
    ensures Enabled(states[j], steps[j]) && Orderly(states[j], steps[j]) && states[j + 1] == Next(states[j], steps[j])
  {
    assert Leads(states[j], steps[j], states[j + 1]);
  }

  lemma {:induction false} Reachable(states: seq<State>, steps: seq<Step>, k: nat)
    requires OrderlyRun(states, steps) && k < |states|
    ensures Invariant(states[k])
  {
    if k > 0 {
      Reachable(states, steps, k - 1);
      StepAt(states, steps, k - 1);
      StepKeeps(states[k - 1], steps[k - 1]);
    }
  }

  // ---------- with a watch cache that lags ----------

  ghost predicate KeyedRun(states: seq<State>, steps: seq<Step>) {
    Runs(states, steps) && forall i :: 0 <= i < |steps| ==> Keyed(states[i], steps[i])
  }

  /** What a reconcile that starts with an old object, or with one that is gone, leaves of
      the invariant: the finalizer is the oldest one's, and only the oldest one asks for it. */
  ghost predicate HolderInvariant(s: State) {
    && (forall n :: n in s.objects && s.objects[n].finalizer ==> IsOldest(s.objects, n))
    && (forall n :: n in s.flights && s.flights[n].Owner? && n in s.objects ==> IsOldest(s.objects, n))
  }

  lemma HolderStore(s: State, n: string, lh: Lakehouse)
    requires HolderInvariant(s) && n in s.objects && lh.created == s.objects[n].created
    requires lh.finalizer ==> IsOldest(s.objects, n)
    ensures HolderInvariant(s.(objects := Stored(s.objects, n, lh)))
  {
    var objects := Stored(s.objects, n, lh);
    forall a | a in objects && IsOldest(s.objects, a) ensures IsOldest(objects, a) {
      OldestAfterStore(s.objects, n, lh, a);
    }
  }

  lemma HolderClaim(s: State, n: string, applied: bool, answered: bool)
    requires HolderInvariant(s) && Enabled(s, Claim(n, applied, answered))
    ensures HolderInvariant(Next(s, Claim(n, applied, answered)))
  {
    var f := s.flights[n];
    if !f.had && n in s.objects && !s.objects[n].deleting && applied {
      HolderStore(s, n, s.objects[n].(finalizer := true, others := f.others));
    }
  }

  lemma HolderRelease(s: State, n: string, applied: bool)
    requires HolderInvariant(s) && Enabled(s, Release(n, applied))
    ensures HolderInvariant(Next(s, Release(n, applied)))
  {
    var f := s.flights[n];
    if f.had && n in s.objects && applied {
      HolderStore(s, n, s.objects[n].(finalizer := false, others := f.others));
    }
  }

  lemma HolderCreate(s: State, n: string, created: nat, others: set<string>)
    requires HolderInvariant(s) && Enabled(s, Create(n, created, others)) && Keyed(s, Create(n, created, others))
    ensures HolderInvariant(Next(s, Create(n, created, others)))
  {
    var lh := Lakehouse(created, false, false, others);
    forall a | a in s.objects && IsOldest(s.objects, a) ensures IsOldest(s.objects[n := lh], a) {
      OldestAfterCreate(s.objects, n, lh, a);
    }
  }

  lemma HolderKeeps(s: State, step: Step)
    requires HolderInvariant(s) && Enabled(s, step) && Keyed(s, step)
    ensures HolderInvariant(Next(s, step))
  {
    match step
    case Create(n, created, others) => HolderCreate(s, n, created, others);
    case RequestDelete(n) => HolderStore(s, n, s.objects[n].(deleting := true));
    case SetOthers(n, others) => HolderStore(s, n, s.objects[n].(others := others));
    case Claim(n, applied, answered) => HolderClaim(s, n, applied, answered);
    case Release(n, applied) => HolderRelease(s, n, applied);
    case _ =>
  }

  /** Whatever objects reconciles start with, at most one Lakehouse holds the finalizer, and
      it is the oldest. */
  lemma {:induction false} OneHolder(states: seq<State>, steps: seq<Step>, k: nat)
    requires KeyedRun(states, steps) && k < |states|
    ensures HolderInvariant(states[k])
    ensures forall n :: Holds(states[k], n) ==> IsOldest(states[k].objects, n)
    ensures forall m, n :: Holds(states[k], m) && Holds(states[k], n) ==> m == n
  {
    if k > 0 {
      OneHolder(states, steps, k - 1);
      assert Leads(states[k - 1], steps[k - 1], states[k - 1 + 1]);
      HolderKeeps(states[k - 1], steps[k - 1]);
    }
    forall m, n | Holds(states[k], m) && Holds(states[k], n) ensures m == n {
      OldestUnique(states[k].objects, m, n);
    }
  }

  predicate Holds(s: State, n: string) {
    n in s.objects && s.objects[n].finalizer
  }

  /** A reconcile that changes the namespace's releases. */
  predicate Acts(s: State, n: string) {
    n in s.flights && (s.flights[n].Applying? || s.flights[n].Uninstalling?)
  }

  /** In every reachable state at most one Lakehouse holds the finalizer, the oldest one;
      whoever applies releases is that one; and whoever uninstalls them is that one exactly
      when it was fetched with the finalizer. */
  lemma OneOwner(states: seq<State>, steps: seq<Step>, k: nat)
    requires OrderlyRun(states, steps) && k < |states|
    ensures var s := states[k];
      && (forall n :: Holds(s, n) ==> IsOldest(s.objects, n))
      && (forall m, n :: Holds(s, m) && Holds(s, n) ==> m == n)
      && (forall n :: n in s.flights && s.flights[n].Applying? ==> Holds(s, n))
      && (forall n :: n in s.flights && s.flights[n].Uninstalling? ==> (Holds(s, n) <==> s.flights[n].had))
  {
    Reachable(states, steps, k);
    var s := states[k];
    forall m, n | Holds(s, m) && Holds(s, n) ensures m == n { OldestUnique(s.objects, m, n); }
    forall n | n in s.flights ensures FlightOk(s.objects, n, s.flights[n]) {}
  }

  /** Nobody interferes with an owner, provided every uninstall was started by an object
      that carried the finalizer: at most one reconcile touches the releases at a time. */
  lemma Exclusive(states: seq<State>, steps: seq<Step>, k: nat, m: string, n: string)
    requires OrderlyRun(states, steps) && k < |states|
    requires Acts(states[k], m) && Acts(states[k], n)
    requires forall a :: a in states[k].flights && states[k].flights[a].Uninstalling? ==> states[k].flights[a].had
    ensures m == n
  {
    OneOwner(states, steps, k);
    assert Holds(states[k], m) && Holds(states[k], n);
  }

  // ---------- handover ----------

  lemma StaysOldest(s: State, step: Step, a: string)
    requires Enabled(s, step) && Orderly(s, step) && IsOldest(s.objects, a) && a in Next(s, step).objects
    ensures IsOldest(Next(s, step).objects, a)
  {
    match step
    case Create(n, created, others) => OldestAfterCreate(s.objects, n, Lakehouse(created, false, false, others), a);
    case _ =>
  }

  lemma OldestNext(states: seq<State>, steps: seq<Step>, j: nat, a: string)
    requires OrderlyRun(states, steps) && j < |steps|
    requires IsOldest(states[j].objects, a) && a in states[j + 1].objects
    ensures IsOldest(states[j + 1].objects, a)
  {
    StepAt(states, steps, j);
    StaysOldest(states[j], steps[j], a);
  }

  lemma {:induction false} OldestWhileLive(states: seq<State>, steps: seq<Step>, i: nat, j: nat, a: string)
    requires OrderlyRun(states, steps) && i <= j < |states| && IsOldest(states[i].objects, a)
    requires forall k :: i <= k <= j ==> a in states[k].objects
    ensures IsOldest(states[j].objects, a)
    decreases j
  {
    if i < j {
      OldestWhileLive(states, steps, i, j - 1, a);
      OldestNext(states, steps, j - 1, a);
    }
  }

  /** Another Lakehouse takes over only after the one before it was gone altogether. */
  lemma Handover(states: seq<State>, steps: seq<Step>, i: nat, j: nat, a: string, b: string)
    requires OrderlyRun(states, steps) && i <= j < |states|
    requires Holds(states[i], a) && Holds(states[j], b) && a != b
    ensures exists k :: i < k <= j && a !in states[k].objects
  {
    OneOwner(states, steps, i);
    OneOwner(states, steps, j);
    if forall k :: i <= k <= j ==> a in states[k].objects {
      OldestWhileLive(states, steps, i, j, a);
      OldestUnique(states[j].objects, a, b);
    }
  }

  // ---------- how it goes wrong ----------

  lemma RunExtends(states: seq<State>, steps: seq<Step>, step: Step) returns (more: seq<State>)
    requires Runs(states, steps) && Enabled(states[|steps|], step)
    ensures Runs(more, steps + [step]) && more == states + [Next(states[|steps|], step)]
    ensures OrderlyRun(states, steps) && Orderly(states[|steps|], step) ==> OrderlyRun(more, steps + [step])
    ensures KeyedRun(states, steps) && Keyed(states[|steps|], step) ==> KeyedRun(more, steps + [step])
  {
    more := states + [Next(states[|steps|], step)];
    var all := steps + [step];
    forall i | 0 <= i < |all| ensures Leads(more[i], all[i], more[i + 1]) {
      if i < |steps| { assert Leads(states[i], steps[i], states[i + 1]); }
    }
  }

  /** The owner applies its releases. */
  lemma OwnerNamed(n: string) returns (states: seq<State>, steps: seq<Step>)
    ensures OrderlyRun(states, steps) && |steps| == 4
    ensures states[4] == State(map[n := Lakehouse(1, false, true, {})], map[n := Applying])
  {
    states, steps := [EMPTY], [];
    states := RunExtends(states, steps, Create(n, 1, {}));
    steps := steps + [Create(n, 1, {})];
    var seen := Lakehouse(1, false, false, {});
    states := RunExtends(states, steps, Fetch(n, seen));
    steps := steps + [Fetch(n, seen)];
    states := RunExtends(states, steps, List(n));
    steps := steps + [List(n)];
    states := RunExtends(states, steps, Claim(n, true, true));
    steps := steps + [Claim(n, true, true)];
  }

  /** A blocked Lakehouse that something else holds while it is deleted, foreground
      deletion for one, is reconciled as if it had been the owner: it uninstalls the
      releases the owner is applying. */
  lemma BlockedUninstalls() returns (states: seq<State>, steps: seq<Step>)
    ensures OrderlyRun(states, steps)
    ensures var s := states[|steps|];
      Holds(s, "a") && "a" in s.flights && s.flights["a"].Applying?
      && !Holds(s, "b") && "b" in s.flights && s.flights["b"].Uninstalling?
  {
    states, steps := OwnerNamed("a");
    assert Less("a", "b");
    states := RunExtends(states, steps, Create("b", 2, {"foregroundDeletion"}));
    steps := steps + [Create("b", 2, {"foregroundDeletion"})];
    states := RunExtends(states, steps, RequestDelete("b"));
    steps := steps + [RequestDelete("b")];
    var seen := Lakehouse(2, true, false, {"foregroundDeletion"});
    states := RunExtends(states, steps, Fetch("b", seen));
    steps := steps + [Fetch("b", seen)];
    states := RunExtends(states, steps, BeginUninstall("b"));
    steps := steps + [BeginUninstall("b")];
  }

  /** A reconcile of `b` got past the guard, and `b` is gone before it claims. */
  lemma GoneWhileReconciled() returns (states: seq<State>, steps: seq<Step>)
    ensures Runs(states, steps) && states[|steps|] == State(map[], map["b" := Owner(false, {})])
  {
    states, steps := [EMPTY], [];
    states := RunExtends(states, steps, Create("b", 1, {}));
    steps := steps + [Create("b", 1, {})];
    var seen := Lakehouse(1, false, false, {});
    states := RunExtends(states, steps, Fetch("b", seen));
    steps := steps + [Fetch("b", seen)];
    states := RunExtends(states, steps, List("b"));
    steps := steps + [List("b")];
    states := RunExtends(states, steps, RequestDelete("b"));
    steps := steps + [RequestDelete("b")];
  }

  /** Finalizers are patched by name: a name used again while a reconcile of its former
      bearer is in flight lets two Lakehouses hold the namespace. */
  lemma NameReuseBreaks() returns (states: seq<State>, steps: seq<Step>)
    ensures Runs(states, steps)
    ensures Holds(states[|steps|], "a") && Holds(states[|steps|], "b")
  {
    states, steps := GoneWhileReconciled();
    states := RunExtends(states, steps, Create("a", 2, {}));
    steps := steps + [Create("a", 2, {})];
    var seen := Lakehouse(2, false, false, {});
    states := RunExtends(states, steps, Fetch("a", seen));
    steps := steps + [Fetch("a", seen)];
    states := RunExtends(states, steps, List("a"));
    steps := steps + [List("a")];
    states := RunExtends(states, steps, Claim("a", true, true));
    steps := steps + [Claim("a", true, true)];
    states := RunExtends(states, steps, Create("b", 3, {}));
    steps := steps + [Create("b", 3, {})];
    states := RunExtends(states, steps, Claim("b", true, true));
    steps := steps + [Claim("b", true, true)];
  }

  /** Of two Lakehouses created in the same second the one whose name sorts first counts as
      older. When it is the younger one it takes the namespace over while the other holds it,
      so the premise on keys is needed. */
  lemma SameSecondBreaks() returns (states: seq<State>, steps: seq<Step>)
    ensures Runs(states, steps) && |steps| == 8 && OrderlyRun(states[..5], steps[..4])
    ensures steps[4] == Create("a", 1, {}) && "b" in states[4].objects && states[4].objects["b"].created == 1
    ensures Holds(states[8], "a") && Holds(states[8], "b")
  {
    states, steps := OwnerNamed("b");
    ghost var first, begun := states, steps;
    assert Less("a", "b");
    states := RunExtends(states, steps, Create("a", 1, {}));
    steps := steps + [Create("a", 1, {})];
    var seen := Lakehouse(1, false, false, {});
    states := RunExtends(states, steps, Fetch("a", seen));
    steps := steps + [Fetch("a", seen)];
    states := RunExtends(states, steps, List("a"));
    steps := steps + [List("a")];
    states := RunExtends(states, steps, Claim("a", true, true));
    steps := steps + [Claim("a", true, true)];
    assert states[..5] == first && steps[..4] == begun;
  }

  /** The owner `a` was deleted, took its releases down, and is gone. */
  lemma OwnerGone() returns (states: seq<State>, steps: seq<Step>)
    ensures KeyedRun(states, steps) && |steps| == 9 && states[9] == EMPTY
    ensures "a" in states[4].objects && states[4].objects["a"] == Lakehouse(1, false, true, {})
    ensures "a" in states[6].objects && states[6].objects["a"] == Lakehouse(1, true, true, {})
  {
    states, steps := OwnerNamed("a");
    var seen := Lakehouse(1, true, true, {});
    states := RunExtends(states, steps, End("a"));
    steps := steps + [End("a")];
    states := RunExtends(states, steps, RequestDelete("a"));
    steps := steps + [RequestDelete("a")];
    states := RunExtends(states, steps, Fetch("a", seen));
    steps := steps + [Fetch("a", seen)];
    states := RunExtends(states, steps, BeginUninstall("a"));
    steps := steps + [BeginUninstall("a")];
    states := RunExtends(states, steps, Release("a", true));
    steps := steps + [Release("a", true)];
  }

  /** A queued reconcile that still sees `a` as it was before it went applies releases that
      no Lakehouse holds any more. */
  lemma StaleApplies() returns (states: seq<State>, steps: seq<Step>)
    ensures KeyedRun(states, steps) && |steps| == 12
    ensures steps[9].Fetch? && "a" in states[4].objects && states[4].objects["a"] == steps[9].seen
    ensures states[12] == State(map[], map["a" := Applying])
  {
    states, steps := OwnerGone();
    var seen := Lakehouse(1, false, true, {});
    states := RunExtends(states, steps, Fetch("a", seen));
    steps := steps + [Fetch("a", seen)];
    states := RunExtends(states, steps, List("a"));
    steps := steps + [List("a")];
    states := RunExtends(states, steps, Claim("a", true, true));
    steps := steps + [Claim("a", true, true)];
  }

  /** After `a` is gone, `b` holds the namespace and applies its releases. */
  lemma SuccessorApplies() returns (states: seq<State>, steps: seq<Step>)
    ensures KeyedRun(states, steps) && |steps| == 13
    ensures "a" in states[6].objects && states[6].objects["a"] == Lakehouse(1, true, true, {})
    ensures states[13] == State(map["b" := Lakehouse(2, false, true, {})], map["b" := Applying])
  {
    states, steps := OwnerGone();
    var seen := Lakehouse(2, false, false, {});
    states := RunExtends(states, steps, Create("b", 2, {}));
    steps := steps + [Create("b", 2, {})];
    states := RunExtends(states, steps, Fetch("b", seen));
    steps := steps + [Fetch("b", seen)];
    states := RunExtends(states, steps, List("b"));
    steps := steps + [List("b")];
    states := RunExtends(states, steps, Claim("b", true, true));
    steps := steps + [Claim("b", true, true)];
  }

  /** And one that still sees it under deletion uninstalls the releases its successor is
      applying: of `OneOwner` only what `OneHolder` says is left. */
  lemma StaleUninstalls() returns (states: seq<State>, steps: seq<Step>)
    ensures KeyedRun(states, steps) && |steps| == 15
    ensures steps[13].Fetch? && "a" in states[6].objects && states[6].objects["a"] == steps[13].seen
    ensures Holds(states[15], "b") && "b" in states[15].flights && states[15].flights["b"].Applying?
    ensures "a" !in states[15].objects && "a" in states[15].flights && states[15].flights["a"].Uninstalling?
  {
    states, steps := SuccessorApplies();
    var gone := Lakehouse(1, true, true, {});
    states := RunExtends(states, steps, Fetch("a", gone));
    steps := steps + [Fetch("a", gone)];
    states := RunExtends(states, steps, BeginUninstall("a"));
    steps := steps + [BeginUninstall("a")];
  }
}
