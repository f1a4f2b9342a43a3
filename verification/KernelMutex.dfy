// Mutexes with priority inheritance.
module KernelMutex {
  import opened Options
  import opened KernelState
  import opened KernelSched

  const MUTEX_NAME_LEN := 16

  // ---- recomputing a priority ----

  /** `p` is the priority of `t` by its own base and those that wait for it. */
  ghost predicate IsDue(s: State, t: nat, p: nat)
    requires Shape(s) && t < MAX_TASKS
  {
    && s.tasks[t].base <= p && (forall w :: 0 <= w < MAX_TASKS && Lends(s, w, t) ==> s.tasks[w].priority <= p)
    && (p == s.tasks[t].base || exists w :: 0 <= w < MAX_TASKS && Lends(s, w, t) && s.tasks[w].priority == p)
  }

  /** Where priorities are exact, each is the largest of the own one and those of the waiters. */
  lemma ExactIsDue(s: State, t: nat)
    requires Shape(s) && OwnershipOk(s) && Inherits(s) && Exact(s) && t < MAX_TASKS && !s.tasks[t].killed
    ensures IsDue(s, t, s.tasks[t].priority)
  {
    assert TaskOk(s, t) && Justified(s, t);
    forall w | 0 <= w < MAX_TASKS && Lends(s, w, t) ensures s.tasks[w].priority <= s.tasks[t].priority {}
  }

  function SetPriorityOf(s: State, t: nat, p: nat): State
    requires t < |s.tasks|
  {
    SetTask(s, t, s.tasks[t].(priority := p))
  }

  /** All but the waiters of `t` respect priority inheritance. */
  ghost predicate InheritsBut(s: State, t: nat)
    requires Shape(s)
  {
    forall w, o :: 0 <= w < MAX_TASKS && 0 <= o < MAX_TASKS && o != t && Lends(s, w, o) ==>
      s.tasks[w].priority <= s.tasks[o].priority
  }

  ghost predicate ExactBut(s: State, t: nat)
    requires Shape(s)
  {
    forall u :: 0 <= u < MAX_TASKS && u != t && !s.tasks[u].killed ==> Justified(s, u)
  }

  lemma LendsSame(s: State, t: nat, p: nat)
    requires Shape(s) && t < MAX_TASKS
    ensures forall w, o :: 0 <= w < MAX_TASKS && 0 <= o < MAX_TASKS ==>
              (Lends(SetPriorityOf(s, t, p), w, o) <==> Lends(s, w, o))
  {}

  lemma PriorityOwnership(s: State, t: nat, p: nat)
    requires Shape(s) && OwnershipOk(s) && t < MAX_TASKS && !s.tasks[t].killed && s.tasks[t].base <= p <= PRIORITY_MAX
    ensures OwnershipOk(SetPriorityOf(s, t, p))
  {
    var r := SetPriorityOf(s, t, p);
    forall m | 0 <= m < MAX_MUTEXES ensures MutexOk(r, m) {
      assert MutexOk(s, m);
      assert Holders(r.tasks, m) == Holders(s.tasks, m);
    }
    forall u | 0 <= u < MAX_TASKS ensures TaskOk(r, u) { assert TaskOk(s, u); }
  }

  /** Setting the priority that is due restores inheritance, unless the task itself waits for one
      that is below it now. */
  lemma DueKeeps(s: State, t: nat, p: nat)
    requires Shape(s) && OwnershipOk(s) && SchedOk(s) && t < MAX_TASKS && !s.tasks[t].killed && IsDue(s, t, p)
    ensures Core(SetPriorityOf(s, t, p))
    ensures InheritsBut(s, t) && LowerThanOwners(s, t, p) ==> Inherits(SetPriorityOf(s, t, p))
    ensures ExactBut(s, t) && LendsNone(s, t) ==> Exact(SetPriorityOf(s, t, p))
  {
    hide OwnershipOk, InheritsBut, LowerThanOwners, ExactBut, LendsNone, Inherits, Exact;
    DueInRange(s, t, p);
    PriorityOwnership(s, t, p);
    NotToItself(s, t);
    if InheritsBut(s, t) && LowerThanOwners(s, t, p) { DueInherits(s, t, p); }
    if ExactBut(s, t) && LendsNone(s, t) { DueExact(s, t, p); }
  }

  /** `p` is not above the priority of any task that `t` waits for. */
  predicate LowerThanOwners(s: State, t: nat, p: nat)
    requires Shape(s)
  {
    forall o :: 0 <= o < MAX_TASKS && Lends(s, t, o) ==> p <= s.tasks[o].priority
  }

  /** Task `t` lends its priority to none. */
  predicate LendsNone(s: State, t: nat)
    requires Shape(s)
  {
    forall o :: 0 <= o < MAX_TASKS ==> !Lends(s, t, o)
  }

  lemma DueInRange(s: State, t: nat, p: nat)
    requires Shape(s) && OwnershipOk(s) && t < MAX_TASKS && IsDue(s, t, p)
    ensures s.tasks[t].base <= p <= PRIORITY_MAX
  {
    assert TaskOk(s, t);
    if p != s.tasks[t].base {
      var w :| 0 <= w < MAX_TASKS && Lends(s, w, t) && s.tasks[w].priority == p;
      assert TaskOk(s, w);
    }
  }

  lemma DueInherits(s: State, t: nat, p: nat)
    requires Shape(s) && t < MAX_TASKS && IsDue(s, t, p) && InheritsBut(s, t) && !Lends(s, t, t)
    requires LowerThanOwners(s, t, p)
    ensures Inherits(SetPriorityOf(s, t, p))
  {
    LendsSame(s, t, p);
    hide Lends;
  }

  lemma DueExact(s: State, t: nat, p: nat)
    requires Shape(s) && t < MAX_TASKS && IsDue(s, t, p) && ExactBut(s, t) && LendsNone(s, t)
    ensures Exact(SetPriorityOf(s, t, p))
  {
    LendsSame(s, t, p);
    hide Lends;
    var r := SetPriorityOf(s, t, p);
    forall u | 0 <= u < MAX_TASKS && !r.tasks[u].killed ensures Justified(r, u) {
      if u != t { assert Justified(s, u); }
    }
  }

  /** There is one priority that is due. */
  lemma DueUnique(s: State, t: nat, p: nat, q: nat)
    requires Shape(s) && t < MAX_TASKS && IsDue(s, t, p) && IsDue(s, t, q)
    ensures p == q
  {
    hide Lends;
  }

  lemma NotToItself(s: State, t: nat)
    requires Shape(s) && OwnershipOk(s) && t < MAX_TASKS
    ensures !Lends(s, t, t)
  {
    assert TaskOk(s, t);
  }

  /** The mutex a task waits for is its channel. */
  ghost predicate Linked(s: State)
    requires Shape(s)
  {
    forall t :: 0 <= t < MAX_TASKS ==>
      && (s.tasks[t].channel.OnMutex? <==> s.tasks[t].waitMutex.Some?)
      && (s.tasks[t].channel.OnMutex? ==> s.tasks[t].waitMutex.value == s.tasks[t].channel.id < MAX_MUTEXES)
  }

  lemma OwnershipLinked(s: State)
    requires Shape(s) && OwnershipOk(s)
    ensures Linked(s)
  {
    forall t | 0 <= t < MAX_TASKS
      ensures s.tasks[t].channel.OnMutex? <==> s.tasks[t].waitMutex.Some?
      ensures s.tasks[t].channel.OnMutex? ==> s.tasks[t].waitMutex.value == s.tasks[t].channel.id < MAX_MUTEXES
    {
      assert TaskOk(s, t);
    }
  }

  /** `mutex_update_priority`: the priority that is due, and a switch is asked for; a killed task
      keeps its priority. */
  method UpdatePriority(k: Kernel, t: nat)
    requires Shape(k.S()) && Linked(k.S()) && t < MAX_TASKS
    modifies k`needResched, k.tasks
    ensures old(k.tasks[t].killed) ==> k.S() == old(k.S())
    ensures !old(k.tasks[t].killed) ==>
              && IsDue(old(k.S()), t, k.tasks[t].priority)
              && k.S() == SetPriorityOf(old(k.S()), t, k.tasks[t].priority).(needResched := true)
  {
    if k.tasks[t].killed {
      return;
    }
    ghost var s := k.S();
    var priority := k.tasks[t].base;
    for i := 0 to MAX_TASKS
      invariant k.S() == s && s.tasks[t].base <= priority
      invariant forall w :: 0 <= w < i && Lends(s, w, t) ==> s.tasks[w].priority <= priority
      invariant || priority == s.tasks[t].base
                || exists w :: 0 <= w < i && Lends(s, w, t) && s.tasks[w].priority == priority
    {
      var waiter := k.tasks[i];
      if waiter.state.Blocked? && waiter.waitMutex.Some? {
        var mutex := k.mutexes[waiter.waitMutex.value];
        if mutex.owner == Some(t) && mutex.inherit && waiter.priority > priority {
          priority := waiter.priority;
        }
      }
    }
    k.tasks[t] := k.tasks[t].(priority := priority);
    k.needResched := true;
  }

  // ---- raising owners ----

  ghost function Below(tasks: seq<Task>, p: nat): set<nat> { set t | 0 <= t < |tasks| && tasks[t].priority < p }

  ghost predicate RaisedTask(a: Task, b: Task, p: nat) { b == a || (a.priority < p && b == a.(priority := p)) }

  /** Some tasks below `p` were raised to it. */
  ghost predicate Raised(s: State, r: State, p: nat)
    requires Shape(s) && Shape(r)
  {
    r == s.(tasks := r.tasks) && forall t :: 0 <= t < MAX_TASKS ==> RaisedTask(s.tasks[t], r.tasks[t], p)
  }

  /** While owners are raised along the chain: only `cur`, the next one, may be too low. */
  ghost predicate Boosting(s: State, r: State, owner: nat, cur: Option<nat>, p: nat)
    requires Shape(s) && Shape(r) && owner < MAX_TASKS
  {
    && Raised(s, r, p)
    && (cur.Some? ==> cur.value < MAX_TASKS)
    && (forall w, o :: 0 <= w < MAX_TASKS && 0 <= o < MAX_TASKS && Lends(s, w, o) ==>
          || r.tasks[w].priority <= r.tasks[o].priority
          || (cur == Some(o) && r.tasks[w].priority <= p))
    && (r.tasks[owner].priority >= p || cur == Some(owner))
  }

  /** Whatever priority is not justified yet is that of the first owner, by the task about to wait
      for it, or of the next owner, who will be raised. */
  ghost predicate BoostingExact(s: State, r: State, owner: nat, cur: Option<nat>, p: nat)
    requires Shape(s) && Shape(r) && owner < MAX_TASKS
  {
    forall t :: 0 <= t < MAX_TASKS && !s.tasks[t].killed ==>
      || Justified(r, t)
      || (t == owner && r.tasks[t].priority == p)
      || (cur == Some(t) && r.tasks[t].priority < p)
  }

  /** The next owner in the chain, as `mutex_boost` follows it. */
  function NextOwner(s: State, t: nat): Option<nat>
    requires t < |s.tasks|
  {
    var m := s.tasks[t].waitMutex;
    if m.Some? && m.value < |s.mutexes| && s.mutexes[m.value].inherit then s.mutexes[m.value].owner else None
  }

  lemma BoostStep(s: State, r: State, owner: nat, cur: nat, p: nat)
    requires Shape(s) && OwnershipOk(s) && Shape(r) && owner < MAX_TASKS && cur < MAX_TASKS
    requires Boosting(s, r, owner, Some(cur), p) && r.tasks[cur].priority < p
    ensures Boosting(s, SetPriorityOf(r, cur, p), owner, NextOwner(s, cur), p)
    ensures Below(SetPriorityOf(r, cur, p).tasks, p) == Below(r.tasks, p) - {cur} && cur in Below(r.tasks, p)
  {
    var x := SetPriorityOf(r, cur, p);
    assert RaisedTask(s.tasks[cur], r.tasks[cur], p);
    assert TaskOk(s, cur);
    if NextOwner(s, cur).Some? { assert MutexOk(s, s.tasks[cur].waitMutex.value); }
    forall w, o | 0 <= w < MAX_TASKS && 0 <= o < MAX_TASKS && Lends(s, w, o)
      ensures x.tasks[w].priority <= x.tasks[o].priority || (NextOwner(s, cur) == Some(o) && x.tasks[w].priority <= p)
    {
      LendsNext(s, w, o);
    }
  }

  lemma LendsNext(s: State, w: nat, o: nat)
    requires Shape(s) && OwnershipOk(s) && Lends(s, w, o)
    ensures NextOwner(s, w) == Some(o)
  {
    assert TaskOk(s, w);
  }

  /** A next owner that is still too low is waited for by a task raised to `p` already. */
  ghost predicate LeadsOn(s: State, r: State, owner: nat, cur: nat, p: nat)
    requires Shape(s) && Shape(r)
  {
    cur < MAX_TASKS && r.tasks[cur].priority < p ==>
      cur == owner || exists w :: 0 <= w < MAX_TASKS && Lends(s, w, cur) && r.tasks[w].priority == p
  }

  lemma LeadsFurther(s: State, r: State, owner: nat, cur: nat, p: nat)
    requires Shape(s) && OwnershipOk(s) && Shape(r) && owner < MAX_TASKS && cur < MAX_TASKS && !s.tasks[cur].killed
    ensures NextOwner(s, cur).Some? ==> LeadsOn(s, SetPriorityOf(r, cur, p), owner, NextOwner(s, cur).value, p)
  {
    assert TaskOk(s, cur);
    var x := SetPriorityOf(r, cur, p);
    if NextOwner(s, cur).Some? {
      if s.tasks[cur].state.Blocked? {
        assert Lends(s, cur, NextOwner(s, cur).value) && x.tasks[cur].priority == p;
      } else {
        assert NextOwner(s, cur).value == cur;
      }
    }
  }

  lemma BoostStepExact(s: State, r: State, owner: nat, cur: nat, p: nat)
    requires Shape(s) && OwnershipOk(s) && Shape(r) && owner < MAX_TASKS && cur < MAX_TASKS && p >= 1
    requires Raised(s, r, p) && r.tasks[cur].priority < p
    requires BoostingExact(s, r, owner, Some(cur), p)
    requires LeadsOn(s, r, owner, cur, p) && p <= PRIORITY_MAX
    ensures BoostingExact(s, SetPriorityOf(r, cur, p), owner, NextOwner(s, cur), p)
    ensures NextOwner(s, cur).Some? ==> LeadsOn(s, SetPriorityOf(r, cur, p), owner, NextOwner(s, cur).value, p)
  {
    NotKilledBelow(s, r, cur, p);
    LeadsFurther(s, r, owner, cur, p);
    LendsRaised(s, r, p);
    LendsSame(r, cur, p);
    NotToItself(s, cur);
    forall w, o | 0 <= w < MAX_TASKS && 0 <= o < MAX_TASKS && Lends(s, w, o) ensures NextOwner(s, w) == Some(o) {
      LendsNext(s, w, o);
    }
    hide Lends, NextOwner, OwnershipOk, Exact, Raised, Justified;
    forall t | 0 <= t < MAX_TASKS && !s.tasks[t].killed
      ensures var x := SetPriorityOf(r, cur, p);
              Justified(x, t) || (t == owner && x.tasks[t].priority == p)
              || (NextOwner(s, cur) == Some(t) && x.tasks[t].priority < p)
    {
      BoostStepAt(s, r, owner, cur, p, t);
    }
  }

  /** Who is below another task was not killed. */
  lemma NotKilledBelow(s: State, r: State, t: nat, p: nat)
    requires Shape(s) && OwnershipOk(s) && Shape(r) && Raised(s, r, p) && t < MAX_TASKS
    requires r.tasks[t].priority < p <= PRIORITY_MAX
    ensures !s.tasks[t].killed
  {
    assert TaskOk(s, t) && RaisedTask(s.tasks[t], r.tasks[t], p);
  }

  lemma BoostStepAt(s: State, r: State, owner: nat, cur: nat, p: nat, t: nat)
    requires Shape(s) && Shape(r) && owner < MAX_TASKS && cur < MAX_TASKS && t < MAX_TASKS && r.tasks[cur].priority < p
    requires Justified(r, t) || (t == owner && r.tasks[t].priority == p) || (cur == t && r.tasks[t].priority < p)
    requires LeadsOn(s, r, owner, cur, p) && !Lends(s, cur, cur)
    requires forall w, o :: 0 <= w < MAX_TASKS && 0 <= o < MAX_TASKS ==>
               && (Lends(r, w, o) <==> Lends(s, w, o)) && (Lends(SetPriorityOf(r, cur, p), w, o) <==> Lends(r, w, o))
    requires forall o :: 0 <= o < MAX_TASKS && Lends(s, cur, o) ==> NextOwner(s, cur) == Some(o)
    ensures var x := SetPriorityOf(r, cur, p);
            Justified(x, t) || (t == owner && x.tasks[t].priority == p)
            || (NextOwner(s, cur) == Some(t) && x.tasks[t].priority < p)
  {
    var x := SetPriorityOf(r, cur, p);
    hide Lends, NextOwner;
    if t == cur {
      if cur != owner {
        var w :| 0 <= w < MAX_TASKS && Lends(s, w, cur) && r.tasks[w].priority == p;
        assert Lends(x, w, t) && x.tasks[w].priority == x.tasks[t].priority;
      }
    } else if Justified(r, t) && r.tasks[t].priority != r.tasks[t].base {
      var w :| 0 <= w < MAX_TASKS && Lends(r, w, t) && r.tasks[w].priority == r.tasks[t].priority;
      if w != cur { assert Lends(x, w, t) && x.tasks[w].priority == x.tasks[t].priority; }
    }
  }

  lemma LendsRaised(s: State, r: State, p: nat)
    requires Shape(s) && Shape(r) && Raised(s, r, p)
    ensures forall w, o :: 0 <= w < MAX_TASKS && 0 <= o < MAX_TASKS ==> (Lends(r, w, o) <==> Lends(s, w, o))
  {
    assert forall t :: 0 <= t < MAX_TASKS ==> RaisedTask(s.tasks[t], r.tasks[t], p);
  }

  lemma BelowSmall(s: State)
    requires Shape(s)
    ensures |Below(s.tasks, s.tasks[s.running].priority)| <= MAX_TASKS - 1
  {
    SubsetSize(Below(s.tasks, s.tasks[s.running].priority), Upto(MAX_TASKS) - {s.running});
  }

  ghost function Upto(n: nat): (r: set<nat>)
    ensures |r| == n && forall t: nat :: t in r <==> t < n
  {
    if n == 0 then {}
    else
      var less := Upto(n - 1);
      assert n - 1 !in less;
      less + {n - 1}
  }

  lemma {:induction false} SubsetSize(a: set<nat>, b: set<nat>)
    requires a <= b
    ensures |a| <= |b|
    decreases a
  {
    if a != {} {
      var x :| x in a;
      SubsetSize(a - {x}, b - {x});
    }
  }

  lemma BoostStart(s: State, owner: nat, p: nat)
    requires Shape(s) && OwnershipOk(s) && Inherits(s) && owner < MAX_TASKS
    ensures Boosting(s, s, owner, Some(owner), p)
    ensures Exact(s) ==> BoostingExact(s, s, owner, Some(owner), p) && LeadsOn(s, s, owner, owner, p)
  {}

  /** What `mutex_boost` does: owners are raised to `p`, as far as inheritance asks for it. */
  ghost predicate Boosted(s: State, r: State, owner: nat, p: nat)
    requires Shape(s) && Shape(r) && owner < MAX_TASKS
  {
    && Raised(s, r, p) && Inherits(r) && r.tasks[owner].priority >= p
    && (Exact(s) ==>
          forall t :: 0 <= t < MAX_TASKS && !s.tasks[t].killed ==>
              Justified(r, t) || (t == owner && r.tasks[t].priority == p))
  }

  lemma BoostEnd(s: State, r: State, owner: nat, cur: Option<nat>, p: nat)
    requires Shape(s) && Shape(r) && owner < MAX_TASKS && Boosting(s, r, owner, cur, p)
    requires cur.None? || r.tasks[cur.value].priority >= p
    requires Exact(s) ==> BoostingExact(s, r, owner, cur, p)
    ensures Boosted(s, r, owner, p)
  {
    LendsRaised(s, r, p);
    hide Lends, Justified, RaisedTask;
  }

  /** What `mutex_boost` does: from `cur` on, each owner that is below `p` is raised to it, and the one
      it waits for in turn, as far as `depth` allows. */
  ghost function BoostedBy(s: State, cur: Option<nat>, p: nat, depth: nat): (r: State)
    requires Shape(s)
    ensures Shape(r)
    decreases depth
  {
    if cur.None? || depth == 0 || cur.value >= MAX_TASKS || s.tasks[cur.value].priority >= p then s
    else BoostedBy(SetPriorityOf(s, cur.value, p), NextOwner(s, cur.value), p, depth - 1)
  }

  lemma {:induction false} BoostRaises(s: State, cur: Option<nat>, p: nat, depth: nat)
    requires Shape(s)
    ensures Raised(s, BoostedBy(s, cur, p, depth), p)
    ensures cur.Some? && depth > 0 && cur.value < MAX_TASKS ==>
              BoostedBy(s, cur, p, depth).tasks[cur.value].priority >= p
    decreases depth
  {
    if cur.Some? && depth > 0 && cur.value < MAX_TASKS && s.tasks[cur.value].priority < p {
      var x := SetPriorityOf(s, cur.value, p);
      BoostRaises(x, NextOwner(s, cur.value), p, depth - 1);
      RaisedOnce(s, cur.value, p);
      RaisedTwice(s, x, BoostedBy(x, NextOwner(s, cur.value), p, depth - 1), p);
    }
  }

  lemma RaisedOnce(s: State, t: nat, p: nat)
    requires Shape(s) && t < MAX_TASKS && s.tasks[t].priority < p
    ensures Raised(s, SetPriorityOf(s, t, p), p)
  {}

  lemma RaisedTwice(s: State, r: State, x: State, p: nat)
    requires Shape(s) && Shape(r) && Shape(x) && Raised(s, r, p) && Raised(r, x, p)
    ensures Raised(s, x, p) && forall t :: 0 <= t < MAX_TASKS ==> x.tasks[t].priority >= r.tasks[t].priority
  {
    forall t | 0 <= t < MAX_TASKS
      ensures RaisedTask(s.tasks[t], x.tasks[t], p) && x.tasks[t].priority >= r.tasks[t].priority
    {
      assert RaisedTask(s.tasks[t], r.tasks[t], p) && RaisedTask(r.tasks[t], x.tasks[t], p);
    }
  }

  /** The depth limit never cuts the propagation short, not even for tasks waiting on each other: every
      round raises another task, and the one that starts it is not below itself. */
  lemma {:induction false} DepthEnough(s: State, cur: Option<nat>, p: nat, depth: nat, more: nat)
    requires Shape(s) && |Below(s.tasks, p)| < depth
    ensures BoostedBy(s, cur, p, depth + more) == BoostedBy(s, cur, p, depth)
    decreases depth
  {
    if cur.Some? && cur.value < MAX_TASKS && s.tasks[cur.value].priority < p {
      var x := SetPriorityOf(s, cur.value, p);
      assert Below(x.tasks, p) == Below(s.tasks, p) - {cur.value} && cur.value in Below(s.tasks, p);
      DepthEnough(x, NextOwner(s, cur.value), p, depth - 1, more);
    }
  }

  /** The limit of the code is enough for the priority of the running task. */
  lemma BoostUnlimited(s: State, owner: nat, depth: nat)
    requires Shape(s) && depth >= MAX_TASKS
    ensures var p := s.tasks[s.running].priority;
            BoostedBy(s, Some(owner), p, depth) == BoostedBy(s, Some(owner), p, MAX_TASKS)
  {
    BelowSmall(s);
    DepthEnough(s, Some(owner), s.tasks[s.running].priority, MAX_TASKS, depth - MAX_TASKS);
  }

  /** If owners inherited priorities before, they do afterwards. */
  lemma BoostInherits(s: State, owner: nat)
    requires Shape(s) && OwnershipOk(s) && Inherits(s) && owner < MAX_TASKS
    ensures var p := s.tasks[s.running].priority;
            Boosted(s, BoostedBy(s, Some(owner), p, MAX_TASKS), owner, p)
  {
    hide Boosting, BoostingExact, LeadsOn, OwnershipOk, Inherits, Exact, Below, Boosted, BoostedBy;
    BelowSmall(s);
    PriorityInRange(s, s.running);
    BoostStart(s, owner, s.tasks[s.running].priority);
    BoostGoesOn(s, s, owner, Some(owner), s.tasks[s.running].priority, MAX_TASKS);
  }

  lemma PriorityInRange(s: State, t: nat)
    requires Shape(s) && OwnershipOk(s) && t < MAX_TASKS
    ensures s.tasks[t].priority <= PRIORITY_MAX
  {
    assert TaskOk(s, t);
  }

  lemma {:induction false} BoostGoesOn(s: State, r: State, owner: nat, cur: Option<nat>, p: nat, depth: nat)
    requires Shape(s) && OwnershipOk(s) && Shape(r) && owner < MAX_TASKS && p <= PRIORITY_MAX
    requires Boosting(s, r, owner, cur, p) && |Below(r.tasks, p)| < depth
    requires Exact(s) ==> BoostingExact(s, r, owner, cur, p) && (cur.Some? ==> LeadsOn(s, r, owner, cur.value, p))
    ensures Boosted(s, BoostedBy(r, cur, p, depth), owner, p)
    decreases depth
  {
    hide Boosting, BoostingExact, LeadsOn, OwnershipOk, Exact, Below, Boosted;
    BoostingParts(s, r, owner, cur, p);
    if cur.Some? && r.tasks[cur.value].priority < p {
      BoostStep(s, r, owner, cur.value, p);
      if Exact(s) { BoostStepExact(s, r, owner, cur.value, p); }
      SameNext(s, r, cur.value, p);
      BoostGoesOn(s, SetPriorityOf(r, cur.value, p), owner, NextOwner(s, cur.value), p, depth - 1);
    } else {
      BoostEnd(s, r, owner, cur, p);
    }
  }

  lemma SameNext(s: State, r: State, t: nat, p: nat)
    requires Shape(s) && Shape(r) && Raised(s, r, p) && t < MAX_TASKS
    ensures NextOwner(r, t) == NextOwner(s, t)
  {
    assert RaisedTask(s.tasks[t], r.tasks[t], p);
  }

  lemma BoostingParts(s: State, r: State, owner: nat, cur: Option<nat>, p: nat)
    requires Shape(s) && Shape(r) && owner < MAX_TASKS && Boosting(s, r, owner, cur, p)
    ensures Raised(s, r, p) && (cur.Some? ==> cur.value < MAX_TASKS) && r.mutexes == s.mutexes
  {}

  /** Owners are tasks, and mutexes waited for are mutexes. */
  ghost predicate InTables(s: State)
    requires Shape(s)
  {
    && (forall t :: 0 <= t < MAX_TASKS && s.tasks[t].waitMutex.Some? ==> s.tasks[t].waitMutex.value < MAX_MUTEXES)
    && (forall m :: 0 <= m < MAX_MUTEXES && s.mutexes[m].owner.Some? ==> s.mutexes[m].owner.value < MAX_TASKS)
  }

  lemma OwnershipInTables(s: State)
    requires Shape(s) && OwnershipOk(s)
    ensures InTables(s)
  {
    forall t | 0 <= t < MAX_TASKS && s.tasks[t].waitMutex.Some?
      ensures s.tasks[t].waitMutex.value < MAX_MUTEXES
    {
      assert TaskOk(s, t);
    }
    forall m | 0 <= m < MAX_MUTEXES && s.mutexes[m].owner.Some?
      ensures s.mutexes[m].owner.value < MAX_TASKS
    {
      assert MutexOk(s, m);
    }
  }

  lemma BoostOnce(s: State, cur: nat, p: nat, depth: nat)
    requires Shape(s) && InTables(s) && cur < MAX_TASKS && depth > 0
    ensures s.tasks[cur].waitMutex.Some? ==> s.tasks[cur].waitMutex.value < MAX_MUTEXES
    ensures NextOwner(s, cur).Some? ==> NextOwner(s, cur).value < MAX_TASKS
    ensures InTables(SetPriorityOf(s, cur, p))
    ensures BoostedBy(s, Some(cur), p, depth)
            == if s.tasks[cur].priority >= p then s
               else BoostedBy(SetPriorityOf(s, cur, p), NextOwner(s, cur), p, depth - 1)
  {}

  lemma BoostOver(s: State, cur: Option<nat>, p: nat, depth: nat)
    requires Shape(s)
    ensures cur.None? || depth == 0 || (cur.value < MAX_TASKS && s.tasks[cur.value].priority >= p) ==>
              BoostedBy(s, cur, p, depth) == s
  {}

  /** `mutex_boost`, for the running task. */
  method Boost(k: Kernel, owner: nat)
    requires Shape(k.S()) && OwnershipOk(k.S()) && owner < MAX_TASKS
    modifies k.tasks
    ensures k.S() == BoostedBy(old(k.S()), Some(owner), old(k.tasks[k.running].priority), MAX_TASKS)
    ensures Raised(old(k.S()), k.S(), old(k.tasks[k.running].priority))
    ensures k.tasks[owner].priority >= old(k.tasks[k.running].priority)
    ensures old(Inherits(k.S())) ==> Boosted(old(k.S()), k.S(), owner, old(k.tasks[k.running].priority))
  {
    hide OwnershipOk, Inherits, Boosted, Raised, BoostedBy, InTables;
    ghost var s := k.S();
    var priority := k.tasks[k.running].priority;
    var cur: Option<nat> := Some(owner);
    var depth := 0;
    OwnershipInTables(s);
    while cur.Some? && depth < MAX_TASKS
      invariant Shape(k.S()) && InTables(k.S()) && depth <= MAX_TASKS && (cur.Some? ==> cur.value < MAX_TASKS)
      invariant BoostedBy(s, Some(owner), priority, MAX_TASKS) == BoostedBy(k.S(), cur, priority, MAX_TASKS - depth)
      decreases MAX_TASKS - depth
    {
      BoostOnce(k.S(), cur.value, priority, MAX_TASKS - depth);
      if k.tasks[cur.value].priority >= priority {
        break;
      }
      ghost var r := k.S();
      k.tasks[cur.value] := k.tasks[cur.value].(priority := priority);
      assert k.S() == SetPriorityOf(r, cur.value, priority);
      var next := k.tasks[cur.value].waitMutex;
      cur := if next.Some? && k.mutexes[next.value].inherit then k.mutexes[next.value].owner else None;
      depth := depth + 1;
    }
    BoostOver(k.S(), cur, priority, MAX_TASKS - depth);
    BoostRaises(s, Some(owner), priority, MAX_TASKS);
    if Inherits(s) { BoostInherits(s, owner); }
  }

  // ---- waiting ----

  /** The running task waits for mutex `m`. */
  function Waiting(s: State, m: nat): State
    requires s.running < |s.tasks|
  {
    SetTask(s, s.running, s.tasks[s.running].(state := Blocked, channel := OnMutex(m), waitMutex := Some(m)))
  }

  lemma RaisedOwnership(s: State, r: State, p: nat)
    requires Shape(s) && OwnershipOk(s) && Shape(r) && Raised(s, r, p) && p <= PRIORITY_MAX
    ensures OwnershipOk(r)
  {
    forall t | 0 <= t < MAX_TASKS ensures TaskOk(r, t) && r.tasks[t].mutexes == s.tasks[t].mutexes {
      assert TaskOk(s, t) && RaisedTask(s.tasks[t], r.tasks[t], p);
    }
    hide TaskOk;
    forall m | 0 <= m < MAX_MUTEXES ensures MutexOk(r, m) {
      assert MutexOk(s, m);
      assert Holders(r.tasks, m) == Holders(s.tasks, m);
    }
  }

  lemma WaitingOwnership(s: State, m: nat)
    requires Shape(s) && OwnershipOk(s) && m in s.tasks[s.running].mutexes && m < MAX_MUTEXES
    requires s.tasks[s.running].state.Running?
    requires s.mutexes[m].owner.Some? && s.mutexes[m].owner.value != s.running
    ensures OwnershipOk(Waiting(s, m))
  {
    var r := Waiting(s, m);
    forall t | 0 <= t < MAX_TASKS
      ensures TaskOk(r, t) && r.tasks[t].mutexes == s.tasks[t].mutexes
    {
      assert TaskOk(s, t);
    }
    hide TaskOk;
    forall i | 0 <= i < MAX_MUTEXES ensures MutexOk(r, i) {
      assert MutexOk(s, i);
      assert Holders(r.tasks, i) == Holders(s.tasks, i);
    }
  }

  lemma WaitingLends(s: State, m: nat)
    requires Shape(s) && m < MAX_MUTEXES && !s.tasks[s.running].state.Blocked?
    ensures forall w, o :: 0 <= w < MAX_TASKS && 0 <= o < MAX_TASKS ==>
              (Lends(Waiting(s, m), w, o) <==>
                 if w == s.running then s.mutexes[m].inherit && s.mutexes[m].owner == Some(o) else Lends(s, w, o))
  {}

  /** The running task waits for the owner `o` of mutex `m`, whose priority was raised if the mutex
      says so. */
  lemma WaitingKeeps(s: State, r: State, m: nat, o: nat)
    requires Inv(s) && Shape(r) && m in s.tasks[s.running].mutexes && m < MAX_MUTEXES && s.running != s.idle
    requires s.mutexes[m].owner == Some(o) && o != s.running && o < MAX_TASKS
    requires if s.mutexes[m].inherit then Raised(s, r, s.tasks[s.running].priority) else r == s
    requires s.mutexes[m].inherit && Inherits(s) ==> Boosted(s, r, o, s.tasks[s.running].priority)
    ensures Core(Waiting(r, m)) && PrioritiesKept(s, Waiting(r, m))
  {
    var p := s.tasks[s.running].priority;
    assert TaskOk(s, s.running);
    RaisedSame(s, r, p);
    RaisedOwnership(s, r, p);
    WaitingOwnership(r, m);
    WaitingLends(r, m);
    hide OwnershipOk, Lends, TaskOk, Raised;
    var x := Waiting(r, m);
    if Inherits(s) && Exact(s) {
      forall t | 0 <= t < MAX_TASKS && !x.tasks[t].killed ensures Justified(x, t) {
        assert Justified(s, t);
        if Justified(r, t) && r.tasks[t].priority != r.tasks[t].base {
          var w :| 0 <= w < MAX_TASKS && Lends(r, w, t) && r.tasks[w].priority == r.tasks[t].priority;
          NotBlockedNoLoan(r, r.running, t);
          assert Lends(x, w, t) && x.tasks[w].priority == x.tasks[t].priority;
        } else if !Justified(r, t) {
          assert Lends(x, r.running, t) && x.tasks[r.running].priority == x.tasks[t].priority;
        }
      }
    }
  }

  lemma NotBlockedNoLoan(s: State, w: nat, o: nat)
    requires Shape(s) && w < MAX_TASKS && !s.tasks[w].state.Blocked?
    ensures !Lends(s, w, o)
  {}

  /** What raising priorities leaves alone. */
  lemma RaisedSame(s: State, r: State, p: nat)
    requires Shape(s) && Shape(r) && (r == s || Raised(s, r, p)) && s.tasks[s.running].priority == p
    ensures Raised(s, r, p) && r.running == s.running && r.idle == s.idle && r.mutexes == s.mutexes
    ensures forall t :: 0 <= t < MAX_TASKS ==>
              && r.tasks[t].state == s.tasks[t].state && r.tasks[t].killed == s.tasks[t].killed
              && r.tasks[t].isKernel == s.tasks[t].isKernel && r.tasks[t].base == s.tasks[t].base
    ensures r.tasks[s.running] == s.tasks[s.running]
  {
    assert forall t :: 0 <= t < MAX_TASKS ==> RaisedTask(s.tasks[t], r.tasks[t], p);
  }

  // ---- handing over ----

  /** `next` is the waiter of mutex `m` with the highest priority, the first one of these. */
  ghost predicate IsNext(s: State, m: nat, next: Option<nat>)
    requires Shape(s)
  {
    match next
    case None => forall w :: 0 <= w < MAX_TASKS ==> !IsWaiter(s, w, m)
    case Some(n) =>
      && IsWaiter(s, n, m)
      && forall w :: 0 <= w < MAX_TASKS && IsWaiter(s, w, m) ==>
           s.tasks[w].priority < s.tasks[n].priority || (s.tasks[w].priority == s.tasks[n].priority && n <= w)
  }

  function WithOwner(s: State, m: nat, owner: Option<nat>): State
    requires m < |s.mutexes|
  {
    s.(mutexes := s.mutexes[m := s.mutexes[m].(owner := owner)])
  }

  /** Mutex `m` has its next owner, who is awake. */
  function HandedOver(s: State, m: nat, next: Option<nat>): State
    requires s.running < |s.tasks| && m < |s.mutexes| && (next.Some? ==> next.value < |s.tasks|)
  {
    var r := WithOwner(s, m, next);
    if next.Some? then Woken(r, next.value) else r
  }

  lemma HandedOwnership(s: State, m: nat, next: Option<nat>)
    requires Shape(s) && OwnershipOk(s) && m < MAX_MUTEXES && IsNext(s, m, next)
    requires s.mutexes[m].owner == Some(s.running)
    requires s.tasks[s.running].channel == NoChannel
    ensures OwnershipOk(HandedOver(s, m, next))
  {
    hide Preempting;
    var r := HandedOver(s, m, next);
    forall t | 0 <= t < MAX_TASKS ensures TaskOk(r, t) && r.tasks[t].mutexes == s.tasks[t].mutexes {
      assert TaskOk(s, t);
      assert IsWaiter(s, t, m) ==> next.Some? && IsWaiter(s, next.value, m);
    }
    if next.Some? { assert TaskOk(s, next.value); }
    hide TaskOk;
    forall i | 0 <= i < MAX_MUTEXES ensures MutexOk(r, i) {
      assert MutexOk(s, i);
      assert Holders(r.tasks, i) == Holders(s.tasks, i);
    }
    assert NamesDistinct(r.mutexes);
  }

  /** Handing over wakes just the next owner; no waiter of it is above it. */
  lemma HandedInherits(s: State, m: nat, next: Option<nat>)
    requires Shape(s) && OwnershipOk(s) && m < MAX_MUTEXES && IsNext(s, m, next)
    requires s.mutexes[m].owner == Some(s.running)
    ensures Inherits(s) ==> Inherits(HandedOver(s, m, next))
    ensures Exact(s) ==> ExactBut(HandedOver(s, m, next), s.running)
  {
    hide Preempting;
    var r := HandedOver(s, m, next);
    forall w, o | 0 <= w < MAX_TASKS && 0 <= o < MAX_TASKS
      ensures Inherits(s) && Lends(r, w, o) ==> r.tasks[w].priority <= r.tasks[o].priority
      ensures Lends(s, w, o) && o != s.running ==> Lends(r, w, o)
      ensures r.tasks[w].priority == s.tasks[w].priority && r.tasks[w].base == s.tasks[w].base
    {
      assert TaskOk(s, w);
      if Lends(r, w, o) && !Lends(s, w, o) { assert IsWaiter(s, w, m); }
    }
    hide Lends, OwnershipOk;
    if Exact(s) {
      forall t | 0 <= t < MAX_TASKS && t != s.running && !r.tasks[t].killed ensures Justified(r, t) {
        assert Justified(s, t);
      }
    }
  }

  lemma HandedSched(s: State, m: nat, next: Option<nat>)
    requires Shape(s) && SchedOk(s) && Preempts(s) && m < MAX_MUTEXES && IsNext(s, m, next)
    requires !s.tasks[s.running].state.Blocked?
    ensures Shape(HandedOver(s, m, next)) && SchedOk(HandedOver(s, m, next)) && Preempts(HandedOver(s, m, next))
  {
  }

  /** What `mutex_hand_over` does: the next owner has the mutex and is awake, and the priority of the
      old one is what is due then; a killed task keeps the highest. */
  ghost predicate Handed(s: State, r: State, m: nat, next: Option<nat>)
    requires Shape(s) && Shape(r) && m < MAX_MUTEXES
  {
    && IsNext(s, m, next) && (next.Some? ==> next.value < MAX_TASKS)
    && var mid, p := HandedOver(s, m, next), r.tasks[s.running].priority;
       && Shape(mid)
       && if s.tasks[s.running].killed then r == mid
          else IsDue(mid, s.running, p) && r == SetPriorityOf(mid, s.running, p).(needResched := true)
  }

  method NextWaiter(k: Kernel, m: nat) returns (next: Option<nat>)
    requires Shape(k.S())
    ensures IsNext(k.S(), m, next) && (next.Some? ==> next.value < MAX_TASKS)
  {
    ghost var s := k.S();
    next := None;
    for i := 0 to MAX_TASKS
      invariant k.S() == s && (next.Some? ==> next.value < i)
      invariant next.None? ==> forall w :: 0 <= w < i ==> !IsWaiter(s, w, m)
      invariant next.Some? ==>
                  && IsWaiter(s, next.value, m)
                  && forall w :: 0 <= w < i && IsWaiter(s, w, m) ==>
                       s.tasks[w].priority < s.tasks[next.value].priority
                       || (s.tasks[w].priority == s.tasks[next.value].priority && next.value <= w)
    {
      if k.tasks[i].state.Blocked? && k.tasks[i].channel == OnMutex(m)
         && (next.None? || k.tasks[i].priority > k.tasks[next.value].priority) {
        next := Some(i);
      }
    }
  }

  /** `mutex_hand_over`, by the running task: its highest priority waiter gets the mutex, and the old
      owner's priority is recomputed. */
  method HandOver(k: Kernel, m: nat) returns (ghost next: Option<nat>)
    requires Working(k.S()) && m < MAX_MUTEXES && k.mutexes[m].owner == Some(k.running)
    requires k.tasks[k.running].channel == NoChannel && !k.tasks[k.running].state.Blocked?
    modifies k`needResched, k.tasks, k.mutexes
    ensures Working(k.S()) && PrioritiesKept(old(k.S()), k.S())
    ensures IsNext(old(k.S()), m, next) && Handed(old(k.S()), k.S(), m, next)
    ensures k.mutexes[..] == old(k.mutexes[..])[m := old(k.mutexes[m]).(owner := next)]
    ensures k.tasks[k.running] == old(k.tasks[k.running]).(priority := k.tasks[k.running].priority)
    ensures forall t :: 0 <= t < MAX_TASKS && t != k.running ==>
              k.tasks[t] == if next == Some(t) then old(k.tasks[t]).(state := Ready) else old(k.tasks[t])
  {
    hide OwnershipOk, Inherits, Exact, SchedOk, Preempts, Preempting, IsDue, IsNext, ExactBut;
    ghost var s := k.S();
    var best := NextWaiter(k, m);
    next := best;
    HandedOwnership(s, m, best);
    HandedInherits(s, m, best);
    HandedSched(s, m, best);
    k.mutexes[m] := k.mutexes[m].(owner := best);
    if best.Some? {
      Wake(k, best.value);
    }
    ghost var mid := k.S();
    assert mid == HandedOver(s, m, best);
    HandedTasks(s, m, best);
    OwnershipLinked(mid);
    UpdatePriority(k, k.running);
    if !mid.tasks[k.running].killed {
      UpdatedKeeps(mid, k.tasks[k.running].priority);
    } else {
      ExactButKilled(mid, k.running);
    }
  }

  lemma HandedTasks(s: State, m: nat, next: Option<nat>)
    requires Shape(s) && m < MAX_MUTEXES && IsNext(s, m, next) && !s.tasks[s.running].state.Blocked?
    ensures var r := HandedOver(s, m, next);
            && Shape(r) && r.tasks[s.running] == s.tasks[s.running] && r.running == s.running
            && r.mutexes == s.mutexes[m := s.mutexes[m].(owner := next)]
            && forall t :: 0 <= t < MAX_TASKS ==>
                 r.tasks[t] == if next == Some(t) then s.tasks[t].(state := Ready) else s.tasks[t]
  {
    hide Preempting;
  }

  lemma ExactButKilled(s: State, t: nat)
    requires Shape(s) && t < MAX_TASKS && s.tasks[t].killed
    ensures ExactBut(s, t) ==> Exact(s)
  {}

  /** Recomputing the priority of the running task, with a switch asked for. */
  lemma UpdatedKeeps(s: State, p: nat)
    requires Working(s) && IsDue(s, s.running, p) && !s.tasks[s.running].killed && !s.tasks[s.running].state.Blocked?
    ensures Working(SetPriorityOf(s, s.running, p).(needResched := true))
    ensures var r := SetPriorityOf(s, s.running, p).(needResched := true);
            (Inherits(s) ==> Inherits(r)) && (Inherits(s) && ExactBut(s, s.running) ==> Exact(r))
  {
    DueKeeps(s, s.running, p);
    AskedKeeps(SetPriorityOf(s, s.running, p));
    hide OwnershipOk, IsDue, SchedOk;
    forall o | 0 <= o < MAX_TASKS ensures !Lends(s, s.running, o) {}
  }

  lemma AskedKeeps(s: State)
    requires Core(s)
    ensures Working(s.(needResched := true)) && PrioritiesKept(s, s.(needResched := true))
  {
    SameViewKeeps(s, s.(needResched := true));
    hide OwnershipOk, Inherits, Exact;
  }
}
