/**
 The registry of running turns: who is busy, who waits for whom to be idle, and the fence that
 shuts the daemon down.
 */
module TurnRegistry {
  type Controller = nat

  /**
   `waiters` holds the numbers of the `waitForAgentIdle` calls still pending on each agent;
   `releases` says which agents the abort listeners of a controller unregister synchronously.
   */
  datatype Registry = Registry(
    active: map<string, Controller>,
    waiters: map<string, set<nat>>,
    resolved: set<nat>,
    awaited: map<nat, (string, Controller)>,   // the registration each pending call waited for
    stopping: bool,
    stopWaits: map<string, nat>,               // the calls the stop promise is made of
    aborted: set<Controller>,
    calls: nat,
    releases: map<Controller, set<string>>)
  {
    function WaitersOf(agent: string): set<nat> {
      if agent in waiters then waiters[agent] else {}
    }

    function ReleasedBy(c: Controller): set<string> {
      if c in releases then releases[c] else {}
    }

    /** The promise that `stopAgentTurns` returned has resolved. */
    predicate StopResolved() {
      stopping && forall a | a in stopWaits :: stopWaits[a] in resolved
    }
  }

  datatype Event =
    | Register(agent: string, controller: Controller)
    | Unregister(agent: string)
    | Cancel(agent: string)
    | Wait(agent: string)
    | Stop(order: seq<string>)

  /** Several registrations end; everyone who waited for one of them is resolved. */
  function Drop(s: Registry, agents: set<string>): Registry {
    s.(active := s.active - agents,
       waiters := s.waiters - agents,
       resolved := s.resolved + (set a, w | a in agents && a in s.waiters && w in s.waiters[a] :: w))
  }

  /** `controller.abort()`: the listeners run once. */
  function Abort(s: Registry, c: Controller): Registry {
    if c in s.aborted then s
    else Drop(s.(aborted := s.aborted + {c}), s.ReleasedBy(c))
  }

  function AwaitIdle(s: Registry, agent: string): Registry {
    if agent !in s.active then s.(resolved := s.resolved + {s.calls}, calls := s.calls + 1)
    else s.(waiters := s.waiters[agent := s.WaitersOf(agent) + {s.calls}],
            awaited := s.awaited[s.calls := (agent, s.active[agent])],
            calls := s.calls + 1)
  }

  /** The stop promise waits for every agent in `order`. */
  function Install(s: Registry, order: seq<string>): Registry {
    if order == [] then s
    else
      var t := Install(s, order[..|order| - 1]);
      var a := order[|order| - 1];
      AwaitIdle(t, a).(stopWaits := t.stopWaits[a := t.calls])
  }

  function AbortAll(s: Registry, cs: seq<Controller>): Registry {
    if cs == [] then s else Abort(AbortAll(s, cs[..|cs| - 1]), cs[|cs| - 1])
  }

  /** `[...state.active]`: every active agent once. */
  predicate Enumerates(order: seq<string>, active: map<string, Controller>) {
    && (forall a | a in order :: a in active) && (forall a | a in active :: a in order)
    && (forall i, j | 0 <= i < j < |order| :: order[i] != order[j])
  }

  function Controllers(order: seq<string>, active: map<string, Controller>): seq<Controller>
    requires forall a | a in order :: a in active
  {
    seq(|order|, i requires 0 <= i < |order| => active[order[i]])
  }

  predicate Enabled(s: Registry, e: Event) {
    e.Stop? && !s.stopping ==> Enumerates(e.order, s.active)
  }

  function Next(s: Registry, e: Event): Registry
    requires Enabled(s, e)
  {
    match e
    case Register(a, c) => if s.stopping || a in s.active then s else s.(active := s.active[a := c])
    case Unregister(a) => if a in s.active then Drop(s, {a}) else s
    case Cancel(a) => if a in s.active then Abort(s, s.active[a]) else s
    case Wait(a) => AwaitIdle(s, a)
    case Stop(order) =>
      if s.stopping then s
      else AbortAll(Install(s.(stopping := true), order), Controllers(order, s.active))
  }

  // ---------------------------------------------------------------- the invariant

  /** Waiters exist only for active agents, and each waits for the registration that is there. */
  ghost predicate WaitersOk(s: Registry) {
    forall a | a in s.waiters ::
      && a in s.active
      && forall w | w in s.waiters[a] :: w < s.calls && w in s.awaited && s.awaited[w] == (a, s.active[a])
  }

  /** Every call is pending or resolved, and never both. */
  ghost predicate CallsOk(s: Registry) {
    && (forall w | w in s.resolved :: w < s.calls)
    && (forall a, w | a in s.waiters && w in s.waiters[a] :: w !in s.resolved)
    && (forall w: nat | w < s.calls :: w in s.resolved || Pending(s, w))
  }

  ghost predicate Pending(s: Registry, w: nat) {
    w in s.awaited && s.awaited[w].0 in s.waiters && w in s.waiters[s.awaited[w].0]
  }

  /** Before a stop nothing is installed. */
  ghost predicate FenceOk(s: Registry) {
    && (!s.stopping ==> s.stopWaits == map[])
    && (s.stopping ==> s.active.Keys <= s.stopWaits.Keys)
    && StopWaitsOk(s)
  }

  /** A call of the stop promise is pending exactly while its agent is active. */
  ghost predicate StopWaitsOk(s: Registry) {
    forall a | a in s.stopWaits ::
      if a in s.active then a in s.waiters && s.stopWaits[a] in s.waiters[a]
      else s.stopWaits[a] in s.resolved
  }

  ghost predicate Inv(s: Registry) {
    WaitersOk(s) && CallsOk(s) && FenceOk(s)
  }

  lemma DropKeeps(s: Registry, agents: set<string>)
    requires WaitersOk(s) && CallsOk(s) && StopWaitsOk(s)
    ensures var t := Drop(s, agents); WaitersOk(t) && CallsOk(t) && StopWaitsOk(t)
    ensures FenceOk(s) ==> FenceOk(Drop(s, agents))
  {
    var t := Drop(s, agents);
    forall a, b, w | a in s.waiters && b in s.waiters && w in s.waiters[a] && w in s.waiters[b] ensures a == b {
      assert s.awaited[w].0 == a;
      assert s.awaited[w].0 == b;
    }
    forall w: nat | w < t.calls ensures w in t.resolved || Pending(t, w) {
      assert w in s.resolved || Pending(s, w);
    }
  }

  lemma AbortKeeps(s: Registry, c: Controller)
    requires WaitersOk(s) && CallsOk(s) && StopWaitsOk(s)
    ensures var t := Abort(s, c); WaitersOk(t) && CallsOk(t) && StopWaitsOk(t)
    ensures FenceOk(s) ==> FenceOk(Abort(s, c))
  {
    if c !in s.aborted { DropKeeps(s.(aborted := s.aborted + {c}), s.ReleasedBy(c)); }
  }

  lemma WaitOnIdleKeeps(s: Registry, agent: string)
    requires WaitersOk(s) && CallsOk(s) && StopWaitsOk(s) && agent !in s.active
    ensures var t := AwaitIdle(s, agent); WaitersOk(t) && CallsOk(t) && StopWaitsOk(t)
  {
    var t := AwaitIdle(s, agent);
    forall w: nat | w < t.calls ensures w in t.resolved || Pending(t, w) {
      assert w < s.calls ==> w in s.resolved || Pending(s, w);
    }
  }

  lemma WaitOnActiveKeeps(s: Registry, agent: string)
    requires WaitersOk(s) && CallsOk(s) && StopWaitsOk(s) && agent in s.active
    ensures var t := AwaitIdle(s, agent); WaitersOk(t) && CallsOk(t) && StopWaitsOk(t)
  {
    var t := AwaitIdle(s, agent);
    forall w: nat | w < t.calls ensures w in t.resolved || Pending(t, w) {
      if w < s.calls { assert w in s.resolved || Pending(s, w); } else { assert Pending(t, w); }
    }
  }

  lemma {:induction false} WaitKeeps(s: Registry, agent: string)
    requires WaitersOk(s) && CallsOk(s) && StopWaitsOk(s)
    ensures var t := AwaitIdle(s, agent); WaitersOk(t) && CallsOk(t) && StopWaitsOk(t)
    ensures FenceOk(s) ==> FenceOk(AwaitIdle(s, agent))
  {
    if agent in s.active { WaitOnActiveKeeps(s, agent); } else { WaitOnIdleKeeps(s, agent); }
  }

  /** One waiter more, and the stop promise made to wait for it. */
  lemma InstallOneMore(s: Registry, agent: string)
    requires WaitersOk(s) && CallsOk(s) && StopWaitsOk(s) && agent in s.active
    ensures var t := AwaitIdle(s, agent).(stopWaits := s.stopWaits[agent := s.calls]);
            WaitersOk(t) && CallsOk(t) && StopWaitsOk(t)
  {
    WaitOnActiveKeeps(s, agent);
    var u := AwaitIdle(s, agent);
    var t := u.(stopWaits := s.stopWaits[agent := s.calls]);
    forall w: nat | w < t.calls ensures w in t.resolved || Pending(t, w) {
      assert w in u.resolved || Pending(u, w);
    }
  }

  lemma {:induction false} InstallKeeps(s: Registry, order: seq<string>)
    requires WaitersOk(s) && CallsOk(s) && StopWaitsOk(s)
    requires forall a | a in order :: a in s.active
    ensures var t := Install(s, order); WaitersOk(t) && CallsOk(t) && StopWaitsOk(t)
    ensures var t := Install(s, order);
            && t.active == s.active && t.stopping == s.stopping && t.aborted == s.aborted && t.releases == s.releases
            && s.stopWaits.Keys <= t.stopWaits.Keys && forall a | a in order :: a in t.stopWaits
  {
    if order != [] {
      var front, a := order[..|order| - 1], order[|order| - 1];
      InstallKeeps(s, front);
      InstallOneMore(Install(s, front), a);
    }
  }

  lemma {:induction false} AbortAllKeeps(s: Registry, cs: seq<Controller>)
    requires Inv(s)
    ensures Inv(AbortAll(s, cs)) && AbortAll(s, cs).stopping == s.stopping
  {
    if cs != [] {
      AbortAllKeeps(s, cs[..|cs| - 1]);
      AbortKeeps(AbortAll(s, cs[..|cs| - 1]), cs[|cs| - 1]);
    }
  }

  lemma NextKeepsInv(s: Registry, e: Event)
    requires Inv(s) && Enabled(s, e)
    ensures Inv(Next(s, e))
  {
    match e
    case Register(_, _) =>
    case Unregister(a) => DropKeeps(s, {a});
    case Cancel(a) => if a in s.active { AbortKeeps(s, s.active[a]); }
    case Wait(a) => WaitKeeps(s, a);
    case Stop(order) =>
      if !s.stopping {
        InstallKeeps(s.(stopping := true), order);
        AbortAllKeeps(Install(s.(stopping := true), order), Controllers(order, s.active));
      }
  }

  // ---------------------------------------------------------------- what each operation does

  /** Nothing but the registration, and that only where none is running and none is being stopped. */
  lemma RegisterDoes(s: Registry, a: string, c: Controller)
    ensures var t := Next(s, Register(a, c));
            if s.stopping || a in s.active then t == s else t == s.(active := s.active[a := c])
  {
  }

  /** An agent's registration has ended, and whoever waited for it has been resolved. */
  ghost predicate Released(s: Registry, t: Registry, a: string) {
    a !in t.active && s.WaitersOf(a) <= t.resolved
  }

  ghost predicate Kept(s: Registry, t: Registry, a: string) {
    && (a in t.active <==> a in s.active) && (a in s.active ==> t.active[a] == s.active[a])
    && t.WaitersOf(a) == s.WaitersOf(a)
  }

  lemma DropDoes(s: Registry, agents: set<string>, a: string)
    ensures if a in agents then Released(s, Drop(s, agents), a) else Kept(s, Drop(s, agents), a)
    ensures Drop(s, agents).aborted == s.aborted && Drop(s, agents).stopping == s.stopping
  {
  }

  /** Ends that registration, resolves its waiters, and leaves every other one alone. */
  lemma UnregisterDoes(s: Registry, a: string, other: string)
    requires a in s.active
    ensures var t := Next(s, Unregister(a));
            && Released(s, t, a) && (other != a ==> Kept(s, t, other))
            && t.aborted == s.aborted && t.stopping == s.stopping
  {
    DropDoes(s, {a}, a);
    DropDoes(s, {a}, other);
  }

  /** Aborts the agent's own controller; what ends is what its listeners unregister, and only the first time. */
  lemma CancelAborts(s: Registry, a: string, other: string)
    requires a in s.active
    ensures var t := Next(s, Cancel(a));
            var c := s.active[a];
            && t.aborted == s.aborted + {c} && t.stopping == s.stopping
            && (if c !in s.aborted && other in s.ReleasedBy(c) then Released(s, t, other) else Kept(s, t, other))
  {
    var now := s.(aborted := s.aborted + {s.active[a]});
    DropDoes(now, s.ReleasedBy(s.active[a]), other);
  }

  lemma CancelOfIdleDoesNothing(s: Registry, a: string)
    requires a !in s.active
    ensures Next(s, Cancel(a)) == s && Next(s, Unregister(a)) == s
  {
  }

  lemma {:induction false} InstallLeaves(s: Registry, order: seq<string>)
    ensures var t := Install(s, order);
            t.active == s.active && t.aborted == s.aborted && t.stopping == s.stopping && t.releases == s.releases
  {
    if order != [] { InstallLeaves(s, order[..|order| - 1]); }
  }

  /** A listener that has not run yet unregisters the agent. */
  ghost predicate EndedBy(s: Registry, cs: set<Controller>, a: string) {
    exists c :: c in cs && c !in s.aborted && a in s.ReleasedBy(c)
  }

  lemma AbortAborts(s: Registry, c: Controller, a: string)
    ensures var t := Abort(s, c);
            && t.aborted == s.aborted + {c} && t.stopping == s.stopping && t.releases == s.releases
            && (a in t.active <==> a in s.active && !(c !in s.aborted && a in s.ReleasedBy(c)))
  {
  }

  lemma {:induction false} AbortAllAborts(s: Registry, cs: seq<Controller>, a: string)
    ensures var t := AbortAll(s, cs);
            && t.aborted == s.aborted + (set c | c in cs) && t.stopping == s.stopping && t.releases == s.releases
            && (a in t.active <==> a in s.active && !EndedBy(s, (set c | c in cs), a))
  {
    if cs != [] {
      var front, last := cs[..|cs| - 1], cs[|cs| - 1];
      AbortAllAborts(s, front, a);
      AbortAborts(AbortAll(s, front), last, a);
      assert cs == front + [last];
      assert (set c | c in cs) == (set c | c in front) + {last};
      EndedByMore(s, (set c | c in front), last, a);
    }
  }

  lemma EndedByMore(s: Registry, cs: set<Controller>, last: Controller, a: string)
    ensures EndedBy(s, cs + {last}, a) <==> EndedBy(s, cs, a) || (last !in s.aborted && a in s.ReleasedBy(last))
  {
    if last !in s.aborted && a in s.ReleasedBy(last) { assert last in cs + {last}; }
    if EndedBy(s, cs, a) {
      var c :| c in cs && c !in s.aborted && a in s.ReleasedBy(c);
      assert c in cs + {last};
    }
  }

  /**
   A stop aborts the controller of every turn that is active, and no other; what ends by it is what
   their listeners unregister. A second stop does nothing.
   */
  lemma {:induction false} StopAborts(s: Registry, order: seq<string>, a: string)
    requires Enabled(s, Stop(order))
    ensures var t := Next(s, Stop(order));
            if s.stopping then t == s
            else
              && t.stopping && t.aborted == s.aborted + s.active.Values
              && (a in t.active <==> a in s.active && !EndedBy(s, s.active.Values, a))
  {
    if !s.stopping {
      var now := s.(stopping := true);
      InstallLeaves(now, order);
      ControllersAre(order, s.active);
      AbortAllAborts(Install(now, order), Controllers(order, s.active), a);
      SameListeners(s, Install(now, order), s.active.Values, a);
    }
  }

  lemma SameListeners(s: Registry, t: Registry, cs: set<Controller>, a: string)
    requires t.aborted == s.aborted && t.releases == s.releases
    ensures EndedBy(s, cs, a) == EndedBy(t, cs, a)
  {
    if EndedBy(s, cs, a) { var c :| c in cs && c !in s.aborted && a in s.ReleasedBy(c); assert a in t.ReleasedBy(c); }
    if EndedBy(t, cs, a) { var c :| c in cs && c !in t.aborted && a in t.ReleasedBy(c); assert a in s.ReleasedBy(c); }
  }

  lemma ControllersAre(order: seq<string>, active: map<string, Controller>)
    requires Enumerates(order, active)
    ensures forall c :: c in Controllers(order, active) <==> c in active.Values
    ensures (set c | c in Controllers(order, active)) == active.Values
  {
    forall c ensures c in Controllers(order, active) <==> c in active.Values {
      if c in active.Values {
        var a :| a in active && active[a] == c;
        var i :| 0 <= i < |order| && order[i] == a;
        assert Controllers(order, active)[i] == c;
      }
    }
  }

  /** A wait is resolved on the spot for an idle agent, and otherwise joins those for the registration there. */
  lemma WaitDoes(s: Registry, a: string, other: string)
    ensures var t := Next(s, Wait(a));
            && t.calls == s.calls + 1 && t.active == s.active && t.aborted == s.aborted
            && t.resolved == (if a in s.active then s.resolved else s.resolved + {s.calls})
            && t.WaitersOf(other) == s.WaitersOf(other) + (if other == a && a in s.active then {s.calls} else {})
  {
  }

  // ---------------------------------------------------------------- over whole runs

  function Empty(releases: map<Controller, set<string>>): Registry {
    Registry(map[], map[], {}, map[], false, map[], {}, 0, releases)
  }

  ghost predicate IsRun(run: seq<Registry>, es: seq<Event>) {
    && |run| == |es| + 1
    && run[0] == Empty(run[0].releases)
    && forall i | 0 <= i < |es| :: Enabled(run[i], es[i]) && run[i + 1] == Next(run[i], es[i])
  }

  lemma {:induction false} RunKeepsInv(run: seq<Registry>, es: seq<Event>, i: nat)
    requires IsRun(run, es) && i < |run|
    ensures Inv(run[i])
  {
    if i > 0 {
      RunKeepsInv(run, es, i - 1);
      NextKeepsInv(run[i - 1], es[i - 1]);
    }
  }

  /** The stop promise has resolved exactly when no turn is active any more. */
  lemma StopResolvesExactlyWhenIdle(run: seq<Registry>, es: seq<Event>, i: nat)
    requires IsRun(run, es) && i < |run| && run[i].stopping
    ensures run[i].StopResolved() <==> run[i].active == map[]
  {
    RunKeepsInv(run, es, i);
    var s := run[i];
    if s.active != map[] {
      assert s.active.Keys != {};
      var a :| a in s.active;
      assert s.stopWaits[a] in s.waiters[a];
    }
  }

  lemma StoppedOnlyShrinks(s: Registry, e: Event)
    requires Enabled(s, e) && s.stopping
    ensures Next(s, e).stopping && Next(s, e).active.Keys <= s.active.Keys
  {
  }

  /** No registration succeeds after the stop: once idle, idle for ever. */
  lemma {:induction false} IdleAfterStopForEver(run: seq<Registry>, es: seq<Event>, i: nat, j: nat)
    requires IsRun(run, es) && i <= j < |run| && run[i].StopResolved()
    ensures run[j].StopResolved() && run[j].active == map[]
    decreases j
  {
    if i < j {
      IdleAfterStopForEver(run, es, i, j - 1);
      StoppedOnlyShrinks(run[j - 1], es[j - 1]);
      assert run[j].active.Keys == {};
    }
    StopResolvesExactlyWhenIdle(run, es, j);
  }

  /** A registration that goes on keeps everyone who waits for it. */
  ghost predicate Continues(s: Registry, t: Registry) {
    forall a | a in s.active && a in t.active :: s.WaitersOf(a) <= t.WaitersOf(a)
  }

  lemma {:induction false} InstallContinues(s: Registry, order: seq<string>)
    ensures Install(s, order).active == s.active && Continues(s, Install(s, order))
  {
    if order != [] {
      InstallContinues(s, order[..|order| - 1]);
    }
  }

  lemma {:induction false} AbortAllContinues(s: Registry, cs: seq<Controller>)
    ensures AbortAll(s, cs).active.Keys <= s.active.Keys && Continues(s, AbortAll(s, cs))
  {
    if cs != [] {
      AbortAllContinues(s, cs[..|cs| - 1]);
    }
  }

  lemma NextContinues(s: Registry, e: Event)
    requires Enabled(s, e)
    ensures Continues(s, Next(s, e))
  {
    if e.Stop? && !s.stopping {
      var t := s.(stopping := true);
      InstallContinues(t, e.order);
      AbortAllContinues(Install(t, e.order), Controllers(e.order, s.active));
    }
  }

  /** A pending call is resolved by the end of the very registration it waited for. */
  lemma WaiterResolvedByItsRegistration(run: seq<Registry>, es: seq<Event>, i: nat, w: nat)
    requires IsRun(run, es) && i < |es|
    requires w < run[i].calls && w !in run[i].resolved && w in run[i + 1].resolved
    ensures w in run[i].awaited
    ensures var (a, c) := run[i].awaited[w]; a in run[i].active && run[i].active[a] == c && a !in run[i + 1].active
  {
    RunKeepsInv(run, es, i);
    RunKeepsInv(run, es, i + 1);
    NextContinues(run[i], es[i]);
  }

  // ---------------------------------------------------------------- the implementation

  class TurnTable {
    var active: map<string, Controller>
    var idleWaiters: map<string, set<nat>>
    var stopping: bool
    var stopped: map<string, nat>
    var aborted: set<Controller>
    var calls: nat
    const releases: map<Controller, set<string>>
    ghost var resolutions: seq<nat>      // every `resolve()` made, in order
    ghost var resolved: set<nat>
    ghost var awaited: map<nat, (string, Controller)>

    ghost function Model(): Registry
      reads this
    {
      Registry(active, idleWaiters, resolved, awaited, stopping, stopped, aborted, calls, releases)
    }

    /** No promise is resolved twice. */
    ghost predicate ResolvedOnce()
      reads this
    {
      && (forall w :: w in resolved <==> w in resolutions)
      && forall i, j | 0 <= i < j < |resolutions| :: resolutions[i] != resolutions[j]
    }

    ghost predicate Sound()
      reads this
    {
      WaitersOk(Model()) && CallsOk(Model()) && StopWaitsOk(Model()) && ResolvedOnce()
    }

    ghost predicate Valid()
      reads this
    {
      Inv(Model()) && ResolvedOnce()
    }

    constructor (releases: map<Controller, set<string>>)
      ensures Valid() && Model() == Empty(releases)
    {
      active, idleWaiters, stopping, stopped, aborted, calls := map[], map[], false, map[], {}, 0;
      this.releases := releases;
      resolutions, resolved, awaited := [], {}, map[];
    }

    method RegisterAgent(agent: string, controller: Controller) returns (ok: bool)
      requires Valid()
      modifies this
      ensures Valid() && Model() == Next(old(Model()), Register(agent, controller))
      ensures ok <==> !old(stopping) && agent !in old(active)
    {
      NextKeepsInv(Model(), Register(agent, controller));
      ok := !stopping && agent !in active;
      if ok { active := active[agent := controller]; }
    }

    /** `for (const resolve of waiters) resolve()` */
    method ResolveAll(waiters: set<nat>)
      requires ResolvedOnce() && waiters !! resolved
      modifies this`resolutions, this`resolved
      ensures ResolvedOnce() && resolved == old(resolved) + waiters
    {
      var waiting := waiters;
      while waiting != {}
        invariant waiting <= waiters && ResolvedOnce() && waiting !! resolved
        invariant resolved == old(resolved) + (waiters - waiting)
      {
        var w :| w in waiting;
        resolutions, resolved := resolutions + [w], resolved + {w};
        waiting := waiting - {w};
      }
    }

    method UnregisterAgent(agent: string)
      requires Sound()
      modifies this
      ensures Sound() && Model() == Drop(old(Model()), {agent})
      ensures old(FenceOk(Model())) ==> FenceOk(Model())
    {
      ghost var was := Model();
      DropKeeps(was, {agent});
      DropOne(was, agent);
      if agent !in active { return; }
      var waiting := if agent in idleWaiters then idleWaiters[agent] else {};
      assert waiting !! resolved;
      active := active - {agent};
      idleWaiters := idleWaiters - {agent};
      ResolveAll(waiting);
      assert Model() == Drop(was, {agent});
    }

    /** The controller's listeners run once, and unregister agents on the spot. */
    method AbortController(c: Controller)
      requires Sound()
      modifies this
      ensures Sound() && Model() == Abort(old(Model()), c)
    {
      if c in aborted { return; }
      ghost var was := Model();
      aborted := aborted + {c};
      ghost var now := Model();
      AbortKeeps(was, c);
      var todo := if c in releases then releases[c] else {};
      ghost var done: set<string> := {};
      DropNothing(now);
      while todo != {}
        invariant Sound() && todo + done == now.ReleasedBy(c) && todo !! done
        invariant Model() == Drop(now, done)
      {
        var a :| a in todo;
        UnregisterAgent(a);
        DropTwice(now, done, {a});
        todo, done := todo - {a}, done + {a};
      }
    }

    method CancelAgent(agent: string) returns (had: bool)
      requires Valid()
      modifies this
      ensures Valid() && Model() == Next(old(Model()), Cancel(agent))
      ensures had <==> agent in old(active)
    {
      NextKeepsInv(Model(), Cancel(agent));
      had := agent in active;
      if had { AbortController(active[agent]); }
    }

    method WaitForAgentIdle(agent: string) returns (w: nat)
      requires Sound()
      modifies this
      ensures Sound() && w == old(calls) && Model() == AwaitIdle(old(Model()), agent)
      ensures old(FenceOk(Model())) ==> FenceOk(Model())
    {
      w := calls;
      if agent !in active { ResolveAtOnce(agent); } else { JoinWaiters(agent); }
    }

    method ResolveAtOnce(agent: string)
      requires Sound() && agent !in active
      modifies this`calls, this`resolutions, this`resolved
      ensures Sound() && Model() == AwaitIdle(old(Model()), agent)
      ensures old(FenceOk(Model())) ==> FenceOk(Model())
    {
      WaitKeeps(Model(), agent);
      calls := calls + 1;
      ResolveAll({calls - 1});
    }

    method JoinWaiters(agent: string)
      requires Sound() && agent in active
      modifies this`calls, this`awaited, this`idleWaiters
      ensures Sound() && Model() == AwaitIdle(old(Model()), agent)
      ensures old(FenceOk(Model())) ==> FenceOk(Model())
    {
      WaitKeeps(Model(), agent);
      var w := calls;
      calls := calls + 1;
      awaited := awaited[w := (agent, active[agent])];
      idleWaiters := idleWaiters[agent := (if agent in idleWaiters then idleWaiters[agent] else {}) + {w}];
    }

    /** Waiters first: an abort listener may release its registration at once. */
    method InstallWaiters(order: seq<string>)
      requires Sound() && forall a | a in order :: a in active
      modifies this
      ensures Sound() && Model() == Install(old(Model()), order)
    {
      ghost var was := Model();
      for i := 0 to |order|
        invariant Sound() && Model() == Install(was, order[..i])
      {
        assert order[..i + 1][..i] == order[..i];
        InstallKeeps(was, order[..i + 1]);
        var w := WaitForAgentIdle(order[i]);
        stopped := stopped[order[i] := w];
        assert Model() == Install(was, order[..i + 1]);
      }
      assert order[..|order|] == order;
    }

    method AbortEach(controllers: seq<Controller>)
      requires Sound()
      modifies this
      ensures Sound() && Model() == AbortAll(old(Model()), controllers)
    {
      ghost var was := Model();
      for i := 0 to |controllers|
        invariant Sound() && Model() == AbortAll(was, controllers[..i])
      {
        assert controllers[..i + 1][..i] == controllers[..i];
        AbortController(controllers[i]);
      }
      assert controllers[..|controllers|] == controllers;
    }

    /** `order` is the order in which the map of active turns is read. */
    method StopAgentTurns(order: seq<string>)
      requires Valid() && Enumerates(order, active)
      modifies this
      ensures Valid() && stopping && Model() == Next(old(Model()), Stop(order))
    {
      ghost var was := Model();
      StopFences(was, order);
      if stopping { return; }
      var turns := Controllers(order, active);
      stopping := true;
      assert Model() == was.(stopping := true);
      InstallWaiters(order);
      AbortEach(turns);
      assert Model() == Next(was, Stop(order));
    }
  }

  lemma StopFences(s: Registry, order: seq<string>)
    requires Inv(s) && Enabled(s, Stop(order))
    ensures Inv(Next(s, Stop(order))) && Next(s, Stop(order)).stopping
    ensures var t := s.(stopping := true); WaitersOk(t) && CallsOk(t) && StopWaitsOk(t)
  {
    NextKeepsInv(s, Stop(order));
    if !s.stopping {
      InstallKeeps(s.(stopping := true), order);
      AbortAllKeeps(Install(s.(stopping := true), order), Controllers(order, s.active));
    }
  }

  lemma DropOne(s: Registry, agent: string)
    ensures Drop(s, {agent}) ==
            s.(active := s.active - {agent}, waiters := s.waiters - {agent},
               resolved := s.resolved + s.WaitersOf(agent))
    ensures WaitersOk(s) && agent !in s.active ==> Drop(s, {agent}) == s
  {
    assert Drop(s, {agent}).resolved == s.resolved + s.WaitersOf(agent);
    if WaitersOk(s) && agent !in s.active {
      assert s.active - {agent} == s.active && s.waiters - {agent} == s.waiters;
    }
  }

  /** Ending a registration that is not there ends nothing. */
  lemma UnregisterIsDrop(s: Registry, agent: string)
    requires Inv(s)
    ensures Next(s, Unregister(agent)) == Drop(s, {agent})
  {
    DropOne(s, agent);
  }

  lemma DropNothing(s: Registry)
    ensures Drop(s, {}) == s
  {
    assert s.active - {} == s.active && s.waiters - {} == s.waiters;
  }

  lemma DropTwice(s: Registry, agents: set<string>, more: set<string>)
    requires agents !! more
    ensures Drop(Drop(s, agents), more) == Drop(s, agents + more)
  {
    var t, u := Drop(Drop(s, agents), more), Drop(s, agents + more);
    assert t.active == u.active && t.waiters == u.waiters;
    forall w ensures w in t.resolved <==> w in u.resolved {
      if w in u.resolved && w !in s.resolved {
        var a :| a in agents + more && a in s.waiters && w in s.waiters[a];
        if a !in agents { assert a in (s.waiters - agents) && (s.waiters - agents)[a] == s.waiters[a]; }
      }
      if w in t.resolved && w !in Drop(s, agents).resolved {
        var a :| a in more && a in (s.waiters - agents) && w in (s.waiters - agents)[a];
        assert a in s.waiters && w in s.waiters[a];
      }
    }
    assert t.resolved == u.resolved;
  }
}
