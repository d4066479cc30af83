/**
 The per-agent lifecycle lease: a mutex handed over in the order of the calls.

 Calls are numbered; the release closure a call's promise resolves to carries its number.
 */
module LifecycleLease {
  /** For each agent, the calls that have not been released yet, the holder first. */
  datatype Lines = Lines(lines: map<string, seq<nat>>, agentOf: map<nat, string>, calls: nat) {
    function Line(agent: string): seq<nat> {
      if agent in lines then lines[agent] else []
    }

    /** The call holds its agent's lease. */
    predicate Holds(n: nat) {
      n in agentOf && Line(agentOf[n]) != [] && Line(agentOf[n])[0] == n
    }

    ghost predicate LineOk(a: string) {
      && (forall i | 0 <= i < |Line(a)| :: Line(a)[i] in agentOf && agentOf[Line(a)[i]] == a)
      && (forall i, j | 0 <= i < j < |Line(a)| :: Line(a)[i] < Line(a)[j])
    }

    ghost predicate Ok() {
      && (forall n | n in agentOf :: n < calls)
      && (forall a {:trigger LineOk(a)} :: LineOk(a))
    }
  }

  datatype Event = Acquire(agent: string) | Release(call: nat)

  /** A release counts only when its call holds the lease: not twice, and not before the grant. */
  predicate Effective(s: Lines, e: Event, agent: string) {
    e.Release? && s.Holds(e.call) && s.agentOf[e.call] == agent
  }

  function Next(s: Lines, e: Event): Lines {
    match e
    case Acquire(agent) =>
      Lines(s.lines[agent := s.Line(agent) + [s.calls]], s.agentOf[s.calls := agent], s.calls + 1)
    case Release(n) =>
      if !s.Holds(n) then s
      else s.(lines := s.lines[s.agentOf[n] := s.Line(s.agentOf[n])[1..]])
  }

  function Run(s: Lines, es: seq<Event>): Lines
    decreases es
  {
    if es == [] then s else Run(Next(s, es[0]), es[1..])
  }

  /** How many releases of the agent's lease take effect on the way. */
  function Releases(s: Lines, es: seq<Event>, agent: string): nat
    decreases es
  {
    if es == [] then 0
    else (if Effective(s, es[0], agent) then 1 else 0) + Releases(Next(s, es[0]), es[1..], agent)
  }

  lemma NextKeepsOk(s: Lines, e: Event)
    requires s.Ok()
    ensures Next(s, e).Ok()
  {
    var t := Next(s, e);
    forall a ensures t.LineOk(a) {
      assert s.LineOk(a);
      var line := s.Line(a);
      assert forall i | 0 <= i < |line| :: line[i] in s.agentOf && line[i] < s.calls;
      if e.Acquire? {
        assert t.Line(a) == if a == e.agent then line + [s.calls] else line;
      } else {
        assert t.Line(a) == if s.Holds(e.call) && a == s.agentOf[e.call] then line[1..] else line;
      }
    }
  }

  /** One event, seen from the k-th place in line. */
  lemma PlaceMovesUp(s: Lines, e: Event, agent: string, k: nat)
    requires s.Ok() && k < |s.Line(agent)| && (Effective(s, e, agent) ==> k > 0)
    ensures var place := if Effective(s, e, agent) then k - 1 else k;
            place < |Next(s, e).Line(agent)| && Next(s, e).Line(agent)[place] == s.Line(agent)[k]
  {
  }

  lemma HeadHolds(s: Lines, agent: string, k: nat)
    requires s.Ok() && k < |s.Line(agent)|
    ensures s.Holds(s.Line(agent)[k]) <==> k == 0
  {
    assert s.LineOk(agent);
  }

  /** The k-th in line is at the head after exactly k effective releases, and not before. */
  lemma {:induction false} KthIsGrantedAfterKReleases(s: Lines, es: seq<Event>, agent: string, k: nat)
    requires s.Ok() && k < |s.Line(agent)|
    requires Releases(s, es, agent) <= k
    ensures Run(s, es).Ok()
    ensures var j := Releases(s, es, agent);
            && k - j < |Run(s, es).Line(agent)|
            && Run(s, es).Line(agent)[k - j] == s.Line(agent)[k]
    ensures Run(s, es).Holds(s.Line(agent)[k]) <==> Releases(s, es, agent) == k
    decreases es
  {
    if es == [] {
      HeadHolds(s, agent, k);
    } else {
      var done := if Effective(s, es[0], agent) then 1 else 0;
      NextKeepsOk(s, es[0]);
      PlaceMovesUp(s, es[0], agent, k);
      KthIsGrantedAfterKReleases(Next(s, es[0]), es[1..], agent, k - done);
    }
  }

  /** One holder per agent; a held lease passes on without ever being free. */
  lemma OneHolder(s: Lines, m: nat, n: nat)
    requires s.Ok() && s.Holds(m) && s.Holds(n) && s.agentOf[m] == s.agentOf[n]
    ensures m == n
    ensures |s.Line(s.agentOf[n])| > 1 ==> Next(s, Release(n)).Holds(s.Line(s.agentOf[n])[1])
    ensures !Next(s, Release(n)).Holds(n) && Next(Next(s, Release(n)), Release(n)) == Next(s, Release(n))
  {
    assert s.LineOk(s.agentOf[n]);
  }

  /** The holder has been granted the lease and has not released it; who waits has not been granted it. */
  ghost predicate Granted(holding: seq<nat>, waiting: seq<nat>, granted: set<nat>, released: set<nat>) {
    && (forall n | n in holding :: n in granted && n !in released)
    && (forall n | n in waiting :: n !in granted)
  }

  /** A hand-over in another line changes nothing in this one. */
  lemma StillGranted(holding: seq<nat>, waiting: seq<nat>, granted: set<nat>, released: set<nat>, next: nat, done: nat)
    requires Granted(holding, waiting, granted, released) && next !in waiting && done !in holding
    ensures Granted(holding, waiting, granted + {next}, released + {done})
  {
  }

  /** A granted call has been released, or holds the lease of its agent. */
  ghost predicate CallSound(
    n: nat, agentOf: map<nat, string>, holder: map<string, nat>, granted: set<nat>, released: set<nat>) {
    && (n in granted ==> n in agentOf && (n in released || (agentOf[n] in holder && holder[agentOf[n]] == n)))
    && (n in released ==> n in granted)
  }

  lemma HandOverKeepsCalls(
    m: nat, agentOf: map<nat, string>, holder: map<string, nat>, granted: set<nat>, released: set<nat>,
                           done: nat, next: nat)
    requires CallSound(m, agentOf, holder, granted, released) && CallSound(done, agentOf, holder, granted, released)
    requires done in granted && done !in released && next in agentOf && agentOf[next] == agentOf[done]
    ensures CallSound(m, agentOf, holder[agentOf[done] := next], granted + {next}, released + {done})
  {
  }

  class Leases {
    var held: set<string>
    var waiters: map<string, seq<nat>>
    var agentOf: map<nat, string>
    var granted: set<nat>           // the calls whose promise has resolved
    var released: set<nat>          // the `released` flags of their closures
    var calls: nat
    ghost var holder: map<string, nat>
    ghost var lines: map<string, seq<nat>>

    ghost function Model(): Lines
      reads this
    {
      Lines(lines, agentOf, calls)
    }

    function Waiting(a: string): seq<nat>
      reads this
    {
      if a in waiters then waiters[a] else []
    }

    ghost function Holding(a: string): seq<nat>
      reads this
    {
      if a in holder then [holder[a]] else []
    }

    ghost predicate AgentOk(a: string)
      reads this
    {
      && Model().Line(a) == Holding(a) + Waiting(a)
      && (a in held <==> a in holder)
      && (a in waiters ==> a in held && waiters[a] != [])
      && Granted(Holding(a), Waiting(a), granted, released)
    }

    ghost predicate CallOk(n: nat)
      reads this
    {
      CallSound(n, agentOf, holder, granted, released)
    }

    ghost predicate Valid()
      reads this
    {
      && Model().Ok()
      && (forall a: string :: AgentOk(a))
      && (forall n: nat :: CallOk(n))
    }

    constructor ()
      ensures Valid() && Model() == Lines(map[], map[], 0)
    {
      held, waiters, agentOf, granted, released, calls := {}, map[], map[], {}, {}, 0;
      holder, lines := map[], map[];
    }

    method AcquireLease(agent: string) returns (n: nat)
      requires Valid()
      modifies this
      ensures Valid() && n == old(calls)
      ensures Model() == Next(old(Model()), Acquire(agent))
      ensures n in granted <==> old(Model()).Line(agent) == []
      ensures old(held) <= held
    {
      n := calls;
      assert AgentOk(agent) && CallOk(n);
      if agent !in held { GrantAtOnce(agent); } else { JoinLine(agent); }
    }

    method GrantAtOnce(agent: string)
      requires Valid() && agent !in held
      modifies this
      ensures Valid() && Model() == Next(old(Model()), Acquire(agent))
      ensures granted == old(granted) + {old(calls)} && held == old(held) + {agent}
    {
      ghost var was := Model();
      assert AgentOk(agent) && CallOk(calls);
      MembersBelong();
      NextKeepsOk(was, Acquire(agent));
      var n := calls;
      calls := calls + 1;
      agentOf := agentOf[n := agent];
      held := held + {agent};
      granted := granted + {n};
      holder := holder[agent := n];
      lines := lines[agent := was.Line(agent) + [n]];
      assert Model() == Next(was, Acquire(agent));
      forall a: string ensures AgentOk(a) { assert old(AgentOk(a) && MembersOk(a)); }
      forall m: nat ensures CallOk(m) { assert old(CallOk(m)); }
    }

    method JoinLine(agent: string)
      requires Valid() && agent in held
      modifies this
      ensures Valid() && Model() == Next(old(Model()), Acquire(agent))
      ensures granted == old(granted) && held == old(held)
    {
      ghost var was := Model();
      assert AgentOk(agent) && CallOk(calls);
      NextKeepsOk(was, Acquire(agent));
      var n := calls;
      calls := calls + 1;
      agentOf := agentOf[n := agent];
      waiters := waiters[agent := (if agent in waiters then waiters[agent] else []) + [n]];
      lines := lines[agent := was.Line(agent) + [n]];
      assert Model() == Next(was, Acquire(agent));
      forall a: string ensures AgentOk(a) { assert old(AgentOk(a)); }
      forall m: nat ensures CallOk(m) { assert old(CallOk(m)); }
    }

    ghost predicate MembersOk(a: string)
      reads this
    {
      && (a in holder ==> holder[a] in agentOf && agentOf[holder[a]] == a)
      && (a in waiters ==> forall i | 0 <= i < |waiters[a]| ::
            waiters[a][i] in agentOf && agentOf[waiters[a][i]] == a && waiters[a][i] < calls)
    }

    lemma MembersBelong()
      requires Valid()
      ensures forall a: string :: MembersOk(a)
    {
      forall a: string ensures MembersOk(a) {
        assert AgentOk(a) && Model().LineOk(a);
        var line := Model().Line(a);
        if a in holder { assert line[0] == holder[a]; }
        if a in waiters {
          forall i | 0 <= i < |waiters[a]|
            ensures waiters[a][i] in agentOf && agentOf[waiters[a][i]] == a && waiters[a][i] < calls
          {
            assert line[i + 1] == waiters[a][i];
          }
        }
      }
    }

    /** The head of a queue is in no other queue, and nowhere else in its own. */
    lemma NextInLineWaitsOnce(agent: string, next: nat)
      requires Valid()
      requires agent in holder && agent in waiters && waiters[agent] != [] && waiters[agent][0] == next
      ensures next in agentOf && agentOf[next] == agent
      ensures next !in waiters[agent][1..] && forall a | a != agent :: next !in Waiting(a)
    {
      assert AgentOk(agent) && Model().LineOk(agent);
      assert Model().Line(agent)[1] == next;
      assert waiters[agent] == [next] + waiters[agent][1..];
      assert forall i | 0 <= i < |waiters[agent]| :: Model().Line(agent)[i + 1] == waiters[agent][i];
      forall a | a != agent ensures next !in Waiting(a) {
        assert AgentOk(a) && Model().LineOk(a);
        forall i | 0 <= i < |Waiting(a)| ensures Waiting(a)[i] != next {
          assert Model().Line(a)[|Holding(a)| + i] == Waiting(a)[i];
        }
      }
    }

    lemma ReleasedNoLongerHolds(n: nat)
      requires Valid() && n in released
      ensures !Model().Holds(n)
    {
      assert CallOk(n);
      if n in agentOf { assert AgentOk(agentOf[n]); }
    }

    /** With waiters: the first of them is granted, and the lease stays held throughout. */
    method HandOver(n: nat)
      requires Valid() && n in granted && n !in released && n in agentOf
      requires agentOf[n] in waiters && waiters[agentOf[n]] != []
      modifies this`waiters, this`granted, this`released, this`holder, this`lines
      ensures Valid() && n in released && Model() == Next(old(Model()), Release(n))
      ensures granted == old(granted) + {old(waiters)[agentOf[n]][0]}
    {
      var agent := agentOf[n];
      ghost var was := Model();
      assert CallOk(n) && AgentOk(agent);
      var queue := waiters[agent];
      var next := queue[0];
      assert CallOk(next);
      MembersBelong();
      NextKeepsOk(was, Release(n));
      NextInLineWaitsOnce(agent, next);
      released := released + {n};
      waiters := if |queue| == 1 then waiters - {agent} else waiters[agent := queue[1..]];
      granted := granted + {next};
      holder := holder[agent := next];
      lines := lines[agent := was.Line(agent)[1..]];
      assert Model() == Next(was, Release(n));
      assert Holding(agent) + Waiting(agent) == [next] + queue[1..] == lines[agent];
      forall a: string ensures AgentOk(a) {
        assert old(AgentOk(a) && MembersOk(a));
        if a != agent {
          assert Holding(a) == old(Holding(a)) && Waiting(a) == old(Waiting(a)) && Model().Line(a) == was.Line(a);
          StillGranted(Holding(a), Waiting(a), old(granted), old(released), next, n);
        }
      }
      forall m: nat ensures CallOk(m) {
        assert old(CallOk(m));
        HandOverKeepsCalls(m, agentOf, old(holder), old(granted), old(released), n, next);
      }
    }

    method Free(n: nat)
      requires Valid() && n in granted && n !in released && n in agentOf && agentOf[n] !in waiters
      modifies this`held, this`released, this`holder, this`lines
      ensures Valid() && n in released && Model() == Next(old(Model()), Release(n))
      ensures held == old(held) - {agentOf[n]}
    {
      var agent := agentOf[n];
      ghost var was := Model();
      assert CallOk(n) && AgentOk(agent);
      MembersBelong();
      NextKeepsOk(was, Release(n));
      released := released + {n};
      held := held - {agent};
      holder := holder - {agent};
      lines := lines[agent := was.Line(agent)[1..]];
      assert Model() == Next(was, Release(n));
      forall a: string ensures AgentOk(a) { assert old(AgentOk(a) && MembersOk(a)); }
      forall m: nat ensures CallOk(m) { assert old(CallOk(m)); }
    }

    /** The closure of a granted call. */
    method ReleaseLease(n: nat)
      requires Valid() && n in granted
      modifies this
      ensures Valid() && n in released
      ensures Model() == Next(old(Model()), Release(n))
      ensures old(n in released) ==> Model() == old(Model()) && held == old(held) && granted == old(granted)
      ensures !old(n in released) ==>
                old(Model()).Holds(n) &&
                var line := old(Model()).Line(old(agentOf)[n]);
                if |line| == 1 then held == old(held) - {old(agentOf)[n]} && granted == old(granted)
                else held == old(held) && granted == old(granted) + {line[1]}
    {
      assert CallOk(n) && AgentOk(agentOf[n]);
      if n in released {
        ReleasedNoLongerHolds(n);
      } else if agentOf[n] in waiters {
        assert (Holding(agentOf[n]) + Waiting(agentOf[n]))[1] == waiters[agentOf[n]][0];
        HandOver(n);
      } else {
        Free(n);
      }
    }
  }
}
