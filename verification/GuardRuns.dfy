/**
 Any number of guards over one limiter: in every run of acquiring, moving and destroying them the counters are
 those of the guards that are alive.
 */
module GuardRuns {
  import opened ConnectionLimiter
  import opened Wrappers

  /** A guard is empty or stands for a connection from an address. */
  datatype State = State(guards: seq<Option<string>>, perIp: map<string, nat>, global: nat)

  datatype Limits = Limits(maxPerIp: nat, maxGlobal: nat)

  datatype Step =
    | Acquire(slot: nat, ip: string)
    | Move(target: nat, source: nat)
    | Destroy(guard: nat)

  predicate Can(s: State, step: Step) {
    match step
    case Acquire(slot, _) => slot < |s.guards|
    case Move(target, source) => target < |s.guards| && source < |s.guards|
    case Destroy(guard) => guard < |s.guards|
  }

  /** A guard lets go of its connection, if it has one. */
  function Dropped(s: State, i: nat): State
    requires i < |s.guards|
  {
    match s.guards[i]
    case None => s
    case Some(ip) => State(s.guards[i := None], Released(s.perIp, ip), if s.global > 0 then s.global - 1 else 0)
  }

  predicate HasRoom(limits: Limits, s: State, ip: string) {
    s.global < limits.maxGlobal && BucketOf(s.perIp, ip) < limits.maxPerIp
  }

  function Counted(s: State, ip: string): State {
    s.(perIp := s.perIp[ip := BucketOf(s.perIp, ip) + 1], global := s.global + 1)
  }

  /** A new connection is counted before the guard it is moved into lets go of an old one. */
  function Next(limits: Limits, s: State, step: Step): State
    requires Can(s, step)
  {
    match step
    case Acquire(slot, ip) =>
      if HasRoom(limits, s, ip) then
        var dropped := Dropped(Counted(s, ip), slot);
        dropped.(guards := dropped.guards[slot := Some(ip)])
      else s
    case Move(target, source) =>
      if target == source then s
      else
        var dropped := Dropped(s, target);
        dropped.(guards := dropped.guards[target := s.guards[source]][source := None])
    case Destroy(guard) => Dropped(s, guard)
  }

  function Bag(guard: Option<string>): multiset<string> {
    if guard.Some? then multiset{guard.value} else multiset{}
  }

  /** The addresses of the guards alive, each as often as it has guards. */
  function Live(guards: seq<Option<string>>): multiset<string> {
    if guards == [] then multiset{} else Bag(guards[0]) + Live(guards[1..])
  }

  /** Filling an empty guard adds its address, and nothing else. */
  lemma {:induction false} Filled(guards: seq<Option<string>>, i: nat, ip: string)
    requires i < |guards| && guards[i].None?
    ensures Live(guards[i := Some(ip)]) == Live(guards) + multiset{ip}
  {
    var after := guards[i := Some(ip)];
    if i > 0 {
      assert after[1..] == guards[1..][i - 1 := Some(ip)];
      Filled(guards[1..], i - 1, ip);
      Associate(Bag(guards[0]), Live(guards[1..]), multiset{ip});
    } else {
      assert after[1..] == guards[1..];
      Exchange(multiset{ip}, Live(guards[1..]));
    }
  }

  lemma Associate(a: multiset<string>, b: multiset<string>, c: multiset<string>)
    ensures a + (b + c) == (a + b) + c
  {
  }

  lemma Exchange(a: multiset<string>, b: multiset<string>)
    ensures a + b == (multiset{} + b) + a
  {
  }

  lemma MoveOut(a: multiset<string>, b: multiset<string>, c: multiset<string>)
    ensures (a + b) + c == (a + c) + b
  {
  }

  lemma Emptied(guards: seq<Option<string>>, i: nat)
    requires i < |guards| && guards[i].Some?
    ensures Live(guards) == Live(guards[i := None]) + multiset{guards[i].value}
  {
    Filled(guards[i := None], i, guards[i].value);
    assert guards[i := None][i := guards[i]] == guards;
  }

  ghost predicate Counts(limits: Limits, live: multiset<string>, perIp: map<string, nat>, global: nat) {
    perIp == Buckets(live) && Within(perIp, limits.maxPerIp) && global == |live|
  }

  ghost predicate Inv(limits: Limits, s: State) {
    Counts(limits, Live(s.guards), s.perIp, s.global) && s.global <= limits.maxGlobal
  }

  lemma CountsAcquire(limits: Limits, live: multiset<string>, perIp: map<string, nat>, global: nat, ip: string)
    requires Counts(limits, live, perIp, global) && BucketOf(perIp, ip) < limits.maxPerIp
    ensures Counts(limits, live + multiset{ip}, perIp[ip := BucketOf(perIp, ip) + 1], global + 1)
  {
    BucketGained(live, ip);
    BucketRaised(live, limits.maxPerIp, ip);
  }

  lemma CountsRelease(limits: Limits, live: multiset<string>, perIp: map<string, nat>, global: nat, ip: string)
    requires Counts(limits, live + multiset{ip}, perIp, global)
    ensures Counts(limits, live, Released(perIp, ip), global - 1)
    ensures ip in perIp && perIp[ip] > 0 && global > 0
  {
    BucketLost(live, ip);
    BucketLowered(live, limits.maxPerIp, ip);
  }

  /** Letting go keeps the counters right; `extra` are connections that no guard in the list holds yet. */
  lemma DroppedCounts(limits: Limits, s: State, i: nat, extra: multiset<string>)
    requires i < |s.guards| && Counts(limits, Live(s.guards) + extra, s.perIp, s.global)
    ensures Counts(limits, Live(s.guards[i := None]) + extra, Dropped(s, i).perIp, Dropped(s, i).global)
    ensures Dropped(s, i).guards == s.guards[i := None]
  {
    if s.guards[i].Some? {
      var rest, ip := Live(s.guards[i := None]), s.guards[i].value;
      Emptied(s.guards, i);
      MoveOut(rest, multiset{ip}, extra);
      CountsRelease(limits, rest + extra, s.perIp, s.global, ip);
    } else {
      assert s.guards[i := None] == s.guards;
    }
  }

  lemma AcquirePreserves(limits: Limits, s: State, slot: nat, ip: string)
    requires Inv(limits, s) && slot < |s.guards| && HasRoom(limits, s, ip)
    ensures Inv(limits, Next(limits, s, Acquire(slot, ip)))
  {
    CountsAcquire(limits, Live(s.guards), s.perIp, s.global, ip);
    AcquiredCounts(limits, Counted(s, ip), slot, ip);
    DroppedIsLower(Counted(s, ip), slot);
  }

  lemma AcquiredCounts(limits: Limits, s: State, slot: nat, ip: string)
    requires slot < |s.guards| && Counts(limits, Live(s.guards) + multiset{ip}, s.perIp, s.global)
    ensures
      var dropped := Dropped(s, slot);
      Counts(limits, Live(dropped.guards[slot := Some(ip)]), dropped.perIp, dropped.global)
  {
    DroppedCounts(limits, s, slot, multiset{ip});
    Filled(s.guards[slot := None], slot, ip);
  }

  lemma DroppedIsLower(s: State, i: nat)
    requires i < |s.guards|
    ensures Dropped(s, i).global <= s.global
  {
  }

  lemma DroppedAlone(limits: Limits, s: State, i: nat)
    requires Inv(limits, s) && i < |s.guards|
    ensures Inv(limits, Dropped(s, i)) && Dropped(s, i).guards == s.guards[i := None]
  {
    assert Live(s.guards) + multiset{} == Live(s.guards);
    assert Live(s.guards[i := None]) + multiset{} == Live(s.guards[i := None]);
    DroppedCounts(limits, s, i, multiset{});
    DroppedIsLower(s, i);
  }

  /** Moving a guard to an empty one leaves the same connections alive. */
  lemma MovedSame(guards: seq<Option<string>>, target: nat, source: nat)
    requires target < |guards| && source < |guards| && target != source && guards[target].None?
    ensures Live(guards[target := guards[source]][source := None]) == Live(guards)
  {
    if guards[source].Some? {
      Emptied(guards, source);
      Filled(guards[source := None], target, guards[source].value);
      UpdatesCommute(guards, target, guards[source], source, None);
    } else {
      assert guards[target := guards[source]] == guards;
      assert guards[source := None] == guards;
    }
  }

  lemma UpdatesCommute(guards: seq<Option<string>>, i: nat, x: Option<string>, j: nat, y: Option<string>)
    requires i < |guards| && j < |guards| && i != j
    ensures guards[i := x][j := y] == guards[j := y][i := x]
  {
  }

  lemma MovePreserves(limits: Limits, s: State, target: nat, source: nat)
    requires Inv(limits, s) && target < |s.guards| && source < |s.guards| && target != source
    ensures Inv(limits, Next(limits, s, Move(target, source)))
  {
    DroppedAlone(limits, s, target);
    MovedSame(s.guards[target := None], target, source);
  }

  lemma StepPreserves(limits: Limits, s: State, step: Step)
    requires Inv(limits, s) && Can(s, step)
    ensures Inv(limits, Next(limits, s, step))
  {
    match step
    case Acquire(slot, ip) =>
      if HasRoom(limits, s, ip) {
        AcquirePreserves(limits, s, slot, ip);
      }
    case Move(target, source) =>
      if target != source {
        MovePreserves(limits, s, target, source);
      }
    case Destroy(guard) =>
      DroppedAlone(limits, s, guard);
  }

  function Start(n: nat): State {
    State(seq(n, i => None), map[], 0)
  }

  function Run(limits: Limits, s: State, steps: seq<Step>): State
    decreases |steps|
  {
    if steps == [] then s
    else if Can(s, steps[0]) then Run(limits, Next(limits, s, steps[0]), steps[1..])
    else Run(limits, s, steps[1..])
  }

  lemma {:induction false} NoneLive(n: nat)
    ensures Live(Start(n).guards) == multiset{}
  {
    if n > 0 {
      NoneLive(n - 1);
      assert Start(n).guards[1..] == Start(n - 1).guards;
    }
  }

  lemma {:induction false} RunInv(limits: Limits, s: State, steps: seq<Step>)
    requires Inv(limits, s)
    ensures Inv(limits, Run(limits, s, steps))
    decreases |steps|
  {
    if steps != [] {
      if Can(s, steps[0]) {
        StepPreserves(limits, s, steps[0]);
        RunInv(limits, Next(limits, s, steps[0]), steps[1..]);
      } else {
        RunInv(limits, s, steps[1..]);
      }
    }
  }

  /** In every run the total is the sum of the buckets and the number of guards alive, and no limit is exceeded. */
  lemma CountersAreLiveGuards(limits: Limits, n: nat, steps: seq<Step>)
    ensures
      var s := Run(limits, Start(n), steps);
      && s.global == Sum(s.perIp) == |Live(s.guards)| <= limits.maxGlobal
      && (forall ip :: ip in s.perIp <==> ip in Live(s.guards))
      && (forall ip | ip in s.perIp :: 1 <= s.perIp[ip] == Live(s.guards)[ip] <= limits.maxPerIp)
  {
    NoneLive(n);
    assert Buckets(multiset{}) == map[];
    RunInv(limits, Start(n), steps);
    SumIsSize(Live(Run(limits, Start(n), steps).guards));
  }

  /** In every run, when a live guard lets go its bucket and the total are positive: nothing can underflow. */
  lemma NoUnderflow(limits: Limits, n: nat, steps: seq<Step>, i: nat)
    requires i < |Run(limits, Start(n), steps).guards| && Run(limits, Start(n), steps).guards[i].Some?
    ensures
      var s := Run(limits, Start(n), steps);
      s.guards[i].value in s.perIp && s.perIp[s.guards[i].value] > 0 && s.global > 0
  {
    NoneLive(n);
    assert Buckets(multiset{}) == map[];
    RunInv(limits, Start(n), steps);
    var s := Run(limits, Start(n), steps);
    Emptied(s.guards, i);
    CountsRelease(limits, Live(s.guards[i := None]), s.perIp, s.global, s.guards[i].value);
  }
}
