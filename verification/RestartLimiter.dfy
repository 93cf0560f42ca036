/** The bounded restart policy of RuntimeSupervisor.monitor_once (veetee_runtime.py). */
module RestartLimiter {
  import opened Wrappers

  datatype Policy = Policy(maxAttempts: int, window: int, backoff: int)

  /** What _parse_restart_policy lets through. */
  predicate ValidPolicy(p: Policy) {
    0 <= p.maxAttempts <= 10 && 1 <= p.window <= 3600 && 0 <= p.backoff <= 60
  }

  // ---------------------------------------------------- one service at one poll

  /** restart_history and next_restart_at of one service. */
  datatype Service = Service(history: seq<int>, next: Option<int>)

  datatype Polled = Polled(service: Service, restarted: bool)

  /** Only stamps inside the window survive. */
  function Recent(history: seq<int>, now: int, window: int): seq<int> {
    if history == [] then []
    else
      var n := |history| - 1;
      Recent(history[..n], now, window) + if now - history[n] <= window then [history[n]] else []
  }

  function Poll(p: Policy, s: Service, now: int): Polled {
    if p.maxAttempts <= 0 then Polled(s, false)
    else
      var history := Recent(s.history, now, p.window);
      if |history| >= p.maxAttempts then Polled(s.(history := history), false)
      else
        var scheduled := if s.next == None then now + p.backoff else s.next.value;
        if now < scheduled then Polled(Service(history, Some(scheduled)), false)
        else Polled(Service(history + [now], None), true)
  }

  // -------------------------------------------------------------------- the code

  datatype Spec = Spec(name: string, waitForExit: bool, policy: Policy)

  function Lookup(history: map<string, seq<int>>, next: map<string, int>, name: string): Service {
    Service(if name in history then history[name] else [], if name in next then Some(next[name]) else None)
  }

  class Supervisor {
    var restartHistory: map<string, seq<int>>
    var nextRestartAt: map<string, int>
    var restartCounts: map<string, nat>

    constructor ()
      ensures restartHistory == map[] && nextRestartAt == map[] && forall name :: Count(name) == 0
    {
      restartHistory, nextRestartAt, restartCounts := map[], map[], map[];
    }

    function Of(name: string): Service
      reads this
    {
      Lookup(restartHistory, nextRestartAt, name)
    }

    function Count(name: string): nat
      reads this
    {
      if name in restartCounts then restartCounts[name] else 0
    }

    /** One service of the loop, up to the point where it is spawned again. */
    method PollService(spec: Spec, now: int) returns (restart: bool)
      modifies this
      ensures Polled(Of(spec.name), restart) == Poll(spec.policy, old(Of(spec.name)), now)
      ensures Count(spec.name) == old(Count(spec.name)) + if restart then 1 else 0
      ensures forall n :: n != spec.name ==>
        Lookup(restartHistory, nextRestartAt, n) == Lookup(old(restartHistory), old(nextRestartAt), n)
      ensures forall n :: n != spec.name ==> Count(n) == old(Count(n))
    {
      if spec.policy.maxAttempts <= 0 {
        return false;
      }
      var stamps := if spec.name in restartHistory then restartHistory[spec.name] else [];
      var history := Recent(stamps, now, spec.policy.window);
      restartHistory := restartHistory[spec.name := history];
      if |history| >= spec.policy.maxAttempts {
        return false;
      }
      if spec.name !in nextRestartAt {
        nextRestartAt := nextRestartAt[spec.name := now + spec.policy.backoff];
      }
      if now < nextRestartAt[spec.name] {
        return false;
      }
      nextRestartAt := nextRestartAt - {spec.name};
      restartHistory := restartHistory[spec.name := history + [now]];
      restartCounts := restartCounts[spec.name := Count(spec.name) + 1];
      return true;
    }

    /** One turn of the loop: running and one-shot services are passed over. */
    method Visit(spec: Spec, now: int, exited: bool) returns (restart: bool)
      modifies this
      ensures Handled(spec, now, exited, Lookup(old(restartHistory), old(nextRestartAt), spec.name),
        Lookup(restartHistory, nextRestartAt, spec.name), restart)
      ensures forall n :: n != spec.name ==>
        Lookup(restartHistory, nextRestartAt, n) == Lookup(old(restartHistory), old(nextRestartAt), n)
    {
      restart := false;
      if exited && !spec.waitForExit {
        restart := PollService(spec, now);
      }
    }

    /**
     * monitor_once: `exited` names the services whose process has ended, `failing` those whose spawn raises,
     * which ends the poll. `reached` is how far down the order the poll came.
     */
    method MonitorOnce(order: seq<Spec>, now: int, exited: set<string>, failing: set<string>)
      returns (restarted: set<string>, reached: nat)
      requires DistinctNames(order)
      modifies this
      ensures reached <= |order|
      ensures Progress(order, reached, now, exited, restarted,
        old(restartHistory), old(nextRestartAt), restartHistory, nextRestartAt)
      ensures reached < |order| ==> reached > 0 && order[reached - 1].name in restarted * failing
    {
      restarted, reached := {}, 0;
      ghost var h, n := restartHistory, nextRestartAt;
      while reached < |order|
        invariant reached <= |order|
        invariant Progress(order, reached, now, exited, restarted, h, n, restartHistory, nextRestartAt)
      {
        restarted := Turn(order, reached, now, exited, restarted, h, n);
        var name := order[reached].name;
        reached := reached + 1;
        if name in restarted && name in failing {
          return;
        }
      }
    }

    /** The loop body, with the services handled before it. */
    method Turn(order: seq<Spec>, reached: nat, now: int, exited: set<string>, before: set<string>,
                ghost h: map<string, seq<int>>, ghost n: map<string, int>) returns (restarted: set<string>)
      requires reached < |order| && DistinctNames(order)
      requires Progress(order, reached, now, exited, before, h, n, restartHistory, nextRestartAt)
      modifies this
      ensures Progress(order, reached + 1, now, exited, restarted, h, n, restartHistory, nextRestartAt)
    {
      var spec := order[reached];
      ghost var h', n' := restartHistory, nextRestartAt;
      NextNameIsNew(order, reached);
      var restart := Visit(spec, now, spec.name in exited);
      restarted := if restart then before + {spec.name} else before;
      ProgressStep(order, reached, now, exited, before, restarted, h, n, h', n', restartHistory, nextRestartAt);
    }
  }

  /** The first `reached` services are handled, the others untouched. */
  ghost predicate Progress(
    order: seq<Spec>, reached: nat, now: int, exited: set<string>, restarted: set<string>,
    h: map<string, seq<int>>, n: map<string, int>, h': map<string, seq<int>>, n': map<string, int>)
    requires reached <= |order|
  {
    && (forall i :: 0 <= i < reached ==>
          var name := order[i].name;
          Handled(order[i], now, name in exited, Lookup(h, n, name), Lookup(h', n', name), name in restarted))
    && (forall name :: name !in NamesUpTo(order, reached) ==>
          Lookup(h', n', name) == Lookup(h, n, name) && name !in restarted)
  }

  lemma ProgressStep(
    order: seq<Spec>, reached: nat, now: int, exited: set<string>, restarted: set<string>, restarted': set<string>,
    h: map<string, seq<int>>, n: map<string, int>, h': map<string, seq<int>>, n': map<string, int>,
    h'': map<string, seq<int>>, n'': map<string, int>)
    requires reached < |order| && DistinctNames(order)
    requires Progress(order, reached, now, exited, restarted, h, n, h', n')
    requires var name := order[reached].name;
      Handled(order[reached], now, name in exited, Lookup(h', n', name), Lookup(h'', n'', name), name in restarted')
    requires forall m :: m != order[reached].name ==>
      Lookup(h'', n'', m) == Lookup(h', n', m) && (m in restarted' <==> m in restarted)
    ensures Progress(order, reached + 1, now, exited, restarted', h, n, h'', n'')
  {
    NextNameIsNew(order, reached);
  }

  ghost predicate DistinctNames(order: seq<Spec>) {
    forall i, j :: 0 <= i < j < |order| ==> order[i].name != order[j].name
  }

  function NamesUpTo(order: seq<Spec>, n: nat): set<string>
    requires n <= |order|
  {
    if n == 0 then {} else NamesUpTo(order, n - 1) + {order[n - 1].name}
  }

  lemma {:induction false} NamesUpToHas(order: seq<Spec>, n: nat, name: string)
    requires n <= |order|
    ensures name in NamesUpTo(order, n) <==> exists i :: 0 <= i < n && order[i].name == name
  {
    if n > 0 {
      NamesUpToHas(order, n - 1, name);
    }
  }

  lemma NextNameIsNew(order: seq<Spec>, n: nat)
    requires n < |order| && DistinctNames(order)
    ensures order[n].name !in NamesUpTo(order, n)
    ensures forall i :: 0 <= i < n ==> order[i].name != order[n].name
  {
    NamesUpToHas(order, n, order[n].name);
  }

  /** What a poll does to a service it reaches: only an exited long-running one is considered. */
  predicate Handled(spec: Spec, now: int, exited: bool, before: Service, after: Service, restarted: bool) {
    if exited && !spec.waitForExit then Polled(after, restarted) == Poll(spec.policy, before, now)
    else after == before && !restarted
  }

  // ---------------------------------------------------------- one service over a run

  /** Every restart of the service, and for each the poll that scheduled it. */
  datatype Trace = Trace(service: Service, restarts: seq<int>, origins: seq<int>, scheduledAt: Option<int>, last: int)

  function Start(time: int): Trace {
    Trace(Service([], None), [], [], None, time)
  }

  function Record(t: Trace, now: int, r: Polled): Trace {
    var origin := if t.service.next == None then Some(now) else t.scheduledAt;
    Trace(r.service,
          if r.restarted then t.restarts + [now] else t.restarts,
          if r.restarted && origin.Some? then t.origins + [origin.value] else t.origins,
          if r.service.next == None then None else origin,
          now)
  }

  /** A poll that finds the service exited. */
  function Advance(p: Policy, t: Trace, now: int): Trace {
    Record(t, now, Poll(p, t.service, now))
  }

  /** How a poll may treat the schedule: set it, keep it, or restart once it has come. */
  predicate SchedulesRight(p: Policy, next: Option<int>, now: int, r: Polled) {
    var scheduled := if next == None then now + p.backoff else next.value;
    if r.restarted then r.service.next == None && scheduled <= now
    else r.service.next == next || r.service.next == Some(scheduled)
  }

  lemma PollSchedulesRight(p: Policy, s: Service, now: int)
    ensures SchedulesRight(p, s.next, now, Poll(p, s, now))
  {
  }

  /** How a poll may treat the history: prune it, leave it, or prune it below the limit and add this restart. */
  predicate CountsRight(p: Policy, history: seq<int>, now: int, r: Polled) {
    var recent := Recent(history, now, p.window);
    if r.restarted then r.service.history == recent + [now] && |recent| < p.maxAttempts
    else r.service.history == recent
  }

  lemma PollCountsRight(p: Policy, s: Service, now: int)
    requires p.maxAttempts > 0
    ensures CountsRight(p, s.history, now, Poll(p, s, now))
  {
  }

  function Run(p: Policy, start: int, polls: seq<int>): Trace {
    if polls == [] then Start(start) else Advance(p, Run(p, start, polls[..|polls| - 1]), polls[|polls| - 1])
  }

  predicate Monotone(start: int, polls: seq<int>) {
    && (forall i :: 0 <= i < |polls| ==> start <= polls[i])
    && (forall i, j :: 0 <= i < j < |polls| ==> polls[i] <= polls[j])
  }

  predicate Sorted(s: seq<int>) {
    forall i, j :: 0 <= i < j < |s| ==> s[i] <= s[j]
  }

  /** Any maxAttempts + 1 consecutive restarts span more than the window. */
  predicate Spread(p: Policy, restarts: seq<int>) {
    forall i, j :: 0 <= i <= j < |restarts| && i + p.maxAttempts <= j ==> restarts[j] - restarts[i] > p.window
  }

  /** The history is the newest restarts; older ones have left the window. */
  predicate KeepsRecent(p: Policy, t: Trace) {
    var kept := |t.restarts| - |t.service.history|;
    && kept >= 0 && t.service.history == t.restarts[kept..]
    && (forall i :: 0 <= i < kept ==> t.last - t.restarts[i] > p.window)
  }

  predicate InOrder(t: Trace) {
    Sorted(t.restarts) && (forall i :: 0 <= i < |t.restarts| ==> t.restarts[i] <= t.last)
  }

  predicate Waited(backoff: int, restarts: seq<int>, origins: seq<int>) {
    && |origins| == |restarts|
    && (forall i :: 0 <= i < |restarts| ==> origins[i] + backoff <= restarts[i])
    && (forall i :: 1 <= i < |restarts| ==> restarts[i - 1] <= origins[i])
  }

  lemma OneMoreWaited(backoff: int, restarts: seq<int>, origins: seq<int>, now: int, origin: int)
    requires Waited(backoff, restarts, origins) && origin + backoff <= now
    requires restarts != [] ==> restarts[|restarts| - 1] <= origin
    ensures Waited(backoff, restarts + [now], origins + [origin])
  {
  }

  /** Every restart waited out the back-off from the poll that scheduled it, after the restart before. */
  predicate BackedOff(p: Policy, t: Trace) {
    && Waited(p.backoff, t.restarts, t.origins)
    && (t.service.next.Some? <==> t.scheduledAt.Some?)
    && (t.service.next.Some? ==>
          && t.service.next.value == t.scheduledAt.value + p.backoff
          && (t.restarts != [] ==> t.restarts[|t.restarts| - 1] <= t.scheduledAt.value))
  }

  predicate Inv(p: Policy, t: Trace) {
    KeepsRecent(p, t) && InOrder(t) && Spread(p, t.restarts) && BackedOff(p, t)
  }

  /** Pruning a sorted history drops a prefix of stamps that are all out of the window. */
  lemma {:induction false} RecentIsSuffix(history: seq<int>, now: int, window: int)
    requires Sorted(history)
    ensures var k := |history| - |Recent(history, now, window)|;
      && k >= 0 && Recent(history, now, window) == history[k..]
      && (forall i :: 0 <= i < k ==> now - history[i] > window)
  {
    if history != [] {
      var n := |history| - 1;
      var before := Recent(history[..n], now, window);
      RecentIsSuffix(history[..n], now, window);
      if before != [] {
        RecentAreRecent(history[..n], now, window, 0);
      }
      SuffixStep(history, before, now, window);
    }
  }

  /** One more stamp, behind the recent ones among those before it. */
  lemma SuffixStep(history: seq<int>, before: seq<int>, now: int, window: int)
    requires Sorted(history) && history != [] && |before| < |history|
    requires var n := |history| - 1;
      && before == history[n - |before|..n]
      && (forall i :: 0 <= i < n - |before| ==> now - history[i] > window)
      && (before != [] ==> now - before[0] <= window)
    ensures var n := |history| - 1; var r := before + if now - history[n] <= window then [history[n]] else [];
      && r == history[n + 1 - |r|..]
      && (forall i :: 0 <= i < n + 1 - |r| ==> now - history[i] > window)
  {
    var n := |history| - 1;
    if before != [] {
      assert before[0] == history[n - |before|] <= history[n];
    }
  }

  lemma {:induction false} RecentAreRecent(history: seq<int>, now: int, window: int, i: nat)
    requires i < |Recent(history, now, window)|
    ensures now - Recent(history, now, window)[i] <= window
  {
    var n := |history| - 1;
    if i < |Recent(history[..n], now, window)| {
      RecentAreRecent(history[..n], now, window, i);
    }
  }

  /** After pruning at `now`, what is left is again the newest restarts. */
  lemma PruneRestarts(p: Policy, t: Trace, now: int)
    requires KeepsRecent(p, t) && InOrder(t) && t.last <= now
    ensures var history := Recent(t.service.history, now, p.window);
      var kept := |t.restarts| - |history|;
      && kept >= 0 && history == t.restarts[kept..]
      && (forall i :: 0 <= i < kept ==> now - t.restarts[i] > p.window)
  {
    RecentIsSuffix(t.service.history, now, p.window);
    var history := Recent(t.service.history, now, p.window);
    var before := |t.restarts| - |t.service.history|;
    forall i | 0 <= i < |t.restarts| - |history|
      ensures now - t.restarts[i] > p.window
    {
      if i >= before {
        assert t.restarts[i] == t.service.history[i - before];
      }
    }
  }

  lemma OneMoreSorted(s: seq<int>, last: int, now: int)
    requires Sorted(s) && last <= now && forall i :: 0 <= i < |s| ==> s[i] <= last
    ensures Sorted(s + [now]) && forall i :: 0 <= i < |s + [now]| ==> (s + [now])[i] <= now
  {
  }

  lemma OneMoreKept(restarts: seq<int>, kept: nat, now: int)
    requires kept <= |restarts|
    ensures (restarts + [now])[kept..] == restarts[kept..] + [now]
    ensures forall i :: 0 <= i < kept ==> (restarts + [now])[i] == restarts[i]
  {
  }

  lemma RecordKeepsRecent(p: Policy, t: Trace, now: int, r: Polled)
    requires KeepsRecent(p, t) && InOrder(t) && t.last <= now && CountsRight(p, t.service.history, now, r)
    ensures KeepsRecent(p, Record(t, now, r)) && InOrder(Record(t, now, r))
  {
    PruneRestarts(p, t, now);
    var kept := |t.restarts| - |Recent(t.service.history, now, p.window)|;
    if r.restarted {
      OneMoreSorted(t.restarts, t.last, now);
      OneMoreKept(t.restarts, kept, now);
    }
    assert |Record(t, now, r).restarts| - |r.service.history| == kept;
  }

  /** A new restart is only made when fewer than maxAttempts are left in the window. */
  lemma RecordKeepsSpread(p: Policy, t: Trace, now: int, r: Polled)
    requires KeepsRecent(p, t) && InOrder(t) && t.last <= now && CountsRight(p, t.service.history, now, r)
    requires p.window > 0 && p.maxAttempts > 0 && Spread(p, t.restarts)
    ensures Spread(p, Record(t, now, r).restarts)
  {
    PruneRestarts(p, t, now);
    var restarts := Record(t, now, r).restarts;
    forall i, j | 0 <= i <= j < |restarts| && i + p.maxAttempts <= j
      ensures restarts[j] - restarts[i] > p.window
    {
      if j < |t.restarts| {
        assert t.restarts[j] - t.restarts[i] > p.window;
      }
    }
  }

  lemma RecordKeepsBackOff(p: Policy, t: Trace, now: int, r: Polled)
    requires BackedOff(p, t) && InOrder(t) && t.last <= now && SchedulesRight(p, t.service.next, now, r)
    ensures BackedOff(p, Record(t, now, r))
  {
    if r.restarted {
      OneMoreWaited(p.backoff, t.restarts, t.origins, now, if t.service.next == None then now else t.scheduledAt.value);
    }
  }

  lemma {:induction false} RunKeepsInv(p: Policy, start: int, polls: seq<int>)
    requires ValidPolicy(p) && p.maxAttempts > 0 && Monotone(start, polls)
    ensures Inv(p, Run(p, start, polls))
    ensures Run(p, start, polls).last == if polls == [] then start else polls[|polls| - 1]
  {
    if polls != [] {
      RunKeepsInv(p, start, polls[..|polls| - 1]);
      var before, now := Run(p, start, polls[..|polls| - 1]), polls[|polls| - 1];
      var r := Poll(p, before.service, now);
      PollSchedulesRight(p, before.service, now);
      PollCountsRight(p, before.service, now);
      RecordKeepsRecent(p, before, now, r);
      RecordKeepsSpread(p, before, now, r);
      RecordKeepsBackOff(p, before, now, r);
    }
  }

  // ------------------------------------------------------------------- main results

  /** The restarts that fall into the closed interval from `from` to `to`. */
  function Within(restarts: seq<int>, from: int, to: int): set<int> {
    set i | 0 <= i < |restarts| && from <= restarts[i] <= to
  }

  lemma {:induction false} RangeSize(s: set<int>, lo: int, n: nat)
    requires forall i :: i in s ==> lo <= i < lo + n
    ensures |s| <= n
  {
    if n > 0 {
      var rest := s - {lo + n - 1};
      RangeSize(rest, lo, n - 1);
      if lo + n - 1 !in s {
        assert rest == s;
      }
    } else {
      assert forall i :: i !in s;
      assert s == {};
    }
  }

  lemma SpreadBoundsInterval(p: Policy, restarts: seq<int>, from: int)
    requires Sorted(restarts) && Spread(p, restarts) && p.maxAttempts >= 0
    ensures |Within(restarts, from, from + p.window)| <= p.maxAttempts
  {
    var s := Within(restarts, from, from + p.window);
    var lo := 0;
    while lo < |restarts| && restarts[lo] < from
      invariant 0 <= lo <= |restarts|
      invariant forall i :: 0 <= i < lo ==> restarts[i] < from
    {
      lo := lo + 1;
    }
    forall i | i in s
      ensures lo <= i < lo + p.maxAttempts
    {
      assert i >= lo;
    }
    RangeSize(s, lo, p.maxAttempts);
  }

  /** Any closed interval as long as the window holds at most maxAttempts restarts, in every run of polls. */
  lemma RestartsAreLimited(p: Policy, start: int, polls: seq<int>, from: int)
    requires ValidPolicy(p) && Monotone(start, polls)
    ensures |Within(Run(p, start, polls).restarts, from, from + p.window)| <= p.maxAttempts
  {
    if p.maxAttempts > 0 {
      RunKeepsInv(p, start, polls);
      SpreadBoundsInterval(p, Run(p, start, polls).restarts, from);
    } else {
      NoPolicyNoRestart(p, start, polls);
      assert Within([], from, from + p.window) == {};
    }
  }

  lemma {:induction false} NoPolicyNoRestart(p: Policy, start: int, polls: seq<int>)
    requires p.maxAttempts <= 0
    ensures Run(p, start, polls).restarts == []
  {
    if polls != [] {
      NoPolicyNoRestart(p, start, polls[..|polls| - 1]);
    }
  }

  /**
   * Each restart waits out the back-off from the poll that first scheduled it, itself no earlier than the previous
   * restart.
   */
  lemma RestartsAreBackedOff(p: Policy, start: int, polls: seq<int>, i: nat)
    requires ValidPolicy(p) && Monotone(start, polls) && i < |Run(p, start, polls).restarts|
    ensures var t := Run(p, start, polls);
      && |t.origins| == |t.restarts|
      && t.origins[i] + p.backoff <= t.restarts[i]
      && (i > 0 ==> t.restarts[i - 1] <= t.origins[i])
  {
    if p.maxAttempts > 0 {
      RunKeepsInv(p, start, polls);
    } else {
      NoPolicyNoRestart(p, start, polls);
    }
  }

  // ------------------------------------------------------- exactly when it restarts

  /** Poll `n` restarts the service. */
  predicate RestartsAt(p: Policy, start: int, polls: seq<int>, n: nat)
    requires n < |polls|
  {
    |Run(p, start, polls[..n + 1]).restarts| > |Run(p, start, polls[..n]).restarts|
  }

  /** At poll `n` fewer than maxAttempts restarts lie in the window up to now. */
  predicate HasRoom(p: Policy, start: int, polls: seq<int>, n: nat)
    requires n < |polls|
  {
    |Within(Run(p, start, polls[..n]).restarts, polls[n] - p.window, polls[n])| < p.maxAttempts
  }

  predicate QuietFrom(p: Policy, start: int, polls: seq<int>, j: nat, n: nat)
    requires n <= |polls|
  {
    forall m :: j <= m < n ==> !RestartsAt(p, start, polls, m)
  }

  lemma RunNext(p: Policy, start: int, polls: seq<int>, n: nat)
    requires n < |polls|
    ensures Run(p, start, polls[..n + 1]) == Advance(p, Run(p, start, polls[..n]), polls[n])
  {
    assert polls[..n + 1][..n] == polls[..n];
  }

  function Indices(k: nat, n: nat): set<int>
    decreases n - k
  {
    if k >= n then {} else {k as int} + Indices(k + 1, n)
  }

  lemma {:induction false} CountIndices(k: nat, n: nat)
    requires k <= n
    ensures |Indices(k, n)| == n - k && forall i :: i in Indices(k, n) <==> k <= i < n
    decreases n - k
  {
    if k < n {
      CountIndices(k + 1, n);
    }
  }

  /** The pruned history is just as long as there are restarts in the window. */
  lemma RecentCountsWindow(p: Policy, t: Trace, now: int)
    requires KeepsRecent(p, t) && InOrder(t) && t.last <= now
    ensures |Recent(t.service.history, now, p.window)| == |Within(t.restarts, now - p.window, now)|
  {
    var history := Recent(t.service.history, now, p.window);
    var kept := |t.restarts| - |history|;
    PruneRestarts(p, t, now);
    forall i | kept <= i < |t.restarts|
      ensures now - p.window <= t.restarts[i]
    {
      RecentAreRecent(t.service.history, now, p.window, i - kept);
      assert t.restarts[i] == history[i - kept];
    }
    CountIndices(kept, |t.restarts|);
    assert Within(t.restarts, now - p.window, now) == Indices(kept, |t.restarts|);
  }

  /** What one poll does to the restarts and the schedule. */
  predicate Decides(p: Policy, t: Trace, room: bool, now: int, u: Trace) {
    var since := if t.scheduledAt.Some? then t.scheduledAt.value else now;
    if !room then u.restarts == t.restarts && u.scheduledAt == t.scheduledAt
    else if now < since + p.backoff then u.restarts == t.restarts && u.scheduledAt == Some(since)
    else u.restarts == t.restarts + [now] && u.scheduledAt == None
  }

  lemma AdvanceDecides(p: Policy, t: Trace, now: int)
    requires p.maxAttempts > 0 && BackedOff(p, t)
    ensures Decides(p, t, |Recent(t.service.history, now, p.window)| < p.maxAttempts, now, Advance(p, t, now))
  {
  }

  lemma AdvanceByWindow(p: Policy, t: Trace, now: int)
    requires p.maxAttempts > 0 && Inv(p, t) && t.last <= now
    ensures Decides(p, t, |Within(t.restarts, now - p.window, now)| < p.maxAttempts, now, Advance(p, t, now))
  {
    RecentCountsWindow(p, t, now);
    AdvanceDecides(p, t, now);
  }

  lemma PrefixInOrder(start: int, polls: seq<int>, n: nat)
    requires Monotone(start, polls) && n < |polls|
    ensures Monotone(start, polls[..n])
    ensures (if polls[..n] == [] then start else polls[..n][n - 1]) <= polls[n]
  {
  }

  lemma RunDecides(p: Policy, start: int, polls: seq<int>, now: int)
    requires ValidPolicy(p) && p.maxAttempts > 0 && Monotone(start, polls)
    requires (if polls == [] then start else polls[|polls| - 1]) <= now
    ensures var t := Run(p, start, polls);
      && t.last <= now
      && Decides(p, t, |Within(t.restarts, now - p.window, now)| < p.maxAttempts, now, Advance(p, t, now))
  {
    RunKeepsInv(p, start, polls);
    AdvanceByWindow(p, Run(p, start, polls), now);
  }

  lemma PollDecides(p: Policy, start: int, polls: seq<int>, n: nat)
    requires ValidPolicy(p) && p.maxAttempts > 0 && Monotone(start, polls) && n < |polls|
    ensures Decides(p, Run(p, start, polls[..n]), HasRoom(p, start, polls, n), polls[n], Run(p, start, polls[..n + 1]))
    ensures Run(p, start, polls[..n]).last <= polls[n]
  {
    PrefixInOrder(start, polls, n);
    RunNext(p, start, polls, n);
    RunDecides(p, start, polls[..n], polls[n]);
  }

  /** An earlier poll with room, since which there has been no restart. */
  predicate Waits(p: Policy, start: int, polls: seq<int>, j: nat, n: nat)
    requires n <= |polls|
  {
    j < n && HasRoom(p, start, polls, j) && QuietFrom(p, start, polls, j, n)
  }

  lemma WaitsLonger(p: Policy, start: int, polls: seq<int>, j: nat, n: nat)
    requires n < |polls|
    ensures Waits(p, start, polls, j, n + 1) <==>
      !RestartsAt(p, start, polls, n) && (if j == n then HasRoom(p, start, polls, n) else Waits(p, start, polls, j, n))
  {
    if j < n && QuietFrom(p, start, polls, j, n + 1) {
      assert !RestartsAt(p, start, polls, n) && QuietFrom(p, start, polls, j, n);
    }
    if j == n && QuietFrom(p, start, polls, j, n + 1) {
      assert !RestartsAt(p, start, polls, n);
    }
  }

  /** The schedule stands for the first such poll. */
  ghost predicate ScheduleIsFirst(p: Policy, start: int, polls: seq<int>, n: nat, scheduledAt: Option<int>)
    requires n <= |polls|
  {
    && (scheduledAt.Some? ==> exists j: nat :: Waits(p, start, polls, j, n) && polls[j] == scheduledAt.value)
    && (forall j: nat :: Waits(p, start, polls, j, n) ==> scheduledAt.Some? && scheduledAt.value <= polls[j])
  }

  /** One more poll, which made no restart. */
  lemma QuietKeepsFirst(p: Policy, start: int, polls: seq<int>, n: nat, was: Option<int>)
    requires n < |polls| && Monotone(start, polls) && !RestartsAt(p, start, polls, n)
    requires ScheduleIsFirst(p, start, polls, n, was)
    ensures ScheduleIsFirst(p, start, polls, n + 1,
              if was == None && HasRoom(p, start, polls, n) then Some(polls[n]) else was)
  {
    var now := if was == None && HasRoom(p, start, polls, n) then Some(polls[n]) else was;
    if was.Some? {
      var j: nat :| Waits(p, start, polls, j, n) && polls[j] == was.value;
      WaitsLonger(p, start, polls, j, n);
    } else {
      WaitsLonger(p, start, polls, n, n);
    }
    forall j: nat | Waits(p, start, polls, j, n + 1)
      ensures now.Some? && now.value <= polls[j]
    {
      WaitsLonger(p, start, polls, j, n);
    }
  }

  lemma RestartClears(p: Policy, start: int, polls: seq<int>, n: nat)
    requires n < |polls| && RestartsAt(p, start, polls, n)
    ensures ScheduleIsFirst(p, start, polls, n + 1, None)
  {
    var m := n + 1;
    forall j: nat
      ensures !Waits(p, start, polls, j, m)
    {
      WaitsLonger(p, start, polls, j, n);
    }
  }

  lemma {:induction false} SchedulesFirst(p: Policy, start: int, polls: seq<int>, n: nat)
    requires ValidPolicy(p) && p.maxAttempts > 0 && Monotone(start, polls) && n <= |polls|
    ensures ScheduleIsFirst(p, start, polls, n, Run(p, start, polls[..n]).scheduledAt)
  {
    if n > 0 {
      SchedulesFirst(p, start, polls, n - 1);
      PollDecides(p, start, polls, n - 1);
      if RestartsAt(p, start, polls, n - 1) {
        RestartClears(p, start, polls, n - 1);
      } else {
        QuietKeepsFirst(p, start, polls, n - 1, Run(p, start, polls[..n - 1]).scheduledAt);
      }
    }
  }

  /** There is room now, and was at an earlier poll at least the back-off ago, with no restart in between. */
  ghost predicate Due(p: Policy, start: int, polls: seq<int>, n: nat)
    requires n < |polls|
  {
    && HasRoom(p, start, polls, n)
    && (p.backoff == 0 || exists j: nat :: Waits(p, start, polls, j, n) && polls[j] + p.backoff <= polls[n])
  }

  /** A poll that finds the service exited restarts it exactly when that is due. */
  lemma RestartsExactly(p: Policy, start: int, polls: seq<int>, n: nat)
    requires ValidPolicy(p) && Monotone(start, polls) && n < |polls|
    ensures RestartsAt(p, start, polls, n) <==> Due(p, start, polls, n)
  {
    if p.maxAttempts <= 0 {
      NoPolicyNoRestart(p, start, polls[..n + 1]);
    } else {
      SchedulesFirst(p, start, polls, n);
      PollDecides(p, start, polls, n);
    }
  }

  // -------------------------------------------------- all services, over whole runs

  /** One run of monitor_once: which services had exited, which it spawned again, and how far down the order it came. */
  datatype Round = Round(now: int, exited: set<string>, restarted: set<string>, reached: nat)

  /** restart_history and next_restart_at of all services. */
  datatype Books = Books(history: map<string, seq<int>>, next: map<string, int>)

  /** The books before and after every round, starting empty, as MonitorOnce leaves them. */
  ghost predicate IsHistory(order: seq<Spec>, rounds: seq<Round>, books: seq<Books>) {
    && |books| == |rounds| + 1 && books[0] == Books(map[], map[])
    && forall i :: 0 <= i < |rounds| ==>
         rounds[i].reached <= |order|
         && Progress(order, rounds[i].reached, rounds[i].now, rounds[i].exited, rounds[i].restarted,
                     books[i].history, books[i].next, books[i + 1].history, books[i + 1].next)
  }

  /** The round comes to service `k`, and finds it exited and worth restarting. */
  predicate Considers(order: seq<Spec>, round: Round, k: nat)
    requires k < |order|
  {
    k < round.reached && order[k].name in round.exited && !order[k].waitForExit
  }

  /** The times at which service `k` was considered. */
  function Seen(order: seq<Spec>, rounds: seq<Round>, k: nat): (times: seq<int>)
    requires k < |order|
    ensures |times| <= |rounds|
  {
    if rounds == [] then []
    else
      var n := |rounds| - 1;
      Seen(order, rounds[..n], k) + if Considers(order, rounds[n], k) then [rounds[n].now] else []
  }

  /** The times at which the service was spawned again, whether that worked or not. */
  function RestartTimes(rounds: seq<Round>, name: string): seq<int> {
    if rounds == [] then []
    else
      var n := |rounds| - 1;
      RestartTimes(rounds[..n], name) + if name in rounds[n].restarted then [rounds[n].now] else []
  }

  predicate TimeGoesOn(start: int, rounds: seq<Round>) {
    && (forall i :: 0 <= i < |rounds| ==> start <= rounds[i].now)
    && (forall i, j :: 0 <= i < j < |rounds| ==> rounds[i].now <= rounds[j].now)
  }

  /** The round behind one of these times. */
  lemma {:induction false} SeenAt(order: seq<Spec>, rounds: seq<Round>, k: nat, i: nat) returns (j: nat)
    requires k < |order| && i < |Seen(order, rounds, k)|
    ensures j < |rounds| && Considers(order, rounds[j], k) && rounds[j].now == Seen(order, rounds, k)[i]
  {
    var n := |rounds| - 1;
    if i < |Seen(order, rounds[..n], k)| {
      j := SeenAt(order, rounds[..n], k, i);
    } else {
      j := n;
    }
  }

  lemma {:induction false} SeenInOrder(order: seq<Spec>, rounds: seq<Round>, k: nat, start: int)
    requires k < |order| && TimeGoesOn(start, rounds)
    ensures Monotone(start, Seen(order, rounds, k))
  {
    if rounds != [] {
      var n := |rounds| - 1;
      SeenInOrder(order, rounds[..n], k, start);
      var before := Seen(order, rounds[..n], k);
      forall i | 0 <= i < |before|
        ensures before[i] <= rounds[n].now
      {
        var j := SeenAt(order, rounds[..n], k, i);
      }
    }
  }

  /** One round does to service `k` what a poll does, or nothing. */
  lemma RoundStep(order: seq<Spec>, round: Round, before: Books, after: Books, k: nat)
    requires DistinctNames(order) && k < |order| && round.reached <= |order|
    requires Progress(order, round.reached, round.now, round.exited, round.restarted,
                      before.history, before.next, after.history, after.next)
    ensures var name := order[k].name;
      var was, left := Lookup(before.history, before.next, name), Lookup(after.history, after.next, name);
      if Considers(order, round, k) then Polled(left, name in round.restarted) == Poll(order[k].policy, was, round.now)
      else left == was && name !in round.restarted
  {
    if k >= round.reached {
      NamesUpToHas(order, round.reached, order[k].name);
    }
  }

  /** Among all the others, each service goes through the polls that considered it, as if it were alone. */
  lemma {:induction false} ServiceRunsAlone(order: seq<Spec>, rounds: seq<Round>, books: seq<Books>, k: nat, start: int)
    requires DistinctNames(order) && k < |order| && IsHistory(order, rounds, books)
    ensures var t := Run(order[k].policy, start, Seen(order, rounds, k));
      && Lookup(books[|rounds|].history, books[|rounds|].next, order[k].name) == t.service
      && RestartTimes(rounds, order[k].name) == t.restarts
  {
    if rounds != [] {
      var n := |rounds| - 1;
      HistoryPrefix(order, rounds, books);
      ServiceRunsAlone(order, rounds[..n], books[..n + 1], k, start);
      RoundStep(order, rounds[n], books[n], books[n + 1], k);
      var seen := Seen(order, rounds[..n], k);
      if Considers(order, rounds[n], k) {
        assert (seen + [rounds[n].now])[..|seen|] == seen;
      } else {
        assert Seen(order, rounds, k) == seen;
      }
    }
  }

  lemma HistoryPrefix(order: seq<Spec>, rounds: seq<Round>, books: seq<Books>)
    requires IsHistory(order, rounds, books) && rounds != []
    ensures IsHistory(order, rounds[..|rounds| - 1], books[..|rounds|])
  {
  }

  /** Whatever exits and whatever fails to start, no service is restarted too often in any window. */
  lemma EveryServiceIsLimited(order: seq<Spec>, rounds: seq<Round>, books: seq<Books>, k: nat, start: int, from: int)
    requires DistinctNames(order) && k < |order| && IsHistory(order, rounds, books)
    requires ValidPolicy(order[k].policy) && TimeGoesOn(start, rounds)
    ensures |Within(RestartTimes(rounds, order[k].name), from, from + order[k].policy.window)|
            <= order[k].policy.maxAttempts
  {
    SeenInOrder(order, rounds, k, start);
    ServiceRunsAlone(order, rounds, books, k, start);
    RestartsAreLimited(order[k].policy, start, Seen(order, rounds, k), from);
  }

  predicate OriginsAreSeen(t: Trace, polls: seq<int>) {
    && (forall i :: 0 <= i < |t.origins| ==> t.origins[i] in polls)
    && (t.scheduledAt.Some? ==> t.scheduledAt.value in polls)
  }

  lemma {:induction false} ScheduledBySomePoll(p: Policy, start: int, polls: seq<int>)
    ensures OriginsAreSeen(Run(p, start, polls), polls)
  {
    if polls != [] {
      var n := |polls| - 1;
      ScheduledBySomePoll(p, start, polls[..n]);
      assert forall x :: x in polls[..n] ==> x in polls;
      assert polls[n] in polls;
    }
  }

  /**
   * Each restart of a service comes the back-off or more after a round that considered it, since its restart
   * before.
   */
  lemma EveryServiceBacksOff(order: seq<Spec>, rounds: seq<Round>, books: seq<Books>, k: nat, start: int, i: nat)
    returns (j: nat)
    requires DistinctNames(order) && k < |order| && IsHistory(order, rounds, books)
    requires ValidPolicy(order[k].policy) && TimeGoesOn(start, rounds) && i < |RestartTimes(rounds, order[k].name)|
    ensures var restarts := RestartTimes(rounds, order[k].name);
      && j < |rounds| && Considers(order, rounds[j], k)
      && rounds[j].now + order[k].policy.backoff <= restarts[i]
      && (i > 0 ==> restarts[i - 1] <= rounds[j].now)
  {
    var polls := Seen(order, rounds, k);
    SeenInOrder(order, rounds, k, start);
    ServiceRunsAlone(order, rounds, books, k, start);
    RestartsAreBackedOff(order[k].policy, start, polls, i);
    ScheduledBySomePoll(order[k].policy, start, polls);
    var origin := Run(order[k].policy, start, polls).origins[i];
    var at :| 0 <= at < |polls| && polls[at] == origin;
    j := SeenAt(order, rounds, k, at);
  }

  lemma HistoryUpTo(order: seq<Spec>, rounds: seq<Round>, books: seq<Books>, n: nat)
    requires IsHistory(order, rounds, books) && n <= |rounds|
    ensures IsHistory(order, rounds[..n], books[..n + 1])
  {
  }

  lemma OneMoreRound(order: seq<Spec>, rounds: seq<Round>, k: nat, r: nat)
    requires k < |order| && r < |rounds|
    ensures RestartTimes(rounds[..r + 1], order[k].name) ==
            RestartTimes(rounds[..r], order[k].name) +
            if order[k].name in rounds[r].restarted then [rounds[r].now] else []
    ensures Seen(order, rounds[..r + 1], k) ==
            Seen(order, rounds[..r], k) + if Considers(order, rounds[r], k) then [rounds[r].now] else []
  {
    assert rounds[..r + 1][..r] == rounds[..r];
  }

  /** A round restarts a service exactly when it considers it and the restart is due. */
  lemma {:induction false} EveryServiceRestarts(order: seq<Spec>, rounds: seq<Round>, books: seq<Books>, k: nat,
                                                start: int, r: nat)
    requires DistinctNames(order) && k < |order| && r < |rounds| && IsHistory(order, rounds, books)
    requires ValidPolicy(order[k].policy) && TimeGoesOn(start, rounds)
    ensures order[k].name in rounds[r].restarted <==>
      && Considers(order, rounds[r], k)
      && var earlier := Seen(order, rounds[..r], k);
         Due(order[k].policy, start, earlier + [rounds[r].now], |earlier|)
  {
    var earlier, name := Seen(order, rounds[..r], k), order[k].name;
    RoundStep(order, rounds[r], books[r], books[r + 1], k);
    if Considers(order, rounds[r], k) {
      var polls := earlier + [rounds[r].now];
      OneMoreRound(order, rounds, k, r);
      SeenInOrder(order, rounds[..r + 1], k, start);
      HistoryUpTo(order, rounds, books, r);
      HistoryUpTo(order, rounds, books, r + 1);
      ServiceRunsAlone(order, rounds[..r], books[..r + 1], k, start);
      ServiceRunsAlone(order, rounds[..r + 1], books[..r + 2], k, start);
      RestartsExactly(order[k].policy, start, polls, |earlier|);
      assert polls[..|earlier|] == earlier && polls[..|earlier| + 1] == polls;
    }
  }
}
