/** The per-key promise chain of withSecretMutationLock (app.ts). */
module SecretLock {
  import opened Wrappers

  /** Waiting on the previous caller's promise, inside the operation, or past the finally block. */
  datatype Phase = Waiting | Running | Done

  /** Callers are numbered in order of arrival; `previous` is whose promise this one awaits. */
  datatype Caller = Caller(key: string, previous: Option<nat>, phase: Phase)

  /** `tails` is the Map; its values stand for promises, each named by the caller that created it. */
  datatype Locks = Locks(tails: map<string, nat>, callers: seq<Caller>, entered: seq<nat>)

  const EMPTY := Locks(map[], [], [])

  datatype Step = Arrive(key: string) | Enter(caller: nat) | Exit(caller: nat)

  predicate Resolved(s: Locks, promise: Option<nat>) {
    match promise
    case None => true
    case Some(p) => p < |s.callers| && s.callers[p].phase == Done
  }

  predicate Enabled(s: Locks, step: Step) {
    match step
    case Arrive(_) => true
    case Enter(i) => i < |s.callers| && s.callers[i].phase == Waiting && Resolved(s, s.callers[i].previous)
    case Exit(i) => i < |s.callers| && s.callers[i].phase == Running
  }

  function Do(s: Locks, step: Step): Locks
    requires Enabled(s, step)
  {
    match step
    case Arrive(key) =>
      var previous := if key in s.tails then Some(s.tails[key]) else None;
      s.(tails := s.tails[key := |s.callers|], callers := s.callers + [Caller(key, previous, Waiting)])
    case Enter(i) =>
      s.(callers := s.callers[i := s.callers[i].(phase := Running)], entered := s.entered + [i])
    case Exit(i) =>
      var key := s.callers[i].key;
      s.(callers := s.callers[i := s.callers[i].(phase := Done)],
         tails := if key in s.tails && s.tails[key] == i then s.tails - {key} else s.tails)
  }

  // ------------------------------------------------------------------ the invariant

  /** A later caller of a key waits as long as an earlier one is unfinished. */
  ghost predicate InTurn(s: Locks) {
    forall i, j :: 0 <= i < j < |s.callers| && s.callers[i].key == s.callers[j].key && s.callers[i].phase != Done
      ==> s.callers[j].phase == Waiting
  }

  /** A waiting caller awaits its direct predecessor on the key, or there is nobody left to await. */
  ghost predicate AwaitsPredecessor(s: Locks, j: nat)
    requires j < |s.callers|
  {
    match s.callers[j].previous
    case None => forall i :: 0 <= i < j && s.callers[i].key == s.callers[j].key ==> s.callers[i].phase == Done
    case Some(p) =>
      && p < j && s.callers[p].key == s.callers[j].key
      && forall i :: p < i < j ==> s.callers[i].key != s.callers[j].key
  }

  /** The map holds a key exactly while the key has an unfinished caller, and then its last arrival. */
  ghost predicate MapIsExact(s: Locks) {
    && (forall k :: k in s.tails ==>
          && s.tails[k] < |s.callers| && s.callers[s.tails[k]].key == k && s.callers[s.tails[k]].phase != Done
          && forall i :: s.tails[k] < i < |s.callers| ==> s.callers[i].key != k)
    && (forall i :: 0 <= i < |s.callers| && s.callers[i].phase != Done ==> s.callers[i].key in s.tails)
  }

  /** Callers of one key entered in the order they arrived. */
  ghost predicate Fifo(s: Locks) {
    && (forall a :: 0 <= a < |s.entered| ==> s.entered[a] < |s.callers| && s.callers[s.entered[a]].phase != Waiting)
    && (forall i :: 0 <= i < |s.callers| && s.callers[i].phase != Waiting ==> i in s.entered)
    && (forall a, b :: 0 <= a < b < |s.entered| && s.callers[s.entered[a]].key == s.callers[s.entered[b]].key
          ==> s.entered[a] < s.entered[b])
  }

  ghost predicate Inv(s: Locks) {
    && InTurn(s) && MapIsExact(s) && Fifo(s)
    && forall j :: 0 <= j < |s.callers| && s.callers[j].phase == Waiting ==> AwaitsPredecessor(s, j)
  }

  /** When a caller's turn has come, everyone before it on the key has finished. */
  lemma EarlierAreDone(s: Locks, j: nat)
    requires Inv(s) && Enabled(s, Enter(j))
    ensures forall i :: 0 <= i < j && s.callers[i].key == s.callers[j].key ==> s.callers[i].phase == Done
  {
    assert AwaitsPredecessor(s, j);
  }

  lemma FifoAfterArrive(s: Locks, key: string)
    requires Fifo(s)
    ensures Fifo(Do(s, Arrive(key)))
  {
  }

  lemma MapAfterArrive(s: Locks, key: string)
    requires MapIsExact(s)
    ensures MapIsExact(Do(s, Arrive(key))) && AwaitsPredecessor(Do(s, Arrive(key)), |s.callers|)
  {
  }

  lemma InTurnAfterArrive(s: Locks, key: string)
    requires InTurn(s)
    ensures InTurn(Do(s, Arrive(key)))
  {
  }

  lemma AwaitsAfterArrive(s: Locks, key: string, j: nat)
    requires j < |s.callers| && AwaitsPredecessor(s, j)
    ensures AwaitsPredecessor(Do(s, Arrive(key)), j)
  {
  }

  lemma ArriveKeepsInv(s: Locks, key: string)
    requires Inv(s)
    ensures Inv(Do(s, Arrive(key)))
  {
    FifoAfterArrive(s, key);
    MapAfterArrive(s, key);
    InTurnAfterArrive(s, key);
    forall j | 0 <= j < |s.callers| && s.callers[j].phase == Waiting
      ensures AwaitsPredecessor(Do(s, Arrive(key)), j)
    {
      AwaitsAfterArrive(s, key, j);
    }
  }

  lemma FifoAfterEnter(s: Locks, c: nat)
    requires InTurn(s) && Fifo(s) && Enabled(s, Enter(c))
    requires forall i :: 0 <= i < c && s.callers[i].key == s.callers[c].key ==> s.callers[i].phase == Done
    ensures Fifo(Do(s, Enter(c)))
  {
    var t := Do(s, Enter(c));
    assert t.entered[|s.entered|] == c;
    forall i | 0 <= i < |t.callers| && t.callers[i].phase != Waiting
      ensures i in t.entered
    {
      assert i == c || i in s.entered;
    }
  }

  /** One caller moves forward; nothing else about the callers changes. */
  ghost predicate Advances(s: Locks, t: Locks, c: nat) {
    && c < |s.callers| && |t.callers| == |s.callers| && s.callers[c].phase != Done && t.callers[c].phase != Waiting
    && t.callers[c].key == s.callers[c].key && t.callers[c].previous == s.callers[c].previous
    && forall i :: 0 <= i < |s.callers| && i != c ==> t.callers[i] == s.callers[i]
  }

  lemma AwaitsAfterAdvance(s: Locks, t: Locks, c: nat, j: nat)
    requires Advances(s, t, c) && j < |s.callers| && AwaitsPredecessor(s, j)
    ensures AwaitsPredecessor(t, j)
  {
  }

  lemma InTurnAfterAdvance(s: Locks, t: Locks, c: nat)
    requires Advances(s, t, c) && InTurn(s)
    requires forall i :: 0 <= i < c && s.callers[i].key == s.callers[c].key ==> s.callers[i].phase == Done
    ensures InTurn(t)
  {
    forall i, j | 0 <= i < j < |t.callers| && t.callers[i].key == t.callers[j].key && t.callers[i].phase != Done
      ensures t.callers[j].phase == Waiting
    {
      assert s.callers[i].phase != Done;
    }
  }

  lemma MapAfterEnter(s: Locks, c: nat)
    requires MapIsExact(s) && Enabled(s, Enter(c))
    ensures MapIsExact(Do(s, Enter(c)))
  {
  }

  lemma MapAfterExit(s: Locks, c: nat)
    requires InTurn(s) && MapIsExact(s) && Enabled(s, Exit(c))
    ensures MapIsExact(Do(s, Exit(c)))
  {
    var t := Do(s, Exit(c));
    forall i | 0 <= i < |t.callers| && t.callers[i].phase != Done
      ensures t.callers[i].key in t.tails
    {
      assert s.callers[i].phase != Done;
    }
  }

  lemma FifoAfterExit(s: Locks, c: nat)
    requires Fifo(s) && Enabled(s, Exit(c))
    ensures Fifo(Do(s, Exit(c)))
  {
  }

  lemma EnterKeepsInv(s: Locks, c: nat)
    requires Inv(s) && Enabled(s, Enter(c))
    ensures Inv(Do(s, Enter(c)))
  {
    var t := Do(s, Enter(c));
    EarlierAreDone(s, c);
    InTurnAfterAdvance(s, t, c);
    FifoAfterEnter(s, c);
    MapAfterEnter(s, c);
    forall j | 0 <= j < |t.callers| && t.callers[j].phase == Waiting
      ensures AwaitsPredecessor(t, j)
    {
      AwaitsAfterAdvance(s, t, c, j);
    }
  }

  lemma ExitKeepsInv(s: Locks, c: nat)
    requires Inv(s) && Enabled(s, Exit(c))
    ensures Inv(Do(s, Exit(c)))
  {
    var t := Do(s, Exit(c));
    InTurnAfterAdvance(s, t, c);
    FifoAfterExit(s, c);
    MapAfterExit(s, c);
    forall j | 0 <= j < |t.callers| && t.callers[j].phase == Waiting
      ensures AwaitsPredecessor(t, j)
    {
      AwaitsAfterAdvance(s, t, c, j);
    }
  }

  predicate IsRun(s: Locks, steps: seq<Step>)
    decreases steps
  {
    steps == [] || (Enabled(s, steps[0]) && IsRun(Do(s, steps[0]), steps[1..]))
  }

  function Final(s: Locks, steps: seq<Step>): Locks
    requires IsRun(s, steps)
    decreases steps
  {
    if steps == [] then s else Final(Do(s, steps[0]), steps[1..])
  }

  lemma {:induction false} RunKeepsInv(s: Locks, steps: seq<Step>)
    requires Inv(s) && IsRun(s, steps)
    ensures Inv(Final(s, steps))
    decreases steps
  {
    if steps != [] {
      match steps[0] {
        case Arrive(key) => ArriveKeepsInv(s, key);
        case Enter(c) => EnterKeepsInv(s, c);
        case Exit(c) => ExitKeepsInv(s, c);
      }
      RunKeepsInv(Do(s, steps[0]), steps[1..]);
    }
  }

  // ------------------------------------------------------------------- main results

  /** At most one caller of a key is inside its operation, whatever the schedule. */
  lemma MutualExclusion(steps: seq<Step>, i: nat, j: nat)
    requires IsRun(EMPTY, steps)
    requires var s := Final(EMPTY, steps);
      && i < |s.callers| && j < |s.callers| && s.callers[i].key == s.callers[j].key
      && s.callers[i].phase == Running && s.callers[j].phase == Running
    ensures i == j
  {
    RunKeepsInv(EMPTY, steps);
  }

  /** Entry is first come, first served, and the map is exact, after every run. */
  lemma FifoAndExactMap(steps: seq<Step>)
    requires IsRun(EMPTY, steps)
    ensures Fifo(Final(EMPTY, steps)) && MapIsExact(Final(EMPTY, steps))
    ensures Final(EMPTY, steps).tails == map[] <==> forall c :: c in Final(EMPTY, steps).callers ==> c.phase == Done
  {
    RunKeepsInv(EMPTY, steps);
    var s := Final(EMPTY, steps);
    if s.tails != map[] {
      var k :| k in s.tails;
      assert s.callers[s.tails[k]] in s.callers;
    }
  }

  /** The earliest unfinished caller on the key of caller `i`, searching from `from`. */
  lemma {:induction false} FirstUnfinished(s: Locks, i: nat, from: nat) returns (first: nat)
    requires from <= i < |s.callers| && s.callers[i].phase != Done
    requires forall k :: 0 <= k < from && s.callers[k].key == s.callers[i].key ==> s.callers[k].phase == Done
    ensures first <= i && s.callers[first].key == s.callers[i].key && s.callers[first].phase != Done
    ensures forall k :: 0 <= k < first && s.callers[k].key == s.callers[i].key ==> s.callers[k].phase == Done
    decreases i - from
  {
    first := from;
    if s.callers[from].key != s.callers[i].key || s.callers[from].phase == Done {
      first := FirstUnfinished(s, i, from + 1);
    }
  }

  lemma FirstCanMove(s: Locks, first: nat)
    requires first < |s.callers| && s.callers[first].phase != Done
    requires s.callers[first].phase == Waiting ==> AwaitsPredecessor(s, first)
    requires forall k :: 0 <= k < first && s.callers[k].key == s.callers[first].key ==> s.callers[k].phase == Done
    ensures Enabled(s, Enter(first)) || Enabled(s, Exit(first))
  {
  }

  /** No key is ever stuck: its first unfinished caller is running or may enter now. */
  lemma NoDeadlock(steps: seq<Step>, i: nat) returns (first: nat)
    requires IsRun(EMPTY, steps)
    requires var s := Final(EMPTY, steps); i < |s.callers| && s.callers[i].phase != Done
    ensures var s := Final(EMPTY, steps);
      && first <= i && s.callers[first].key == s.callers[i].key
      && (Enabled(s, Enter(first)) || Enabled(s, Exit(first)))
  {
    RunKeepsInv(EMPTY, steps);
    var s := Final(EMPTY, steps);
    first := FirstUnfinished(s, i, 0);
    FirstCanMove(s, first);
  }

  // --------------------------------------------------------------------- progress

  /** Steps a caller still has to take. */
  function StepsLeft(phase: Phase): nat {
    match phase
    case Waiting => 2
    case Running => 1
    case Done => 0
  }

  function Remaining(callers: seq<Caller>): (n: nat)
    ensures n <= 2 * |callers|
  {
    if callers == [] then 0 else Remaining(callers[..|callers| - 1]) + StepsLeft(callers[|callers| - 1].phase)
  }

  lemma {:induction false} RemainingAfter(callers: seq<Caller>, i: nat, c: Caller)
    requires i < |callers|
    ensures Remaining(callers[i := c]) == Remaining(callers) - StepsLeft(callers[i].phase) + StepsLeft(c.phase)
  {
    var n := |callers| - 1;
    if i == n {
      assert callers[i := c][..n] == callers[..n];
    } else {
      assert callers[i := c][..n] == callers[..n][i := c];
      RemainingAfter(callers[..n], i, c);
    }
  }

  predicate NoArrivals(steps: seq<Step>) {
    forall i :: 0 <= i < |steps| ==> !steps[i].Arrive?
  }

  /** Without new arrivals every step uses up one of the steps the callers have left. */
  lemma {:induction false} StepsAreUsedUp(s: Locks, steps: seq<Step>)
    requires IsRun(s, steps) && NoArrivals(steps)
    ensures |steps| + Remaining(Final(s, steps).callers) == Remaining(s.callers)
    decreases steps
  {
    if steps != [] {
      var c := steps[0].caller;
      RemainingAfter(s.callers, c, Do(s, steps[0]).callers[c]);
      assert Do(s, steps[0]).callers == s.callers[c := Do(s, steps[0]).callers[c]];
      StepsAreUsedUp(Do(s, steps[0]), steps[1..]);
    }
  }

  lemma {:induction false} RunsJoin(s: Locks, a: seq<Step>, b: seq<Step>)
    requires IsRun(s, a) && IsRun(Final(s, a), b)
    ensures IsRun(s, a + b) && Final(s, a + b) == Final(Final(s, a), b)
    decreases a
  {
    if a == [] {
      assert a + b == b;
    } else {
      RunsJoin(Do(s, a[0]), a[1..], b);
      assert (a + b)[1..] == a[1..] + b;
    }
  }

  /**
   * After any history, no schedule without new arrivals is longer than two steps a caller, and where it cannot go on
   * every caller has finished and the map is empty.
   */
  lemma EveryCallerFinishes(history: seq<Step>, steps: seq<Step>)
    requires IsRun(EMPTY, history)
    requires IsRun(Final(EMPTY, history), steps) && NoArrivals(steps)
    ensures var s := Final(EMPTY, history); var t := Final(s, steps);
      && |steps| <= 2 * |s.callers|
      && ((forall c: nat :: !Enabled(t, Enter(c)) && !Enabled(t, Exit(c))) ==>
            t.tails == map[] && forall i :: 0 <= i < |t.callers| ==> t.callers[i].phase == Done)
  {
    var s := Final(EMPTY, history);
    StepsAreUsedUp(s, steps);
    RunsJoin(EMPTY, history, steps);
    FifoAndExactMap(history + steps);
    var t := Final(s, steps);
    if i: nat :| i < |t.callers| && t.callers[i].phase != Done {
      var first := NoDeadlock(history + steps, i);
    }
  }

  // --------------------------------------------------------------------- the code

  /** Everybody else on the key of caller `c` that came before it has finished. */
  ghost predicate EarlierDone(s: Locks, c: nat)
    requires c < |s.callers|
  {
    forall i :: 0 <= i < c && s.callers[i].key == s.callers[c].key ==> s.callers[i].phase == Done
  }

  /** Nobody but caller `c` is inside on its key. */
  ghost predicate Alone(s: Locks, c: nat)
    requires c < |s.callers|
  {
    forall i :: 0 <= i < |s.callers| && s.callers[i].key == s.callers[c].key && s.callers[i].phase == Running ==> i == c
  }

  /** `c` is the first unfinished caller on its key. */
  ghost predicate IsNext(s: Locks, c: nat)
    requires c < |s.callers|
  {
    s.callers[c].phase != Done && EarlierDone(s, c)
  }

  /** A caller may enter exactly when it waits and everybody before it on the key has finished. */
  lemma MayEnterWhenFirst(s: Locks, c: nat)
    requires Inv(s) && c < |s.callers| && s.callers[c].phase == Waiting
    ensures Enabled(s, Enter(c)) <==> EarlierDone(s, c)
  {
    assert AwaitsPredecessor(s, c);
    if Enabled(s, Enter(c)) {
      EarlierAreDone(s, c);
    }
  }

  /** The code itself: the Map is changed before the await and after the release. */
  class MutationLocks {
    var tails: map<string, nat>
    var callers: seq<Caller>
    ghost var entered: seq<nat>

    ghost function Model(): Locks
      reads this
    {
      Locks(tails, callers, entered)
    }

    ghost predicate Valid()
      reads this
    {
      Inv(Model())
    }

    constructor ()
      ensures Valid() && Model() == EMPTY
    {
      tails, callers, entered := map[], [], [];
    }

    /** Everything up to `await previous`: the await returns at once exactly when nobody on the key is unfinished. */
    method Arrive(key: string) returns (current: nat)
      requires Valid()
      modifies this
      ensures Valid() && Model() == Do(old(Model()), Step.Arrive(key))
      ensures current == |old(callers)| < |callers| && callers[..current] == old(callers)
      ensures callers[current].key == key && callers[current].phase == Waiting
      ensures Enabled(Model(), Step.Enter(current)) <==>
        forall i :: 0 <= i < current && callers[i].key == key ==> callers[i].phase == Done
    {
      ArriveKeepsInv(Model(), key);
      var previous := if key in tails then Some(tails[key]) else None;
      current := |callers|;
      tails := tails[key := current];
      callers := callers + [Caller(key, previous, Waiting)];
      MayEnterWhenFirst(Model(), current);
    }

    /** The await returns and the operation starts: whoever enters is the only one inside, and the first in line. */
    method Enter(current: nat)
      requires Valid() && Enabled(Model(), Step.Enter(current))
      modifies this
      ensures Valid() && Model() == Do(old(Model()), Step.Enter(current))
      ensures callers[current].phase == Running && IsNext(Model(), current) && Alone(Model(), current)
    {
      EnterKeepsInv(Model(), current);
      EarlierAreDone(Model(), current);
      callers := callers[current := callers[current].(phase := Running)];
      entered := entered + [current];
    }

    /**
     * The finally block: release, then remove the map entry if it is still this caller's. The next in line may enter,
     * and the key stays in the map exactly while there is one.
     */
    method Exit(current: nat)
      requires Valid() && Enabled(Model(), Step.Exit(current))
      modifies this
      ensures Valid() && Model() == Do(old(Model()), Step.Exit(current))
      ensures forall j :: 0 <= j < |callers| && callers[j].key == callers[current].key && IsNext(Model(), j) ==>
        Enabled(Model(), Step.Enter(j))
      ensures callers[current].key in tails <==>
        exists j :: 0 <= j < |callers| && callers[j].key == callers[current].key && IsNext(Model(), j)
    {
      ghost var t := Do(Model(), Step.Exit(current));
      ExitKeepsInv(Model(), current);
      NextAfterExit(Model(), current);
      var key := callers[current].key;
      callers := callers[current := callers[current].(phase := Done)];
      if key in tails && tails[key] == current {
        tails := tails - {key};
      }
      assert Model() == t;
    }
  }

  lemma NextAfterExit(s: Locks, c: nat)
    requires Inv(s) && Enabled(s, Exit(c))
    ensures var t := Do(s, Exit(c)); var key := s.callers[c].key;
      && (forall j :: 0 <= j < |t.callers| && t.callers[j].key == key && IsNext(t, j) ==> Enabled(t, Enter(j)))
      && (key in t.tails <==> exists j :: 0 <= j < |t.callers| && t.callers[j].key == key && IsNext(t, j))
  {
    var t, key := Do(s, Exit(c)), s.callers[c].key;
    ExitKeepsInv(s, c);
    forall j | 0 <= j < |t.callers| && t.callers[j].key == key && IsNext(t, j)
      ensures Enabled(t, Enter(j))
    {
      assert s.callers[j].key == key;
      assert t.callers[j].phase == Waiting;
      MayEnterWhenFirst(t, j);
    }
    if key in t.tails {
      var first := FirstUnfinished(t, t.tails[key], 0);
      assert IsNext(t, first);
    }
  }
}
