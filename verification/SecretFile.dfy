/** The serialised read-modify-write of the encrypted secret file (secret-store.ts). */
module SecretFile {

  type Cipher = string

  datatype Entry = Entry(version: nat, cipher: Cipher)

  type File = map<string, Entry>

  datatype Op = Put(reference: string, cipher: Cipher) | Delete(reference: string)

  /** One operation applied to a loaded file. */
  function Apply(file: File, op: Op): File {
    match op
    case Put(reference, cipher) =>
      file[reference := Entry(if reference in file then file[reference].version + 1 else 1, cipher)]
    case Delete(reference) => file - {reference}
  }

  // -------------------------------------------------------------- the protocol

  /** Awaiting the previous write, holding a loaded copy, saved, or thrown. */
  datatype Phase = Waiting | Loaded(copy: File) | Saved | Failed

  datatype Call = Call(op: Op, phase: Phase)

  /** Calls in the order they were made: call k awaits the promise of call k-1, the writeTail it found. */
  datatype Store = Store(file: File, calls: seq<Call>)

  datatype Step = Request(op: Op) | Load(call: nat) | Save(call: nat) | Throw(call: nat)

  predicate Finished(c: Call) {
    c.phase == Saved || c.phase == Failed
  }

  predicate MayStart(s: Store, i: nat) {
    i < |s.calls| && s.calls[i].phase == Waiting && (i == 0 || Finished(s.calls[i - 1]))
  }

  predicate Enabled(s: Store, step: Step) {
    match step
    case Request(_) => true
    case Load(i) => MayStart(s, i)
    case Save(i) => i < |s.calls| && s.calls[i].phase.Loaded?
    case Throw(i) => MayStart(s, i) || (i < |s.calls| && s.calls[i].phase.Loaded?) // a failing load or save
  }

  /** A call fails, if it does, instead of loading or instead of saving. */
  lemma AnyStepMayFail(s: Store, i: nat)
    ensures Enabled(s, Throw(i)) <==> Enabled(s, Load(i)) || Enabled(s, Save(i))
  {
  }

  /** Saving replaces the whole file by the changed copy; a delete of nothing saves nothing. */
  function Do(s: Store, step: Step): Store
    requires Enabled(s, step)
  {
    match step
    case Request(op) => s.(calls := s.calls + [Call(op, Waiting)])
    case Load(i) => s.(calls := s.calls[i := s.calls[i].(phase := Loaded(s.file))])
    case Save(i) =>
      var op, copy := s.calls[i].op, s.calls[i].phase.copy;
      s.(file := if op.Delete? && op.reference !in copy then s.file else Apply(copy, op),
         calls := s.calls[i := s.calls[i].(phase := Saved)])
    case Throw(i) => s.(calls := s.calls[i := s.calls[i].(phase := Failed)])
  }

  /** The sequential meaning: the successful calls, one after the other, in call order. */
  function Sequential(initial: File, calls: seq<Call>): File {
    if calls == [] then initial
    else
      var before := Sequential(initial, calls[..|calls| - 1]);
      if calls[|calls| - 1].phase == Saved then Apply(before, calls[|calls| - 1].op) else before
  }

  /** Calls finish in order, one at a time. */
  ghost predicate InTurn(calls: seq<Call>) {
    forall i, j :: 0 <= i < j < |calls| && !Finished(calls[i]) ==> calls[j].phase == Waiting
  }

  /** A loaded copy is still the file. */
  ghost predicate CopiesAreCurrent(s: Store) {
    forall i :: 0 <= i < |s.calls| && s.calls[i].phase.Loaded? ==> s.calls[i].phase.copy == s.file
  }

  ghost predicate Inv(initial: File, s: Store) {
    InTurn(s.calls) && CopiesAreCurrent(s) && s.file == Sequential(initial, s.calls)
  }

  lemma {:induction false} NothingSaved(initial: File, calls: seq<Call>, n: nat)
    requires n <= |calls| && forall i :: n <= i < |calls| ==> calls[i].phase != Saved
    ensures Sequential(initial, calls) == Sequential(initial, calls[..n])
    decreases |calls|
  {
    if n < |calls| {
      var init := calls[..|calls| - 1];
      NothingSaved(initial, init, n);
      assert init[..n] == calls[..n];
    } else {
      assert calls[..n] == calls;
    }
  }

  /** While call `i` is unfinished the file is what the calls before it made. */
  lemma FileBefore(initial: File, s: Store, i: nat)
    requires Inv(initial, s) && i < |s.calls| && !Finished(s.calls[i])
    ensures s.file == Sequential(initial, s.calls[..i])
  {
    NothingSaved(initial, s.calls, i);
  }

  lemma SaveIsSequential(initial: File, s: Store, i: nat)
    requires Inv(initial, s) && Enabled(s, Save(i))
    ensures Do(s, Save(i)).file == Sequential(initial, Do(s, Save(i)).calls)
  {
    var t := Do(s, Save(i));
    FileBefore(initial, s, i);
    NothingSaved(initial, t.calls, i + 1);
    assert t.calls[..i + 1][..i] == s.calls[..i];
    var op := s.calls[i].op;
    if op.Delete? && op.reference !in s.file {
      assert s.file - {op.reference} == s.file;
    }
  }

  lemma PhaseChangeKeepsFile(initial: File, s: Store, i: nat, phase: Phase)
    requires Inv(initial, s) && i < |s.calls| && !Finished(s.calls[i]) && phase != Saved
    ensures Sequential(initial, s.calls[i := s.calls[i].(phase := phase)]) == s.file
  {
    var calls := s.calls[i := s.calls[i].(phase := phase)];
    FileBefore(initial, s, i);
    NothingSaved(initial, calls, i);
    assert calls[..i] == s.calls[..i];
  }

  lemma StepKeepsTurn(s: Store, step: Step)
    requires InTurn(s.calls) && Enabled(s, step)
    ensures InTurn(Do(s, step).calls)
  {
  }

  lemma StepKeepsCopies(s: Store, step: Step)
    requires InTurn(s.calls) && CopiesAreCurrent(s) && Enabled(s, step)
    ensures CopiesAreCurrent(Do(s, step))
  {
  }

  lemma StepKeepsInv(initial: File, s: Store, step: Step)
    requires Inv(initial, s) && Enabled(s, step)
    ensures Inv(initial, Do(s, step))
  {
    StepKeepsTurn(s, step);
    StepKeepsCopies(s, step);
    match step
    case Request(op) =>
      assert (s.calls + [Call(op, Waiting)])[..|s.calls|] == s.calls;
    case Load(i) => PhaseChangeKeepsFile(initial, s, i, Loaded(s.file));
    case Save(i) => SaveIsSequential(initial, s, i);
    case Throw(i) => PhaseChangeKeepsFile(initial, s, i, Failed);
  }

  predicate IsRun(s: Store, steps: seq<Step>)
    decreases steps
  {
    steps == [] || (Enabled(s, steps[0]) && IsRun(Do(s, steps[0]), steps[1..]))
  }

  function Final(s: Store, steps: seq<Step>): Store
    requires IsRun(s, steps)
    decreases steps
  {
    if steps == [] then s else Final(Do(s, steps[0]), steps[1..])
  }

  lemma {:induction false} RunKeepsInv(initial: File, s: Store, steps: seq<Step>)
    requires Inv(initial, s) && IsRun(s, steps)
    ensures Inv(initial, Final(s, steps))
    decreases steps
  {
    if steps != [] {
      StepKeepsInv(initial, s, steps[0]);
      RunKeepsInv(initial, Do(s, steps[0]), steps[1..]);
    }
  }

  /** The file as it was found, and no calls yet. */
  function Found(initial: File): Store {
    Store(initial, [])
  }

  /** In every interleaving the file is the successful puts and deletes applied one by one in call order. */
  lemma FileIsSequential(initial: File, steps: seq<Step>)
    requires IsRun(Found(initial), steps)
    ensures Final(Found(initial), steps).file == Sequential(initial, Final(Found(initial), steps).calls)
  {
    RunKeepsInv(initial, Found(initial), steps);
  }

  // ------------------------------------------------------------------- progress

  /** Steps a call can still take. */
  function StepsLeft(phase: Phase): nat {
    match phase
    case Waiting => 2
    case Loaded(_) => 1
    case Saved => 0
    case Failed => 0
  }

  function Remaining(calls: seq<Call>): (n: nat)
    ensures n <= 2 * |calls|
  {
    if calls == [] then 0 else Remaining(calls[..|calls| - 1]) + StepsLeft(calls[|calls| - 1].phase)
  }

  lemma {:induction false} RemainingAfter(calls: seq<Call>, i: nat, c: Call)
    requires i < |calls|
    ensures Remaining(calls[i := c]) == Remaining(calls) - StepsLeft(calls[i].phase) + StepsLeft(c.phase)
  {
    var n := |calls| - 1;
    if i == n {
      assert calls[i := c][..n] == calls[..n];
    } else {
      assert calls[i := c][..n] == calls[..n][i := c];
      RemainingAfter(calls[..n], i, c);
    }
  }

  predicate NoRequests(steps: seq<Step>) {
    forall i :: 0 <= i < |steps| ==> !steps[i].Request?
  }

  lemma {:induction false} StepsAreUsedUp(s: Store, steps: seq<Step>)
    requires IsRun(s, steps) && NoRequests(steps)
    ensures |steps| + Remaining(Final(s, steps).calls) <= Remaining(s.calls)
    decreases steps
  {
    if steps != [] {
      var c := steps[0].call;
      RemainingAfter(s.calls, c, Do(s, steps[0]).calls[c]);
      assert Do(s, steps[0]).calls == s.calls[c := Do(s, steps[0]).calls[c]];
      StepsAreUsedUp(Do(s, steps[0]), steps[1..]);
    }
  }

  /** Nothing but a new request can happen. */
  ghost predicate AtRest(s: Store) {
    forall c: nat :: !Enabled(s, Load(c)) && !Enabled(s, Save(c))
  }

  /** A call that is not stuck behind another can go on, so a store at rest has only finished calls. */
  lemma {:induction false} RestMeansFinished(s: Store, n: nat)
    requires AtRest(s) && n <= |s.calls|
    ensures forall i :: 0 <= i < n ==> Finished(s.calls[i])
  {
    if n > 0 {
      RestMeansFinished(s, n - 1);
      assert !Enabled(s, Load(n - 1)) && !Enabled(s, Save(n - 1));
    }
  }

  /**
   * After any history, no schedule without new requests is longer than two steps a call, and where it cannot go on
   * every call has finished, so the file is the successful ones applied in call order.
   */
  lemma EveryCallFinishes(initial: File, history: seq<Step>, steps: seq<Step>)
    requires IsRun(Found(initial), history) && IsRun(Final(Found(initial), history), steps) && NoRequests(steps)
    ensures var s := Final(Found(initial), history); var t := Final(s, steps);
      && |steps| <= 2 * |s.calls|
      && (AtRest(t) ==>
            t.file == Sequential(initial, t.calls) && forall i :: 0 <= i < |t.calls| ==> Finished(t.calls[i]))
  {
    var s := Final(Found(initial), history);
    var t := Final(s, steps);
    StepsAreUsedUp(s, steps);
    RunKeepsInv(initial, Found(initial), history);
    RunKeepsInv(initial, s, steps);
    if AtRest(t) {
      RestMeansFinished(t, |t.calls|);
    }
  }

  // ------------------------------------------------------------------- versions

  /** Successful puts of a reference since its last successful delete. */
  function PutsSinceDelete(calls: seq<Call>, reference: string): nat {
    if calls == [] then 0
    else
      var before := PutsSinceDelete(calls[..|calls| - 1], reference);
      var last := calls[|calls| - 1];
      if last.phase != Saved || last.op.reference != reference then before
      else if last.op.Put? then before + 1 else 0
  }

  /** A reference's version counts its puts since it was last deleted; it exists exactly while that is positive. */
  lemma {:induction false} VersionsCountPuts(calls: seq<Call>, reference: string)
    ensures var file := Sequential(map[], calls); var n := PutsSinceDelete(calls, reference);
      && (reference in file <==> n > 0)
      && (reference in file ==> file[reference].version == n)
  {
    if calls != [] {
      VersionsCountPuts(calls[..|calls| - 1], reference);
    }
  }

  lemma OneMoreSaved(calls: seq<Call>, op: Op)
    ensures Sequential(map[], calls + [Call(op, Saved)]) == Apply(Sequential(map[], calls), op)
  {
    assert (calls + [Call(op, Saved)])[..|calls|] == calls;
  }

  // --------------------------------------------------------------------- the code

  /** The two operations as they run inside the write lock. */
  class EncryptedFileStore {
    var file: File

    constructor ()
      ensures file == map[]
    {
      file := map[];
    }

    /**
     * The body of put inside the lock: with `calls` behind it, the version is the next number since the last
     * delete.
     */
    method Put(reference: string, cipher: Cipher, ghost calls: seq<Call>) returns (version: nat)
      modifies this
      ensures file == Apply(old(file), Op.Put(reference, cipher))
      ensures reference in file && file[reference] == Entry(version, cipher)
      ensures forall r :: r != reference ==> (r in file <==> r in old(file)) && (r in file ==> file[r] == old(file)[r])
      ensures old(file) == Sequential(map[], calls) ==>
        version == PutsSinceDelete(calls, reference) + 1
        && file == Sequential(map[], calls + [Call(Op.Put(reference, cipher), Saved)])
    {
      VersionsCountPuts(calls, reference);
      OneMoreSaved(calls, Op.Put(reference, cipher));
      var loaded := file;
      version := if reference in loaded then loaded[reference].version + 1 else 1;
      loaded := loaded[reference := Entry(version, cipher)];
      file := loaded;
    }

    /** The body of delete inside the lock. */
    method Delete(reference: string, ghost calls: seq<Call>)
      modifies this
      ensures file == Apply(old(file), Op.Delete(reference))
      ensures old(file) == Sequential(map[], calls) ==>
        file == Sequential(map[], calls + [Call(Op.Delete(reference), Saved)])
    {
      OneMoreSaved(calls, Op.Delete(reference));
      var loaded := file;
      if reference !in loaded {
        assert loaded - {reference} == loaded;
        return;
      }
      file := loaded - {reference};
    }
  }
}
