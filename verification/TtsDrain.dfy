/**
 * The graceful tts/stop drain (main.c) as three tasks taking small interleaved steps.
 * Every lock section is one step; each unlocked read or write of shared state is a step of its own.
 */
module TtsDrain {
  import opened DeviceState

  // -------------------------------------------------------------- program points

  /** Inside service_playback_idle: before reading playback_busy, before reading the queue, before the lock. */
  datatype Service = ReadBusy | ReadQueue | AtLock

  /** The websocket callback thread. */
  datatype WsPoint =
    | WsRest
    | StartClear | StartReset | StartApply   // tts/start
    | StopMark(auto: bool)                   // schedule_graceful_tts_stop, before its lock section
    | AbortClear(alert: bool) | AbortReset(alert: bool) | AbortApply(alert: bool) // barge-in or alert
    | WsService(at: Service)

  /** playback_task; Holding is the gap between the dequeue and playback_busy = true. */
  datatype PlayPoint = Receive | Holding | Decoding | PlayService(at: Service)

  /** The interrupt path of ptt_task. */
  datatype PttPoint =
    | PttRest | PttClear(rearm: bool) | PttReset(rearm: bool) | PttApply(rearm: bool) | PttService(at: Service)

  datatype Sys = Sys(
    state: State, pending: bool, auto: bool, busy: bool, queue: nat,
    ws: WsPoint, play: PlayPoint, ptt: PttPoint)

  const INITIAL := Sys(Idle, false, false, false, 0, WsRest, Receive, PttRest)

  // ----------------------------------------------------------------------- steps

  datatype Step =
    | Audio | StartMessage | StopMessage(auto: bool) | AbortMessage(alert: bool) | ReadyMessage // new websocket input
    | Interrupt(rearm: bool)                                                                   // button or wake word
    | Other(event: Event) | TransportClear                                                     // the remaining tasks
    | WsStep | PlayStep | PttStep                                                              // a task moves on

  predicate IsInternal(step: Step) {
    step == WsStep || step == PlayStep || step == PttStep
  }

  /** What the lock section of service_playback_idle does. */
  function Complete(s: Sys): Sys {
    if !s.pending then s
    else s.(pending := false,
            state := if s.state != Speaking then s.state
                     else After(Speaking, if s.auto then TtsStopAuto else TtsStopManual))
  }

  /** The next program point inside service_playback_idle, or None when it returns. */
  datatype Next = Goes(at: Service) | Returns

  function ServiceNext(s: Sys, at: Service): Next {
    match at
    case ReadBusy => if s.busy then Returns else Goes(ReadQueue)
    case ReadQueue => if s.queue > 0 then Returns else Goes(AtLock)
    case AtLock => Returns
  }

  function ServiceEffect(s: Sys, at: Service): Sys {
    if at == AtLock then Complete(s) else s
  }

  function WsMoves(s: Sys): Sys {
    match s.ws
    case WsRest => s
    case StartClear => s.(pending := false, ws := StartReset)
    case StartReset => s.(queue := 0, ws := StartApply)
    case StartApply => s.(state := After(s.state, TtsStart), ws := WsRest)
    case StopMark(auto) =>
      if s.state == Speaking then s.(pending := true, auto := auto, ws := WsService(ReadBusy)) else s.(ws := WsRest)
    case AbortClear(alert) => s.(pending := false, ws := AbortReset(alert))
    case AbortReset(alert) => s.(queue := 0, ws := AbortApply(alert))
    case AbortApply(alert) => s.(state := After(s.state, Abort), ws := if alert then WsService(ReadBusy) else WsRest)
    case WsService(at) =>
      ServiceEffect(s, at).(ws := if ServiceNext(s, at).Goes? then WsService(ServiceNext(s, at).at) else WsRest)
  }

  function PlayMoves(s: Sys): Sys {
    match s.play
    case Receive => if s.queue > 0 then s.(queue := s.queue - 1, play := Holding) else s
    case Holding => s.(busy := true, play := Decoding)
    case Decoding => s.(busy := false, play := PlayService(ReadBusy))
    case PlayService(at) =>
      ServiceEffect(s, at).(play := if ServiceNext(s, at).Goes? then PlayService(ServiceNext(s, at).at) else Receive)
  }

  function PttMoves(s: Sys): Sys {
    match s.ptt
    case PttRest => s
    case PttClear(rearm) => s.(pending := false, ptt := PttReset(rearm))
    case PttReset(rearm) => s.(queue := 0, ptt := PttApply(rearm))
    case PttApply(rearm) => s.(state := After(s.state, Abort), ptt := if rearm then PttService(ReadBusy) else PttRest)
    case PttService(at) =>
      ServiceEffect(s, at).(ptt := if ServiceNext(s, at).Goes? then PttService(ServiceNext(s, at).at) else PttRest)
  }

  predicate Enabled(s: Sys, step: Step, depth: nat) {
    match step
    case Audio => s.ws == WsRest
    case StartMessage => s.ws == WsRest
    case StopMessage(_) => s.ws == WsRest
    case AbortMessage(_) => s.ws == WsRest
    case ReadyMessage => s.ws == WsRest
    case Interrupt(_) => s.ptt == PttRest && IsInterruptible(s.state)
    case Other(event) => event in {Connect, HelloReady, ListenStart, ListenStop, Abort, Disconnect}
    case TransportClear => true
    case WsStep => s.ws != WsRest
    case PlayStep => s.play != Receive || s.queue > 0
    case PttStep => s.ptt != PttRest
  }

  function Do(s: Sys, step: Step, depth: nat): Sys {
    match step
    case Audio => if s.queue < depth then s.(queue := s.queue + 1) else s // a full queue drops the frame
    case StartMessage => s.(ws := StartClear)
    case StopMessage(auto) => s.(ws := StopMark(auto))
    case AbortMessage(alert) => s.(ws := AbortClear(alert))
    case ReadyMessage => s.(ws := WsService(ReadBusy))
    case Interrupt(rearm) => s.(ptt := PttClear(rearm))
    case Other(event) => s.(state := After(s.state, event))
    case TransportClear => s.(pending := false)
    case WsStep => WsMoves(s)
    case PlayStep => PlayMoves(s)
    case PttStep => PttMoves(s)
  }

  // ----------------------------------------------------------------- the invariant

  /** A stop is waiting although there is nothing left to drain. */
  predicate Drained(s: Sys) {
    s.state == Speaking && s.pending && s.queue == 0 && !s.busy
  }

  /** Some task is committed to completing the stop or to aborting. */
  predicate OnTheWay(s: Sys) {
    s.ws.WsService? || s.play == Holding || s.play.PlayService? || s.ptt.PttApply?
  }

  predicate Inv(s: Sys) {
    && (s.busy <==> s.play == Decoding)
    && (s.ws in {StartReset, StartApply} || s.ws.AbortReset? || s.ws.AbortApply? ==> !s.pending)
    && (Drained(s) ==> OnTheWay(s))
  }

  lemma StepKeepsInv(s: Sys, step: Step, depth: nat)
    requires Inv(s) && Enabled(s, step, depth)
    ensures Inv(Do(s, step, depth))
  {
  }

  predicate IsRun(s: Sys, steps: seq<Step>, depth: nat)
    decreases steps
  {
    steps == [] || (Enabled(s, steps[0], depth) && IsRun(Do(s, steps[0], depth), steps[1..], depth))
  }

  function Final(s: Sys, steps: seq<Step>, depth: nat): Sys
    decreases steps
  {
    if steps == [] then s else Final(Do(s, steps[0], depth), steps[1..], depth)
  }

  /** No graceful stop is lost, in any interleaving. */
  lemma {:induction false} RunKeepsInv(s: Sys, steps: seq<Step>, depth: nat)
    requires Inv(s) && IsRun(s, steps, depth)
    ensures Inv(Final(s, steps, depth))
    decreases steps
  {
    if steps != [] {
      StepKeepsInv(s, steps[0], depth);
      RunKeepsInv(Do(s, steps[0], depth), steps[1..], depth);
    }
  }

  // ------------------------------------------------------------- what it is good for

  /** A task runs alone for `n` steps. */
  function Alone(s: Sys, step: Step, n: nat): Sys
    requires IsInternal(step)
    decreases n
  {
    if n == 0 then s else Alone(Do(s, step, 0), step, n - 1)
  }

  function ServiceRank(at: Service): nat {
    match at
    case ReadBusy => 3
    case ReadQueue => 2
    case AtLock => 1
  }

  lemma {:induction false} WsFinishes(s: Sys)
    requires Drained(s) && s.ws.WsService?
    ensures Alone(s, WsStep, ServiceRank(s.ws.at)).state != Speaking
    decreases ServiceRank(s.ws.at)
  {
    if s.ws.at != AtLock {
      WsFinishes(Do(s, WsStep, 0));
    } else {
      assert Alone(Do(s, WsStep, 0), WsStep, 0).state != Speaking;
    }
  }

  function PlayRank(play: PlayPoint): nat {
    match play
    case Receive => 0
    case Holding => 5
    case Decoding => 4
    case PlayService(at) => ServiceRank(at)
  }

  lemma {:induction false} PlayFinishes(s: Sys)
    requires s.state == Speaking && s.pending && s.queue == 0 && s.play != Receive && (s.busy <==> s.play == Decoding)
    ensures Alone(s, PlayStep, PlayRank(s.play)).state != Speaking
    decreases PlayRank(s.play)
  {
    if s.play != PlayService(AtLock) {
      PlayFinishes(Do(s, PlayStep, 0));
    } else {
      assert Alone(Do(s, PlayStep, 0), PlayStep, 0).state != Speaking;
    }
  }

  /** The committed task needs nobody else: left alone it takes the device out of speaking within five steps. */
  lemma CommittedTaskFinishes(s: Sys) returns (step: Step, n: nat)
    requires Inv(s) && Drained(s)
    ensures IsInternal(step) && n <= 5 && Alone(s, step, n).state != Speaking
  {
    if s.ws.WsService? {
      step, n := WsStep, ServiceRank(s.ws.at);
      WsFinishes(s);
    } else if s.play != Receive {
      step, n := PlayStep, PlayRank(s.play);
      PlayFinishes(s);
    } else {
      step, n := PttStep, 1;
      assert Alone(Do(s, PttStep, 0), PttStep, 0).state != Speaking;
    }
  }

  function WsRank(ws: WsPoint): nat {
    match ws
    case WsRest => 0
    case StartClear => 3
    case StartReset => 2
    case StartApply => 1
    case StopMark(_) => 4
    case AbortClear(_) => 6
    case AbortReset(_) => 5
    case AbortApply(_) => 4
    case WsService(at) => ServiceRank(at)
  }

  function PttRank(ptt: PttPoint): nat {
    match ptt
    case PttRest => 0
    case PttClear(_) => 6
    case PttReset(_) => 5
    case PttApply(_) => 4
    case PttService(at) => ServiceRank(at)
  }

  /** Work left to the three tasks when no new message, interrupt or event arrives. */
  function Work(s: Sys): nat {
    8 * s.queue + WsRank(s.ws) + PlayRank(s.play) + PttRank(s.ptt)
  }

  lemma WsWorks(s: Sys)
    requires s.ws != WsRest
    ensures var t := WsMoves(s);
      WsRank(t.ws) < WsRank(s.ws) && t.queue <= s.queue && t.play == s.play && t.ptt == s.ptt
  {
  }

  lemma PlayWorks(s: Sys)
    requires s.play != Receive || s.queue > 0
    ensures var t := PlayMoves(s);
      8 * t.queue + PlayRank(t.play) < 8 * s.queue + PlayRank(s.play) && t.ws == s.ws && t.ptt == s.ptt
  {
  }

  lemma PttWorks(s: Sys)
    requires s.ptt != PttRest
    ensures var t := PttMoves(s);
      PttRank(t.ptt) < PttRank(s.ptt) && t.queue <= s.queue && t.play == s.play && t.ws == s.ws
  {
  }

  lemma InternalStepWorks(s: Sys, step: Step, depth: nat)
    requires IsInternal(step) && Enabled(s, step, depth)
    ensures Work(Do(s, step, depth)) < Work(s)
  {
    match step
    case WsStep => WsWorks(s);
    case PlayStep => PlayWorks(s);
    case PttStep => PttWorks(s);
  }

  /** No schedule can keep the tasks busy for ever without new input. */
  lemma {:induction false} InternalRunsEnd(s: Sys, steps: seq<Step>, depth: nat)
    requires IsRun(s, steps, depth) && forall i :: 0 <= i < |steps| ==> IsInternal(steps[i])
    ensures |steps| + Work(Final(s, steps, depth)) <= Work(s)
    decreases steps
  {
    if steps != [] {
      InternalStepWorks(s, steps[0], depth);
      InternalRunsEnd(Do(s, steps[0], depth), steps[1..], depth);
    }
  }

  /** No task can move without new input. */
  predicate AtRest(s: Sys) {
    s.ws == WsRest && s.play == Receive && s.queue == 0 && s.ptt == PttRest
  }

  /** Every reachable history, continued in any order until the tasks rest, leaves no stop waiting. */
  lemma EveryStopIsResolved(history: seq<Step>, steps: seq<Step>, depth: nat)
    requires IsRun(INITIAL, history, depth)
    requires var s := Final(INITIAL, history, depth);
      && IsRun(s, steps, depth) && (forall i :: 0 <= i < |steps| ==> IsInternal(steps[i]))
      && (forall step :: IsInternal(step) ==> !Enabled(Final(s, steps, depth), step, depth))
    ensures var s := Final(INITIAL, history, depth); var t := Final(s, steps, depth);
      && |steps| <= Work(s) && AtRest(t) && !(t.state == Speaking && t.pending)
  {
    var s := Final(INITIAL, history, depth);
    var t := Final(s, steps, depth);
    RunKeepsInv(INITIAL, history, depth);
    RunKeepsInv(s, steps, depth);
    InternalRunsEnd(s, steps, depth);
    assert !Enabled(t, WsStep, depth) && !Enabled(t, PlayStep, depth) && !Enabled(t, PttStep, depth);
  }

  /**
   * A waiting stop disappears while speaking goes on only for a new turn, an abort under way, or a torn-down
   * transport.
   */
  lemma StopIsDroppedOnlyFor(s: Sys, step: Step, depth: nat)
    requires Inv(s) && Enabled(s, step, depth)
    requires s.state == Speaking && s.pending
    requires var t := Do(s, step, depth); t.state == Speaking && !t.pending
    ensures || (step == WsStep && (s.ws == StartClear || s.ws.AbortClear?))
            || (step == PttStep && s.ptt.PttClear?)
            || step == TransportClear
  {
  }

  lemma RunFrom(s: Sys, step: Step, rest: seq<Step>, depth: nat) returns (steps: seq<Step>)
    requires Enabled(s, step, depth) && IsRun(Do(s, step, depth), rest, depth)
    ensures IsRun(s, steps, depth) && Final(s, steps, depth) == Final(Do(s, step, depth), rest, depth)
  {
    steps := [step] + rest;
    assert steps[1..] == rest;
  }

  // ------------------------------------------------- what a completing stop overtakes

  /**
   * What has happened since a task looked whether playback is idle: `held` says that a packet is in hand which its
   * look at the busy flag did not show; the others count the packets queued and dequeued since it saw no packet.
   */
  datatype Look = Look(held: bool, arrived: nat, taken: nat)

  const NOTHING := Look(false, 0, 0)

  /** `at` is where the task whose look this is stands when the step is its own. */
  function Watch(look: Look, own: bool, at: Service, s: Sys, step: Step, depth: nat): Look {
    if own && at == ReadBusy then Look(s.play == Holding, 0, 0)
    else if own && at == ReadQueue then look.(arrived := 0, taken := 0)
    else if step == Audio && s.queue < depth then look.(arrived := look.arrived + 1)
    else if EmptiesQueue(s, step) then look.(arrived := 0, taken := 0)
    else if step == PlayStep && s.play == Receive && s.queue > 0 then look.(held := true, taken := look.taken + 1)
    else if step == PlayStep && s.play == Decoding then look.(held := false)
    else look
  }

  predicate EmptiesQueue(s: Sys, step: Step) {
    (step == WsStep && (s.ws == StartReset || s.ws.AbortReset?)) || (step == PttStep && s.ptt.PttReset?)
  }

  datatype Watches = Watches(ws: Look, play: Look, ptt: Look)

  function WatchAll(w: Watches, s: Sys, step: Step, depth: nat): Watches {
    Watches(
      Watch(w.ws, step == WsStep && s.ws.WsService?, if s.ws.WsService? then s.ws.at else AtLock, s, step, depth),
      Watch(w.play, step == PlayStep && s.play.PlayService?, if s.play.PlayService? then s.play.at else AtLock,
            s, step, depth),
      Watch(w.ptt, step == PttStep && s.ptt.PttService?, if s.ptt.PttService? then s.ptt.at else AtLock,
            s, step, depth))
  }

  function Watched(w: Watches, s: Sys, steps: seq<Step>, depth: nat): Watches
    decreases steps
  {
    if steps == [] then w else Watched(WatchAll(w, s, steps[0], depth), Do(s, steps[0], depth), steps[1..], depth)
  }

  predicate InHand(s: Sys) {
    s.play == Holding || s.play == Decoding
  }

  predicate Looking(at: Service) {
    at != ReadBusy
  }

  predicate WsLooks(look: Look, s: Sys) {
    s.ws.WsService? ==>
      (Looking(s.ws.at) ==> (InHand(s) <==> look.held)) && (s.ws.at == AtLock ==> s.queue == 0)
  }

  predicate PlayLooks(look: Look, s: Sys) {
    s.play == PlayService(AtLock) ==> s.queue == look.arrived
  }

  predicate PttLooks(look: Look, s: Sys) {
    s.ptt.PttService? ==>
      && (Looking(s.ptt.at) ==> (InHand(s) <==> look.held))
      && (s.ptt.at == AtLock ==> s.queue + look.taken == look.arrived)
  }

  predicate WatchInv(w: Watches, s: Sys) {
    (s.busy <==> s.play == Decoding) && WsLooks(w.ws, s) && PlayLooks(w.play, s) && PttLooks(w.ptt, s)
  }

  lemma WsStepKeepsLook(w: Watches, s: Sys, step: Step, depth: nat)
    requires (s.busy <==> s.play == Decoding) && WsLooks(w.ws, s) && Enabled(s, step, depth)
    ensures WsLooks(WatchAll(w, s, step, depth).ws, Do(s, step, depth))
  {
  }

  lemma PlayStepKeepsLook(w: Watches, s: Sys, step: Step, depth: nat)
    requires (s.busy <==> s.play == Decoding) && PlayLooks(w.play, s) && Enabled(s, step, depth)
    ensures PlayLooks(WatchAll(w, s, step, depth).play, Do(s, step, depth))
  {
  }

  lemma PttStepKeepsLook(w: Watches, s: Sys, step: Step, depth: nat)
    requires (s.busy <==> s.play == Decoding) && PttLooks(w.ptt, s) && Enabled(s, step, depth)
    ensures PttLooks(WatchAll(w, s, step, depth).ptt, Do(s, step, depth))
  {
  }

  lemma StepKeepsWatch(w: Watches, s: Sys, step: Step, depth: nat)
    requires WatchInv(w, s) && Enabled(s, step, depth)
    ensures WatchInv(WatchAll(w, s, step, depth), Do(s, step, depth))
  {
    WsStepKeepsLook(w, s, step, depth);
    PlayStepKeepsLook(w, s, step, depth);
    PttStepKeepsLook(w, s, step, depth);
    var w', t := WatchAll(w, s, step, depth), Do(s, step, depth);
    assert t.busy <==> t.play == Decoding;
  }

  lemma {:induction false} RunKeepsWatch(w: Watches, s: Sys, steps: seq<Step>, depth: nat)
    requires WatchInv(w, s) && IsRun(s, steps, depth)
    ensures WatchInv(Watched(w, s, steps, depth), Final(s, steps, depth))
    decreases steps
  {
    if steps != [] {
      StepKeepsWatch(w, s, steps[0], depth);
      RunKeepsWatch(WatchAll(w, s, steps[0], depth), Do(s, steps[0], depth), steps[1..], depth);
    }
  }

  /** The step completes the stop that is waiting. */
  predicate CompletesStop(s: Sys, step: Step) {
    && s.state == Speaking && s.pending
    && (|| (step == WsStep && s.ws == WsService(AtLock))
        || (step == PlayStep && s.play == PlayService(AtLock))
        || (step == PttStep && s.ptt == PttService(AtLock)))
  }

  /** Audio that came before the stop completes is not played yet. */
  predicate Overtakes(s: Sys) {
    InHand(s) || s.queue > 0
  }

  /**
   * When exactly a completing stop overtakes audio, after any history. The websocket thread queues the audio itself,
   * so it can only miss a packet in hand: one held but not yet marked busy when it read the flag, or dequeued since.
   * The playback task has nothing in hand and can only miss packets queued since it saw the queue empty. The button
   * task can miss both.
   */
  lemma CompletionOvertakes(history: seq<Step>, step: Step, depth: nat)
    requires IsRun(INITIAL, history, depth) && CompletesStop(Final(INITIAL, history, depth), step)
    ensures var s := Final(INITIAL, history, depth);
      var w := Watched(Watches(NOTHING, NOTHING, NOTHING), INITIAL, history, depth);
      && Do(s, step, depth).state != Speaking
      && (step == WsStep ==> s.queue == 0 && (Overtakes(s) <==> w.ws.held))
      && (step == PlayStep ==> !InHand(s) && s.queue == w.play.arrived && (Overtakes(s) <==> w.play.arrived > 0))
      && (step == PttStep ==> s.queue + w.ptt.taken == w.ptt.arrived
                              && (Overtakes(s) <==> w.ptt.held || w.ptt.arrived > w.ptt.taken))
  {
    RunKeepsWatch(Watches(NOTHING, NOTHING, NOTHING), INITIAL, history, depth);
  }

  /**
   * The stop can complete with the last packet dequeued but not yet playing: the gap between the dequeue
   * and the busy flag is visible to the websocket thread.
   */
  lemma StopCanOvertakeLastPacket(depth: nat) returns (steps: seq<Step>)
    requires depth > 0
    ensures IsRun(INITIAL, steps, depth) && Final(INITIAL, steps, depth) == INITIAL.(play := Holding)
  {
    var speaking := INITIAL.(state := Speaking);
    var held := speaking.(play := Holding);
    steps := StopWhileHeld(held, depth);
    steps := RunFrom(speaking.(queue := 1), PlayStep, steps, depth);
    steps := RunFrom(speaking, Audio, steps, depth);
    steps := RunFrom(INITIAL.(ws := StartApply), WsStep, steps, depth);
    steps := RunFrom(INITIAL.(ws := StartReset), WsStep, steps, depth);
    steps := RunFrom(INITIAL.(ws := StartClear), WsStep, steps, depth);
    steps := RunFrom(INITIAL, StartMessage, steps, depth);
  }

  /** tts/stop marks, reads busy, reads the queue and takes the lock while the packet is in hand. */
  lemma StopWhileHeld(held: Sys, depth: nat) returns (steps: seq<Step>)
    requires held == INITIAL.(state := Speaking, play := Holding)
    ensures IsRun(held, steps, depth) && Final(held, steps, depth) == INITIAL.(play := Holding)
  {
    var marked := held.(pending := true);
    steps := RunFrom(marked.(ws := WsService(AtLock)), WsStep, [], depth);
    steps := RunFrom(marked.(ws := WsService(ReadQueue)), WsStep, steps, depth);
    steps := RunFrom(marked.(ws := WsService(ReadBusy)), WsStep, steps, depth);
    steps := RunFrom(held.(ws := StopMark(false)), WsStep, steps, depth);
    steps := RunFrom(held, StopMessage(false), steps, depth);
  }

  /**
   * The stop can also complete with a packet still queued that arrived before tts/stop: the playback task finds the
   * queue empty, the websocket thread queues the packet and marks the stop, the playback task takes the lock.
   */
  lemma StopCanOvertakeQueuedPacket(depth: nat) returns (steps: seq<Step>)
    requires depth > 0
    ensures IsRun(INITIAL, steps, depth)
    ensures Final(INITIAL, steps, depth) == INITIAL.(queue := 1, ws := WsService(ReadBusy))
  {
    var speaking := INITIAL.(state := Speaking);
    steps := PlayedOut(speaking, depth);
    steps := RunFrom(speaking.(queue := 1), PlayStep, steps, depth);
    steps := RunFrom(speaking, Audio, steps, depth);
    steps := RunFrom(INITIAL.(ws := StartApply), WsStep, steps, depth);
    steps := RunFrom(INITIAL.(ws := StartReset), WsStep, steps, depth);
    steps := RunFrom(INITIAL.(ws := StartClear), WsStep, steps, depth);
    steps := RunFrom(INITIAL, StartMessage, steps, depth);
  }

  /** The playback task plays its packet, finds nothing more and is about to take the lock. */
  lemma PlayedOut(speaking: Sys, depth: nat) returns (steps: seq<Step>)
    requires speaking == INITIAL.(state := Speaking) && depth > 0
    ensures IsRun(speaking.(play := Holding), steps, depth)
    ensures Final(speaking.(play := Holding), steps, depth) == INITIAL.(queue := 1, ws := WsService(ReadBusy))
  {
    steps := QueuedBehindLook(speaking.(play := PlayService(AtLock)), depth);
    steps := RunFrom(speaking.(play := PlayService(ReadQueue)), PlayStep, steps, depth);
    steps := RunFrom(speaking.(play := PlayService(ReadBusy)), PlayStep, steps, depth);
    steps := RunFrom(speaking.(play := Decoding, busy := true), PlayStep, steps, depth);
    steps := RunFrom(speaking.(play := Holding), PlayStep, steps, depth);
  }

  lemma QueuedBehindLook(looked: Sys, depth: nat) returns (steps: seq<Step>)
    requires looked == INITIAL.(state := Speaking, play := PlayService(AtLock)) && depth > 0
    ensures IsRun(looked, steps, depth)
    ensures Final(looked, steps, depth) == INITIAL.(queue := 1, ws := WsService(ReadBusy))
  {
    var queued := looked.(queue := 1);
    steps := RunFrom(queued.(pending := true, ws := WsService(ReadBusy)), PlayStep, [], depth);
    steps := RunFrom(queued.(ws := StopMark(false)), WsStep, steps, depth);
    steps := RunFrom(queued, StopMessage(false), steps, depth);
    steps := RunFrom(looked, Audio, steps, depth);
  }
}
