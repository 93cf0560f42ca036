/** The device state machine (veetee_state.c). */
module DeviceState {

  datatype State = Idle | Connecting | Listening | Thinking | Speaking

  datatype Event =
    | Connect | HelloReady | ListenStart | ListenStop | TtsStart
    | TtsStop | TtsStopManual | TtsStopAuto | Abort | Disconnect

  predicate EventAllowed(from: State, event: Event) {
    match event
    case Connect => from == Idle || from == Connecting
    case HelloReady => from == Connecting
    case ListenStart => from == Idle || from == Listening
    case ListenStop => from == Listening
    case TtsStart => from == Idle || from == Listening || from == Thinking
    case TtsStop => from == Speaking
    case TtsStopManual => from == Speaking
    case TtsStopAuto => from == Speaking
    case Abort => from == Thinking || from == Speaking
    case Disconnect => true
  }

  predicate CanTransition(from: State, to: State) {
    || from == to || to == Idle
    || (from == Idle && (to == Connecting || to == Listening || to == Speaking))
    || (from == Connecting && to == Listening)
    || (from == Listening && (to == Thinking || to == Speaking))
    || (from == Thinking && (to == Speaking || to == Listening))
    || (from == Speaking && to == Listening)
  }

  predicate IsInterruptible(state: State) {
    state == Thinking || state == Speaking
  }

  function Target(event: Event): State {
    match event
    case Connect => Connecting
    case HelloReady => Listening
    case ListenStart => Listening
    case ListenStop => Thinking
    case TtsStart => Speaking
    case TtsStop => Listening
    case TtsStopManual => Idle
    case TtsStopAuto => Listening
    case Abort => Listening
    case Disconnect => Idle
  }

  /** The state after an event: refused events change nothing. */
  function After(from: State, event: Event): State {
    if EventAllowed(from, event) then Target(event) else from
  }

  class DeviceStateMachine {
    var state: State
    var generation: nat // a 32-bit counter

    constructor ()
      ensures state == Idle && generation == 0
    {
      state, generation := Idle, 0;
    }

    method Apply(event: Event) returns (applied: bool)
      requires generation < 0x1_0000_0000
      modifies this
      ensures state == After(old(state), event)
      ensures generation == if state != old(state) && event in {Abort, Disconnect}
                            then (old(generation) + 1) % 0x1_0000_0000 else old(generation)
      ensures applied == (
        && EventAllowed(old(state), event)
        && (state != old(state) || event in {Connect, ListenStart, Disconnect}))
    {
      if !EventAllowed(state, event) {
        return false;
      }
      var next := Target(event);
      if !CanTransition(state, next) {
        return false;
      }
      var changed := state != next;
      state := next;
      if changed && (event == Abort || event == Disconnect) {
        generation := (generation + 1) % 0x1_0000_0000;
      }
      return changed || event == Connect || event == ListenStart || event == Disconnect;
    }
  }

  /** Only tts/start leads into speaking, and everything speaking allows leads out of it. */
  lemma SpeakingBoundary(from: State, event: Event)
    ensures from != Speaking && After(from, event) == Speaking ==> event == TtsStart && from != Connecting
    ensures from == Speaking && EventAllowed(from, event) ==> After(from, event) != Speaking
  {
  }

  /** The moves of the device by where they lead; every other event leaves it where it is. */
  lemma MovesAre(from: State, event: Event)
    ensures var to := After(from, event);
      && (from != Connecting && to == Connecting <==> from == Idle && event == Connect)
      && (from != Listening && to == Listening <==>
            || (from == Connecting && event == HelloReady) || (from == Idle && event == ListenStart)
            || (from == Thinking && event == Abort)
            || (from == Speaking && event in {TtsStop, TtsStopAuto, Abort}))
      && (from != Thinking && to == Thinking <==> from == Listening && event == ListenStop)
      && (from != Speaking && to == Speaking <==> from in {Idle, Listening, Thinking} && event == TtsStart)
      && (from != Idle && to == Idle <==>
            || (from == Speaking && event == TtsStopManual) || (from != Idle && event == Disconnect))
  {
  }

  /** What is allowed and changes nothing: such an event is heard all the same. */
  lemma AllowedExactly(from: State, event: Event)
    ensures EventAllowed(from, event) <==>
      || After(from, event) != from
      || (from == Connecting && event == Connect) || (from == Listening && event == ListenStart)
      || (from == Idle && event == Disconnect)
    ensures IsInterruptible(from) <==> EventAllowed(from, Abort)
  {
  }

  /** The transition table lets through just the steps that some event makes, so it never stops one. */
  lemma TableIsExact(from: State, to: State)
    ensures CanTransition(from, to) <==> from == to || exists event :: After(from, event) == to
  {
    match to
    case Idle => assert After(from, Disconnect) == Idle;
    case Connecting => assert from == Idle ==> After(from, Connect) == to;
    case Listening =>
      assert from == Idle ==> After(from, ListenStart) == to;
      assert from == Connecting ==> After(from, HelloReady) == to;
      assert from == Thinking || from == Speaking ==> After(from, Abort) == to;
    case Thinking => assert from == Listening ==> After(from, ListenStop) == to;
    case Speaking => assert from in {Idle, Listening, Thinking} ==> After(from, TtsStart) == to;
  }
}
