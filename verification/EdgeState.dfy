/** The seven-state machine of the Edge. */
module EdgeStates {
  import opened Outcomes

  datatype EdgeState = Booting | Idle | Previewing | Measuring | Paused | Faulted | ShuttingDown

  datatype Transition =
    | BootComplete | StartPreview | StopPreview | StartMeasurement | StopMeasurement
    | PauseMeasurement | ResumeMeasurement | Fault | ResetFault | Shutdown

  /** The states from which a transition does not throw. */
  predicate Allowed(t: Transition, s: EdgeState) {
    match t
    case BootComplete => s == Booting
    case StartPreview => s == Idle
    case StopPreview => s == Previewing
    case StartMeasurement => s == Idle || s == Previewing
    case StopMeasurement => s == Measuring || s == Paused
    case PauseMeasurement => s == Measuring
    case ResumeMeasurement => s == Paused
    case Fault => true
    case ResetFault => s == Faulted
    case Shutdown => true
  }

  /** Where it then leads. */
  function Target(t: Transition, s: EdgeState): EdgeState {
    match t
    case BootComplete => Idle
    case StartPreview => Previewing
    case StopPreview => Idle
    case StartMeasurement => Measuring
    case StopMeasurement => Idle
    case PauseMeasurement => Paused
    case ResumeMeasurement => Measuring
    case Fault => if s == ShuttingDown then s else Faulted
    case ResetFault => Idle
    case Shutdown => ShuttingDown
  }

  function After(t: Transition, s: EdgeState): EdgeState {
    if Allowed(t, s) then Target(t, s) else s
  }

  function AfterAll(ts: seq<Transition>, s: EdgeState): EdgeState {
    if ts == [] then s else AfterAll(ts[1..], After(ts[0], s))
  }

  /** Nothing leads out of shutting down, and only a reset or a shutdown leads out of a fault. */
  lemma {:induction false} ShuttingDownAbsorbs(ts: seq<Transition>)
    ensures AfterAll(ts, ShuttingDown) == ShuttingDown
  {
    if ts != [] {
      ShuttingDownAbsorbs(ts[1..]);
    }
  }

  lemma {:induction false} FaultSticks(ts: seq<Transition>)
    requires ResetFault !in ts && Shutdown !in ts
    ensures AfterAll(ts, Faulted) == Faulted
  {
    if ts != [] {
      assert ts[0] in ts;
      FaultSticks(ts[1..]);
    }
  }

  /** What a transition method does: move if that is allowed, throw and stay otherwise. */
  predicate Made(t: Transition, before: EdgeState, after: EdgeState, o: Outcome<()>) {
    && after == After(t, before)
    && o == if Allowed(t, before) then Done(()) else Threw(NotAllowedInState)
  }

  class EdgeStateMachine {
    var state: EdgeState

    constructor ()
      ensures state == Booting
    {
      state := Booting;
    }

    method Require(expected: EdgeState) returns (o: Outcome<()>)
      ensures o == if state == expected then Done(()) else Threw(NotAllowedInState)
    {
      if state != expected {
        return Threw(NotAllowedInState);
      }
      return Done(());
    }

    method BootComplete() returns (o: Outcome<()>)
      modifies this
      ensures Made(Transition.BootComplete, old(state), state, o)
    {
      o := Require(Booting);
      if o.Done? { state := Idle; }
    }

    method StartPreview() returns (o: Outcome<()>)
      modifies this
      ensures Made(Transition.StartPreview, old(state), state, o)
    {
      o := Require(Idle);
      if o.Done? { state := Previewing; }
    }

    method StopPreview() returns (o: Outcome<()>)
      modifies this
      ensures Made(Transition.StopPreview, old(state), state, o)
    {
      o := Require(Previewing);
      if o.Done? { state := Idle; }
    }

    method StartMeasurement() returns (o: Outcome<()>)
      modifies this
      ensures Made(Transition.StartMeasurement, old(state), state, o)
    {
      if state != Idle && state != Previewing {
        return Threw(NotAllowedInState);
      }
      state := Measuring;
      return Done(());
    }

    method StopMeasurement() returns (o: Outcome<()>)
      modifies this
      ensures Made(Transition.StopMeasurement, old(state), state, o)
    {
      if state != Measuring && state != Paused {
        return Threw(NotAllowedInState);
      }
      state := Idle;
      return Done(());
    }

    method PauseMeasurement() returns (o: Outcome<()>)
      modifies this
      ensures Made(Transition.PauseMeasurement, old(state), state, o)
    {
      o := Require(Measuring);
      if o.Done? { state := Paused; }
    }

    method ResumeMeasurement() returns (o: Outcome<()>)
      modifies this
      ensures Made(Transition.ResumeMeasurement, old(state), state, o)
    {
      o := Require(Paused);
      if o.Done? { state := Measuring; }
    }

    method Fault()
      modifies this
      ensures Made(Transition.Fault, old(state), state, Done(()))
    {
      if state != ShuttingDown {
        state := Faulted;
      }
    }

    method ResetFault() returns (o: Outcome<()>)
      modifies this
      ensures Made(Transition.ResetFault, old(state), state, o)
    {
      o := Require(Faulted);
      if o.Done? { state := Idle; }
    }

    method Shutdown()
      modifies this
      ensures Made(Transition.Shutdown, old(state), state, Done(()))
    {
      state := ShuttingDown;
    }
  }
}
