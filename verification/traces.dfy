/** Runs of the server: Node's event loop runs one handler to completion at a
    time, so a run is a sequence of events applied one after another. */
module Traces {
  import opened Signaling

  /** Every event of the sequence is admissible in the state its predecessors left. */
  predicate Trace(s: State, events: seq<Event>)
    decreases |events|
  {
    events == [] || (Admissible(s, events[0]) && Trace(Step(s, events[0]).next, events[1..]))
  }

  /** The state after handling `events` in order. */
  function Run(s: State, events: seq<Event>): State
    requires Trace(s, events)
    decreases |events|
  {
    if events == [] then s else Run(Step(s, events[0]).next, events[1..])
  }

  /** Every state reached from a state that satisfies the invariant satisfies it:
      the broadcaster is always absent or connected, and no id is registered twice. */
  lemma {:induction false} RunPreservesInvariant(s: State, events: seq<Event>)
    requires Invariant(s) && Trace(s, events)
    ensures Invariant(Run(s, events))
    decreases |events|
  {
    if events != [] {
      StepPreservesInvariant(s, events[0]);
      RunPreservesInvariant(Step(s, events[0]).next, events[1..]);
    }
  }

  /** The server starts in a state that satisfies the invariant, so every state of
      every run from start-up does. */
  lemma ReachableInvariant(events: seq<Event>)
    requires Trace(Initial, events)
    ensures Invariant(Run(Initial, events))
  {
    RunPreservesInvariant(Initial, events);
  }
}
