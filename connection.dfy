/** The per-tick connection state machine of the serial-stream data source,
    over its two flags `isOnline` and `hasError`. What the transport reports
    (`isOpen()` before and after `open()`) and whether the reconnect timer
    fired are inputs of a tick; the tick's result names the transport call it
    made. */
module Connection {

  datatype Link = Link(isOnline: bool, hasError: bool)

  /** What one tick sees: whether the transport reports open, whether the
      reconnect timer fired, and whether the transport reports open after an
      `open()` attempt. */
  datatype Observation = Observation(reportsOpen: bool, timerFired: bool, openedOk: bool)

  /** The transport call a tick makes: a blocking poll, a close, an open, or none. */
  datatype Action = Poll | CloseTransport | OpenTransport | Wait

  datatype Transition = Transition(next: Link, action: Action)

  /** The state a data source starts in: offline, no error. */
  const Initial := Link(false, false)

  /** One tick. */
  function Step(s: Link, o: Observation): (t: Transition)
    ensures t.action == Poll <==> s.isOnline && o.reportsOpen
    ensures t.action == CloseTransport <==> s.isOnline && !o.reportsOpen
    ensures t.action == OpenTransport <==> !s.isOnline && o.timerFired
    ensures t.action == Wait ==> t.next == s
    ensures t.action != Wait ==> t.next.hasError == !t.next.isOnline
    ensures t.action != Wait ==>
      (t.next.isOnline <==> (t.action == Poll || (t.action == OpenTransport && o.openedOk)))
  {
    if s.isOnline then
      if o.reportsOpen then Transition(Link(true, false), Poll)
      else Transition(Link(false, true), CloseTransport)
    else if o.timerFired then Transition(Link(o.openedOk, !o.openedOk), OpenTransport)
    else Transition(s, Wait)
  }

  /** The state after a sequence of ticks. */
  function Run(s: Link, obs: seq<Observation>): Link
    decreases |obs|
  {
    if obs == [] then s else Run(Step(s, obs[0]).next, obs[1..])
  }

  /** The transport calls a sequence of ticks makes, one per tick. */
  function Trace(s: Link, obs: seq<Observation>): (r: seq<Action>)
    ensures |r| == |obs|
    decreases |obs|
  {
    if obs == [] then [] else [Step(s, obs[0]).action] + Trace(Step(s, obs[0]).next, obs[1..])
  }

  /** A data source is never online and in error at once. */
  predicate Consistent(s: Link) {
    !(s.isOnline && s.hasError)
  }

  lemma {:induction false} RunStaysConsistent(s: Link, obs: seq<Observation>)
    requires Consistent(s)
    ensures Consistent(Run(s, obs))
    decreases |obs|
  {
    if obs != [] {
      RunStaysConsistent(Step(s, obs[0]).next, obs[1..]);
    }
  }

  /** Starting from the initial state, no sequence of ticks ever leaves a data
      source online with its error flag set. */
  lemma InitialRunsConsistent(obs: seq<Observation>)
    ensures Consistent(Run(Initial, obs))
  {
    RunStaysConsistent(Initial, obs);
  }

  /** While offline and the reconnect timer does not fire, ticks change nothing
      and make no transport call. */
  lemma {:induction false} OfflineWaitsForTimer(s: Link, obs: seq<Observation>)
    requires !s.isOnline
    requires forall i :: 0 <= i < |obs| ==> !obs[i].timerFired
    ensures Run(s, obs) == s
    ensures forall i :: 0 <= i < |obs| ==> Trace(s, obs)[i] == Wait
    decreases |obs|
  {
    if obs != [] {
      OfflineWaitsForTimer(s, obs[1..]);
    }
  }

  /** Over any run, a reconnect attempt happens only on a tick whose timer fired,
      and a blocking poll only on a tick whose transport reported open. */
  lemma {:induction false} TransportCallsGated(s: Link, obs: seq<Observation>, i: nat)
    requires i < |obs|
    ensures Trace(s, obs)[i] == OpenTransport ==> obs[i].timerFired
    ensures Trace(s, obs)[i] == Poll ==> obs[i].reportsOpen
    decreases i
  {
    if i > 0 {
      TransportCallsGated(Step(s, obs[0]).next, obs[1..], i - 1);
    }
  }
}
