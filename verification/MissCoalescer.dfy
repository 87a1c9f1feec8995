/** The per-key in-flight lock of cache misses, as the interleaved steps of its callers.

    The first caller for a key leads and runs fn; later ones wait on its done channel or,
    past their timeout, run fn on their own. When fn ends the leader records the result,
    closes the channel and deletes its entry, in three separate steps. */
module MissCoalescer {
  import opened Text

  datatype Result = Result(val: Option<string>, err: Option<string>)

  /** How fn ends. */
  datatype Ending = Returns(result: Result) | Panics(reason: string)

  const PANIC_PREFIX := "cache.miss_coalesce: panic: "

  /** What the deferred function records. */
  function Recorded(e: Ending): Result {
    match e
    case Returns(r) => r
    case Panics(reason) => Result(None, Some(PANIC_PREFIX + reason))
  }

  /** A missCall: its result once recorded, and how often done was closed. */
  datatype Call = Call(result: Option<Result>, closes: nat)

  datatype Phase =
    | Leading                       // registered, running fn
    | Recording(ending: Ending)     // result recorded, channel open
    | Closed(ending: Ending)        // channel closed, entry still there
    | Waiting(leader: nat)
    | Alone                         // timed out, running fn
    | Led(ending: Ending)           // returned, or the panic was raised again
    | Shared(leader: nat, result: Result)
    | RanAlone(ending: Ending)

  datatype Caller = Caller(key: string, phase: Phase)

  /** A call is named by the caller that created it. */
  datatype State = State(callers: map<nat, Caller>, registry: map<string, nat>, calls: map<nat, Call>)

  const EMPTY := State(map[], map[], map[])

  datatype Action =
    | Arrive(t: nat, key: string)
    | FnEnds(t: nat, ending: Ending)
    | Close(t: nat)
    | Delete(t: nat)
    | Wake(t: nat)
    | TimeOut(t: nat)

  function Move(s: State, t: nat, p: Phase): State
    requires t in s.callers
  {
    s.(callers := s.callers[t := s.callers[t].(phase := p)])
  }

  /** The action can happen now. */
  predicate Enabled(s: State, a: Action) {
    match a
    case Arrive(t, _) => t !in s.callers
    case FnEnds(t, _) => t in s.callers && (s.callers[t].phase == Alone || (s.callers[t].phase == Leading && t in s.calls))
    case Close(t) => t in s.callers && s.callers[t].phase.Recording? && t in s.calls
    case Delete(t) => t in s.callers && s.callers[t].phase.Closed?
    case Wake(t) =>
      t in s.callers && s.callers[t].phase.Waiting? && s.callers[t].phase.leader in s.calls
      && s.calls[s.callers[t].phase.leader].closes > 0 && s.calls[s.callers[t].phase.leader].result.Some?
    case TimeOut(t) => t in s.callers && s.callers[t].phase.Waiting?
  }

  function Step(s: State, a: Action): State {
    if !Enabled(s, a) then s else
      match a
      case Arrive(t, key) =>
        if key in s.registry then s.(callers := s.callers[t := Caller(key, Waiting(s.registry[key]))])
        else State(s.callers[t := Caller(key, Leading)], s.registry[key := t], s.calls[t := Call(None, 0)])
      case FnEnds(t, e) =>
        if s.callers[t].phase == Alone then Move(s, t, RanAlone(e))
        else Move(s, t, Recording(e)).(calls := s.calls[t := s.calls[t].(result := Some(Recorded(e)))])
      case Close(t) => Move(s, t, Closed(s.callers[t].phase.ending)).(calls := s.calls[t := s.calls[t].(closes := s.calls[t].closes + 1)])
      case Delete(t) => Move(s, t, Led(s.callers[t].phase.ending)).(registry := s.registry - {s.callers[t].key})
      case Wake(t) => Move(s, t, Shared(s.callers[t].phase.leader, s.calls[s.callers[t].phase.leader].result.value))
      case TimeOut(t) => Move(s, t, Alone)
  }

  predicate IsRun(trace: seq<State>, acts: seq<Action>) {
    |trace| == |acts| + 1 && trace[0] == EMPTY
    && forall i :: 0 <= i < |acts| ==> Enabled(trace[i], acts[i]) && trace[i + 1] == Step(trace[i], acts[i])
  }

  // ---- Invariant ----

  /** The caller created a call and has not deleted its entry yet. */
  predicate Leads(p: Phase) {
    p == Leading || p.Recording? || p.Closed?
  }

  /** The call of a caller in this phase. */
  predicate CallFits(p: Phase, c: Call) {
    && (c.closes == if p.Closed? || p.Led? then 1 else 0)
    && c.result == (if p.Recording? || p.Closed? || p.Led? then Some(Recorded(p.ending)) else None)
  }

  predicate CallerFits(s: State, t: nat)
    requires t in s.callers
  {
    var c := s.callers[t];
    && (t in s.calls <==> Leads(c.phase) || c.phase.Led?)
    && (t in s.calls ==> CallFits(c.phase, s.calls[t]))
    && (Leads(c.phase) ==> c.key in s.registry && s.registry[c.key] == t)
    && (c.phase.Waiting? ==> c.phase.leader in s.calls)
    && (c.phase.Shared? ==> c.phase.leader in s.calls && s.calls[c.phase.leader].result == Some(c.phase.result))
  }

  ghost predicate Inv(s: State) {
    && (forall t :: t in s.callers ==> CallerFits(s, t))
    && (forall t :: t in s.calls ==> t in s.callers)
    && (forall k :: k in s.registry ==> s.registry[k] in s.callers && s.callers[s.registry[k]].key == k
                                        && Leads(s.callers[s.registry[k]].phase))
  }

  /** One caller moves on; a recorded result stays, and its entry stays as long as it leads. */
  lemma MoveKeeps(s: State, s': State, t: nat)
    requires Inv(s) && t in s.callers && t in s'.callers && s'.callers == s.callers[t := s'.callers[t]]
    requires s'.callers[t].key == s.callers[t].key && CallerFits(s', t)
    requires s'.calls.Keys == s.calls.Keys
    requires forall u :: u in s.calls ==> s'.calls[u] == s.calls[u] || (u == t && s.calls[u].result.None?)
                                          || (u == t && s'.calls[u].result == s.calls[u].result)
    requires s'.registry == if Leads(s.callers[t].phase) && !Leads(s'.callers[t].phase) then s.registry - {s.callers[t].key} else s.registry
    requires Leads(s'.callers[t].phase) ==> Leads(s.callers[t].phase)
    ensures Inv(s')
  {
    hide CallFits;
    assert CallerFits(s, t);
    forall u | u in s'.callers ensures CallerFits(s', u) {
      if u != t { assert CallerFits(s, u); }
    }
    forall k | k in s'.registry
      ensures s'.registry[k] in s'.callers && s'.callers[s'.registry[k]].key == k && Leads(s'.callers[s'.registry[k]].phase)
    {
      assert k in s.registry;
    }
  }

  lemma ArriveKeeps(s: State, t: nat, key: string)
    requires Inv(s) && t !in s.callers
    ensures Inv(Step(s, Arrive(t, key)))
  {
    var s' := Step(s, Arrive(t, key));
    forall u | u in s'.callers ensures CallerFits(s', u) {
      if u != t { assert CallerFits(s, u); }
    }
  }

  lemma StepKeeps(s: State, a: Action)
    requires Inv(s) && Enabled(s, a)
    ensures Inv(Step(s, a))
  {
    hide Inv;
    if a.Arrive? {
      ArriveKeeps(s, a.t, a.key);
    } else {
      FitsNow(s, a.t);
      if a.Wake? { LeaderKnown(s, a.t); }
      MoveKeeps(s, Step(s, a), a.t);
    }
  }

  lemma FitsNow(s: State, t: nat)
    requires Inv(s) && t in s.callers
    ensures CallerFits(s, t)
  {
  }

  lemma LeaderKnown(s: State, t: nat)
    requires Inv(s) && t in s.callers && s.callers[t].phase.Waiting?
    ensures s.callers[t].phase.leader in s.calls && s.callers[t].phase.leader != t
  {
    assert CallerFits(s, t);
  }

  lemma {:induction false} RunKeeps(trace: seq<State>, acts: seq<Action>, n: nat)
    requires IsRun(trace, acts) && n < |trace|
    ensures Inv(trace[n])
  {
    if n > 0 {
      RunKeeps(trace, acts, n - 1);
      assert trace[n - 1 + 1] == Step(trace[n - 1], acts[n - 1]);
      StepKeeps(trace[n - 1], acts[n - 1]);
    }
  }

  // ---- Theorems over every interleaving ----

  /** Per key there is at most one caller between registering and deleting, and it is the registered one. */
  lemma OneLeaderPerKey(trace: seq<State>, acts: seq<Action>, n: nat, a: nat, b: nat)
    requires IsRun(trace, acts) && n < |trace| && a in trace[n].callers && b in trace[n].callers
    requires Leads(trace[n].callers[a].phase) && Leads(trace[n].callers[b].phase)
    requires trace[n].callers[a].key == trace[n].callers[b].key
    ensures a == b && trace[n].callers[a].key in trace[n].registry && trace[n].registry[trace[n].callers[a].key] == a
  {
    RunKeeps(trace, acts, n);
    assert CallerFits(trace[n], a) && CallerFits(trace[n], b);
  }

  /** A done channel is never closed twice, and it is closed once its leader is through. */
  lemma ClosedExactlyOnce(trace: seq<State>, acts: seq<Action>, n: nat, t: nat)
    requires IsRun(trace, acts) && n < |trace| && t in trace[n].calls
    ensures t in trace[n].callers && trace[n].calls[t].closes <= 1
    ensures trace[n].callers[t].phase.Led? ==> trace[n].calls[t].closes == 1
  {
    RunKeeps(trace, acts, n);
    assert CallerFits(trace[n], t);
  }

  /** The entry a leader deletes is its own, so a later leader of the key is not torn down. */
  lemma LeaderDeletesOwnEntry(trace: seq<State>, acts: seq<Action>, n: nat)
    requires IsRun(trace, acts) && n < |acts| && acts[n].Delete?
    ensures var key := trace[n].callers[acts[n].t].key;
            && key in trace[n].registry && trace[n].registry[key] == acts[n].t
            && trace[n + 1].registry == trace[n].registry - {key}
  {
    assert Enabled(trace[n], acts[n]);
    RunKeeps(trace, acts, n);
    assert CallerFits(trace[n], acts[n].t);
  }

  /** Caller t waits, or has waited, for this leader. */
  predicate Follows(s: State, t: nat, leader: nat) {
    t in s.callers && ((s.callers[t].phase.Waiting? && s.callers[t].phase.leader == leader)
                       || (s.callers[t].phase.Shared? && s.callers[t].phase.leader == leader))
  }

  lemma NobodyFollows(t: nat, leader: nat)
    ensures !Follows(EMPTY, t, leader)
  {
  }

  lemma FollowsStep(s: State, a: Action, t: nat, leader: nat)
    requires Enabled(s, a) && Follows(Step(s, a), t, leader)
    ensures Follows(s, t, leader) ==> Step(s, a).callers[t].key == s.callers[t].key
    ensures !Follows(s, t, leader) ==> a == Arrive(t, Step(s, a).callers[t].key) && a.key in s.registry && s.registry[a.key] == leader
  {
  }

  /** A follower joined the leader that was registered for its key when it arrived. */
  lemma {:induction false} JoinedOnArrival(trace: seq<State>, acts: seq<Action>, n: nat, t: nat, leader: nat) returns (i: nat)
    requires IsRun(trace, acts) && n < |trace| && Follows(trace[n], t, leader)
    ensures i < n && acts[i] == Arrive(t, trace[n].callers[t].key)
    ensures trace[n].callers[t].key in trace[i].registry && trace[i].registry[trace[n].callers[t].key] == leader
  {
    hide Follows, Step, Enabled;
    assert n > 0 by { NobodyFollows(t, leader); }
    assert trace[n - 1 + 1] == Step(trace[n - 1], acts[n - 1]) && Enabled(trace[n - 1], acts[n - 1]);
    FollowsStep(trace[n - 1], acts[n - 1], t, leader);
    if Follows(trace[n - 1], t, leader) {
      i := JoinedOnArrival(trace, acts, n - 1, t, leader);
    } else {
      i := n - 1;
    }
  }

  /** A recorded result is what the leader's own fn ended with. */
  lemma {:induction false} RecordedByLeader(trace: seq<State>, acts: seq<Action>, n: nat, t: nat) returns (j: nat)
    requires IsRun(trace, acts) && n < |trace| && t in trace[n].calls && trace[n].calls[t].result.Some?
    ensures j < n && acts[j].FnEnds? && acts[j].t == t && t in trace[j].callers && trace[j].callers[t].phase == Leading
    ensures trace[n].calls[t].result == Some(Recorded(acts[j].ending))
  {
    assert n > 0;
    assert trace[n - 1 + 1] == Step(trace[n - 1], acts[n - 1]) && Enabled(trace[n - 1], acts[n - 1]);
    RunKeeps(trace, acts, n - 1);
    if t in trace[n - 1].calls && trace[n - 1].calls[t].result.Some? {
      assert t in trace[n - 1].callers && CallerFits(trace[n - 1], t);
      j := RecordedByLeader(trace, acts, n - 1, t);
    } else {
      j := n - 1;
    }
  }

  /** The caller's own fn has ended. */
  predicate Ended(s: State, t: nat) {
    t in s.callers && (s.callers[t].phase.Recording? || s.callers[t].phase.Closed? || s.callers[t].phase.Led?
                       || s.callers[t].phase.RanAlone?)
  }

  lemma EndedStep(s: State, a: Action, t: nat)
    requires Enabled(s, a)
    ensures a.FnEnds? && a.t == t ==> !Ended(s, t) && Ended(Step(s, a), t) && Step(s, a).callers[t].phase.ending == a.ending
    ensures !(a.FnEnds? && a.t == t) ==> (Ended(Step(s, a), t) <==> Ended(s, t))
    ensures Ended(s, t) ==> Ended(Step(s, a), t) && Step(s, a).callers[t].phase.ending == s.callers[t].phase.ending
  {
  }

  /** A caller that ran fn, as the leader or on its own, ends with what that fn ended with, and fn
      ended once. So a leader and its followers return the same value and error. */
  lemma {:induction false} OwnEnding(trace: seq<State>, acts: seq<Action>, n: nat, t: nat) returns (j: nat)
    requires IsRun(trace, acts) && n < |trace|
    ensures Ended(trace[n], t) ==> j < n && acts[j] == FnEnds(t, trace[n].callers[t].phase.ending)
    ensures forall i :: 0 <= i < n && acts[i].FnEnds? && acts[i].t == t ==> Ended(trace[n], t) && i == j
  {
    hide Step, Enabled;
    j := 0;
    if n > 0 {
      j := OwnEnding(trace, acts, n - 1, t);
      var a := acts[n - 1];
      assert Enabled(trace[n - 1], a) && trace[n - 1 + 1] == Step(trace[n - 1], a);
      EndedStep(trace[n - 1], a, t);
      if a.FnEnds? && a.t == t { j := n - 1; }
    }
  }

  /** A shared answer is exactly the value and error that one leader's fn returned, a leader that
      was registered when the follower arrived; if that fn panicked, the follower sees the panic as
      a non-nil error and no value. The leader itself returns with that same ending. */
  lemma SharedResultIsLeaders(trace: seq<State>, acts: seq<Action>, n: nat, t: nat) returns (i: nat, j: nat)
    requires IsRun(trace, acts) && n < |trace| && t in trace[n].callers && trace[n].callers[t].phase.Shared?
    ensures var p := trace[n].callers[t].phase;
            && i < n && acts[i] == Arrive(t, trace[n].callers[t].key)
            && trace[n].callers[t].key in trace[i].registry && trace[i].registry[trace[n].callers[t].key] == p.leader
            && j < n && acts[j].FnEnds? && acts[j].t == p.leader
            && p.leader in trace[j].callers && trace[j].callers[p.leader].phase == Leading
            && (acts[j].ending.Returns? ==> p.result == acts[j].ending.result)
            && (acts[j].ending.Panics? ==> p.result == Result(None, Some("cache.miss_coalesce: panic: " + acts[j].ending.reason)))
            && (p.leader in trace[n].callers && trace[n].callers[p.leader].phase.Led? ==>
                  trace[n].callers[p.leader].phase.ending == acts[j].ending)
  {
    var leader := trace[n].callers[t].phase.leader;
    RunKeeps(trace, acts, n);
    assert CallerFits(trace[n], t);
    i := JoinedOnArrival(trace, acts, n, t, leader);
    j := RecordedByLeader(trace, acts, n, leader);
    var k := OwnEnding(trace, acts, n, leader);
  }

  // ---- Nobody hangs ----

  /** Own steps a caller still has to make. */
  function StepsLeft(p: Phase): nat {
    match p
    case Leading => 3
    case Recording(_) => 2
    case Closed(_) => 1
    case Waiting(_) => 2
    case Alone => 1
    case Led(_) => 0
    case Shared(_, _) => 0
    case RanAlone(_) => 0
  }

  predicate LeftAfter(s: State, s': State, t: nat, own: bool)
    requires t in s.callers && t in s'.callers
  {
    StepsLeft(s'.callers[t].phase) <= StepsLeft(s.callers[t].phase) - (if own then 1 else 0)
  }

  /** Every caller that has not returned has a step of its own to make, and no step of anyone
      else takes it away: after at most three steps of its own it has returned. */
  lemma CallersReturn(trace: seq<State>, acts: seq<Action>, n: nat, t: nat, e: Ending)
    requires IsRun(trace, acts) && n < |trace| && t in trace[n].callers && StepsLeft(trace[n].callers[t].phase) > 0
    ensures exists a :: OwnStep(trace[n], a, t)
    ensures n < |acts| ==> t in trace[n + 1].callers && LeftAfter(trace[n], trace[n + 1], t, acts[n].t == t)
  {
    var s := trace[n];
    RunKeeps(trace, acts, n);
    assert CallerFits(s, t);
    match s.callers[t].phase {
      case Leading => assert OwnStep(s, FnEnds(t, e), t);
      case Recording(_) => assert OwnStep(s, Close(t), t);
      case Closed(_) => assert OwnStep(s, Delete(t), t);
      case Waiting(_) => assert OwnStep(s, TimeOut(t), t);
      case Alone => assert OwnStep(s, FnEnds(t, e), t);
      case Led(_) =>
      case Shared(_, _) =>
      case RanAlone(_) =>
    }
    if n < |acts| { assert Enabled(trace[n], acts[n]) && trace[n + 1] == Step(trace[n], acts[n]); }
  }

  predicate OwnStep(s: State, a: Action, t: nat) {
    a.t == t && Enabled(s, a) && !a.Arrive?
  }

  /** While a leader is registered, whoever arrives for its key waits instead of running fn. */
  lemma ArrivalsWait(trace: seq<State>, acts: seq<Action>, n: nat, leader: nat)
    requires IsRun(trace, acts) && n < |acts| && acts[n].Arrive?
    requires leader in trace[n].callers && Leads(trace[n].callers[leader].phase) && trace[n].callers[leader].key == acts[n].key
    ensures Follows(trace[n + 1], acts[n].t, leader)
  {
    RunKeeps(trace, acts, n);
    assert CallerFits(trace[n], leader);
    assert Enabled(trace[n], acts[n]) && trace[n + 1] == Step(trace[n], acts[n]);
  }
}
