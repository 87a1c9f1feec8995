/** Password logins on one lockout key: a slot is reserved before the password is
    checked, and a successful login clears what it observed. */
module LoginLockout {
  import opened Text
  import A = AttemptStore

  datatype Phase =
    | Checking(reserved: int)    // admitted to the credential check
    | Refused                    // rate limited before it
    | Clearing                   // password right, counter not read yet
    | Resetting(observed: int)   // counter read, not yet subtracted
    | Rejected(limited: bool)    // password wrong
    | LoggedIn

  /** counter is what the store holds for the key; the totals only grow. */
  datatype State = State(counter: int, incs: nat, subs: int, admitted: nat, logins: map<nat, Phase>)

  const EMPTY := State(0, 0, 0, 0, map[])

  /** Each is one atomic store operation, or a credential check. */
  datatype Action =
    | Reserve(t: nat)
    | WrongPassword(t: nat)
    | RightPassword(t: nat)
    | Read(t: nat)
    | ResetIf(t: nat)

  predicate Enabled(s: State, a: Action) {
    match a
    case Reserve(t) => t !in s.logins
    case WrongPassword(t) => t in s.logins && s.logins[t].Checking?
    case RightPassword(t) => t in s.logins && s.logins[t].Checking?
    case Read(t) => t in s.logins && s.logins[t].Clearing?
    case ResetIf(t) => t in s.logins && s.logins[t].Resetting?
  }

  /** ResetIf subtracts the observed count unless the counter has fallen below it. */
  predicate TakesEffect(s: State, t: nat)
    requires t in s.logins && s.logins[t].Resetting?
  {
    s.counter >= s.logins[t].observed
  }

  function Step(max: nat, s: State, a: Action): State {
    if !Enabled(s, a) then s else
      match a
      case Reserve(t) =>
        var n := s.counter + 1;
        if n > max then s.(counter := n, incs := s.incs + 1, logins := s.logins[t := Refused])
        else s.(counter := n, incs := s.incs + 1, admitted := s.admitted + 1, logins := s.logins[t := Checking(n)])
      case WrongPassword(t) => s.(logins := s.logins[t := Rejected(s.logins[t].reserved >= max)])
      case RightPassword(t) => s.(logins := s.logins[t := Clearing])
      case Read(t) => s.(logins := s.logins[t := if s.counter == 0 then LoggedIn else Resetting(s.counter)])
      case ResetIf(t) =>
        var done := s.(logins := s.logins[t := LoggedIn]);
        if TakesEffect(s, t) then done.(counter := s.counter - s.logins[t].observed, subs := s.subs + s.logins[t].observed)
        else done
  }

  predicate IsRun(max: nat, trace: seq<State>, acts: seq<Action>) {
    |trace| == |acts| + 1 && trace[0] == EMPTY
    && forall i :: 0 <= i < |acts| ==> trace[i + 1] == Step(max, trace[i], acts[i])
  }

  ghost predicate Inv(s: State) {
    && s.counter == s.incs - s.subs && s.counter >= 0 && s.subs >= 0 && s.admitted <= s.incs
    && forall t :: t in s.logins && s.logins[t].Resetting? ==> s.logins[t].observed > 0
  }

  /** In every interleaving the counter is increments minus subtractions and never negative. */
  lemma {:induction false} CounterBalances(max: nat, trace: seq<State>, acts: seq<Action>, n: nat)
    requires IsRun(max, trace, acts) && n < |trace|
    ensures Inv(trace[n])
  {
    if n > 0 {
      CounterBalances(max, trace, acts, n - 1);
      assert trace[n - 1 + 1] == Step(max, trace[n - 1], acts[n - 1]);
    }
  }

  /** One step: totals only grow, and an admission leaves the counter within the budget. */
  lemma StepTotals(max: nat, s: State, a: Action)
    requires Inv(s)
    ensures var s' := Step(max, s, a);
            && s.subs <= s'.subs && s.incs <= s'.incs && 0 <= s'.admitted - s.admitted <= s'.incs - s.incs
            && (s'.admitted > s.admitted ==> s'.incs - s'.subs <= max)
  {
  }

  lemma NeverNegative(s: State)
    requires Inv(s)
    ensures s.incs - s.subs >= 0
  {
  }

  /** Totals only grow, and what was admitted since an earlier point is bounded by the budget
      plus what clears have subtracted since. */
  lemma {:induction false} AdmittedBetween(max: nat, trace: seq<State>, acts: seq<Action>, m: nat, n: nat)
    requires IsRun(max, trace, acts) && m <= n < |trace|
    ensures trace[m].subs <= trace[n].subs && trace[m].incs <= trace[n].incs
    ensures trace[n].admitted - trace[m].admitted <= trace[n].incs - trace[m].incs
    ensures trace[n].admitted - trace[m].admitted <= max + trace[n].subs - trace[m].subs
    decreases n
  {
    hide Step, Inv;
    CounterBalances(max, trace, acts, m);
    NeverNegative(trace[m]);
    if m < n {
      AdmittedBetween(max, trace, acts, m, n - 1);
      CounterBalances(max, trace, acts, n - 1);
      assert trace[n - 1 + 1] == Step(max, trace[n - 1], acts[n - 1]);
      StepTotals(max, trace[n - 1], acts[n - 1]);
    }
  }

  /** Attempts that reach the credential check number at most MaxFailures plus everything clears subtracted. */
  lemma AdmissionBound(max: nat, trace: seq<State>, acts: seq<Action>, n: nat)
    requires IsRun(max, trace, acts) && n < |trace|
    ensures trace[n].admitted <= max + trace[n].subs
  {
    AdmittedBetween(max, trace, acts, 0, n);
  }

  /** Without clears the budget is used up exactly: neither a guess too many nor one too few. */
  lemma {:induction false} AdmissionExact(max: nat, trace: seq<State>, acts: seq<Action>, n: nat)
    requires IsRun(max, trace, acts) && n < |trace| && trace[n].subs == 0
    ensures trace[n].admitted == if trace[n].incs <= max then trace[n].incs else max
  {
    if n > 0 {
      AdmittedBetween(max, trace, acts, n - 1, n);
      CounterBalances(max, trace, acts, n - 1);
      AdmissionExact(max, trace, acts, n - 1);
      assert trace[n - 1 + 1] == Step(max, trace[n - 1], acts[n - 1]);
    }
  }

  // ---- What a wrong password is told ----

  lemma {:induction false} ReservationStays(max: nat, trace: seq<State>, acts: seq<Action>, i: nat, j: nat, t: nat)
    requires IsRun(max, trace, acts) && i < j < |trace| && acts[i] == Reserve(t) && Enabled(trace[i], Reserve(t))
    ensures t in trace[j].logins
    ensures trace[j].logins[t].Checking? ==> trace[j].logins[t].reserved == trace[i].counter + 1 <= max
    decreases j
  {
    assert trace[j - 1 + 1] == Step(max, trace[j - 1], acts[j - 1]);
    if i + 1 < j { ReservationStays(max, trace, acts, i, j - 1, t); }
  }

  /** A wrong password is answered as rate limited exactly when its attempt was the last one the budget
      allows: the count it was reserved at, one more than before, is MaxFailures. */
  lemma LastAttemptIsLimited(max: nat, trace: seq<State>, acts: seq<Action>, i: nat, j: nat, t: nat)
    requires IsRun(max, trace, acts) && i < j < |acts| && acts[i] == Reserve(t) && Enabled(trace[i], Reserve(t))
    requires acts[j] == WrongPassword(t) && Enabled(trace[j], WrongPassword(t))
    ensures t in trace[j + 1].logins && trace[j + 1].logins[t] == Rejected(trace[i].counter + 1 == max)
    ensures trace[j + 1].counter == trace[j].counter
  {
    ReservationStays(max, trace, acts, i, j, t);
    assert trace[j + 1] == Step(max, trace[j], acts[j]);
  }

  // ---- What a clear erases ----

  /** A login that has read the counter keeps its observation until it resets. */
  lemma {:induction false} ObservationStays(max: nat, trace: seq<State>, acts: seq<Action>, i: nat, j: nat, t: nat)
    requires IsRun(max, trace, acts) && i < j < |trace| && acts[i] == Read(t) && Enabled(trace[i], Read(t))
    requires t in trace[j].logins && trace[j].logins[t].Resetting?
    ensures trace[j].logins[t].observed == trace[i].counter
    decreases j
  {
    assert trace[i + 1] == Step(max, trace[i], acts[i]);
    if i + 1 < j {
      assert trace[j - 1 + 1] == Step(max, trace[j - 1], acts[j - 1]);
      if t in trace[j - 1].logins && trace[j - 1].logins[t].Resetting? {
        ObservationStays(max, trace, acts, i, j - 1, t);
      } else {
        PastRead(max, trace, acts, i, j - 1, t);
      }
    }
  }

  /** After its read a login never reads again. */
  lemma {:induction false} PastRead(max: nat, trace: seq<State>, acts: seq<Action>, i: nat, j: nat, t: nat)
    requires IsRun(max, trace, acts) && i < j < |trace| && acts[i] == Read(t) && Enabled(trace[i], Read(t))
    ensures t in trace[j].logins && (trace[j].logins[t].Resetting? || trace[j].logins[t].LoggedIn?)
    decreases j
  {
    assert trace[j - 1 + 1] == Step(max, trace[j - 1], acts[j - 1]);
    if i + 1 < j { PastRead(max, trace, acts, i, j - 1, t); }
  }

  /** ResetIf is documented to preserve increments that follow the observation. When a reset
      takes effect, the counter is left at exactly those increments if and only if no other
      clear took effect in between. */
  lemma ResetPreservesLater(max: nat, trace: seq<State>, acts: seq<Action>, i: nat, j: nat, t: nat)
    requires IsRun(max, trace, acts) && i < j < |acts|
    requires acts[i] == Read(t) && Enabled(trace[i], Read(t)) && acts[j] == ResetIf(t) && Enabled(trace[j], ResetIf(t))
    ensures TakesEffect(trace[j], t) <==> trace[j].subs - trace[i].subs <= trace[j].incs - trace[i].incs
    ensures TakesEffect(trace[j], t) ==>
              (trace[j + 1].counter == trace[j].incs - trace[i].incs <==> trace[j].subs == trace[i].subs)
    ensures TakesEffect(trace[j], t) ==> trace[j + 1].counter == (trace[j].incs - trace[i].incs) - (trace[j].subs - trace[i].subs)
  {
    ObservationStays(max, trace, acts, i, j, t);
    CounterBalances(max, trace, acts, i);
    CounterBalances(max, trace, acts, j);
    assert trace[j + 1] == Step(max, trace[j], acts[j]);
  }

  /** Two logins that both observe a count of two: the second clear erases two attempts recorded
      after its observation, so the counter stands at none. */
  lemma SecondClearErases(max: nat)
    requires max >= 2
    ensures var acts := [Reserve(0), Reserve(1), RightPassword(0), RightPassword(1), Read(0), Read(1), ResetIf(0),
                         Reserve(2), Reserve(3), ResetIf(1)];
            exists trace: seq<State> :: IsRun(max, trace, acts) && trace[10].counter == 0 && trace[10].incs - trace[5].incs == 2
  {
    var acts := [Reserve(0), Reserve(1), RightPassword(0), RightPassword(1), Read(0), Read(1), ResetIf(0),
                 Reserve(2), Reserve(3), ResetIf(1)];
    var s1 := Step(max, EMPTY, acts[0]);
    var s2 := Step(max, s1, acts[1]);
    var s3 := Step(max, s2, acts[2]);
    var s4 := Step(max, s3, acts[3]);
    var s5 := Step(max, s4, acts[4]);
    var s6 := Step(max, s5, acts[5]);
    var s7 := Step(max, s6, acts[6]);
    var s8 := Step(max, s7, acts[7]);
    var s9 := Step(max, s8, acts[8]);
    var s10 := Step(max, s9, acts[9]);
    var trace := [EMPTY, s1, s2, s3, s4, s5, s6, s7, s8, s9, s10];
    assert IsRun(max, trace, acts);
    assert trace[10].counter == 0;
  }

  // ---- The service on the in-process store ----

  datatype Reservation = Admitted(reserved: int) | RateLimited

  /** The lockout part of auth.Service, one store operation per call. */
  class LockoutService {
    const attempts: A.MemoryAttemptStore
    const maxFailures: int
    const window: int

    constructor (store: A.MemoryAttemptStore, max: int, seconds: int)
      ensures attempts == store && maxFailures == max && window == seconds
    {
      attempts, maxFailures, window := store, max, seconds;
    }

    /** The slot is counted before the password is looked at, and refused beyond the budget. */
    method ReserveAttempt(key: string, now: int) returns (r: Reservation)
      requires attempts.Valid() && key != ""
      modifies attempts
      ensures attempts.Valid()
      ensures !A.FullOfLive(attempts.maxEntries, old(attempts.entries), A.Increment(key, window), now) ==>
                var n := A.CountOf(old(attempts.entries), key, now) + 1;
                && r == (if n > maxFailures then RateLimited else Admitted(n))
                && A.Live(attempts.entries, now) == A.Live(A.Plain(old(attempts.entries), A.Increment(key, window), now).0, now)
    {
      hide A.Live, A.FullOfLive, A.Oldest;
      var n := attempts.AddFailure(key, window, now);
      if n.None? { return Admitted(0); }
      if n.value > maxFailures { return RateLimited; }
      return Admitted(n.value);
    }

    /** Whether a failed login is answered as rate limited: from the last admitted attempt on. */
    method FailedAfterReserve(reserved: int) returns (limited: bool)
      ensures limited <==> reserved >= maxFailures
    {
      return reserved >= maxFailures;
    }

    /** With nothing in between, a successful login leaves no live counter for the key and touches no other key. */
    method ClearBestEffort(key: string, now: int)
      requires attempts.Valid()
      modifies attempts
      ensures attempts.Valid() && A.Live(attempts.entries, now) == A.Live(old(attempts.entries), now) - {key}
    {
      hide A.Oldest, A.Live;
      ghost var was := attempts.entries;
      var n := attempts.CountFailures(key, now);
      assert A.Live(attempts.entries, now) == A.Live(was, now);
      if n == 0 {
        NoLiveEntry(was, key, now);
        return;
      }
      ghost var mid := attempts.entries;
      SameCount(was, mid, key, now);
      attempts.Reset(key, n, now);
      ClearedLive(mid, key, now);
    }
  }

  lemma NoLiveEntry(e: A.Entries, key: string, now: int)
    requires A.CountOf(e, key, now) == 0 && (key in e ==> e[key].count > 0)
    ensures A.Live(e, now) - {key} == A.Live(e, now)
  {
    assert key !in A.Live(e, now);
  }

  lemma SameCount(a: A.Entries, b: A.Entries, key: string, now: int)
    requires A.Live(a, now) == A.Live(b, now)
    ensures A.CountOf(a, key, now) == A.CountOf(b, key, now)
  {
    A.PlainSeesLive(a, b, A.Failures(key), now);
  }

  lemma ClearedLive(e: A.Entries, key: string, now: int)
    requires A.CountOf(e, key, now) > 0
    ensures A.Live(A.Plain(e, A.ResetIf(key, A.CountOf(e, key, now)), now).0, now) == A.Live(e, now) - {key}
  {
  }
}
