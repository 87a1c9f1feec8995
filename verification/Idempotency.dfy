/** Requests that carry an Idempotency-Key: the store that admits one handler run
    per key, and the interleavings of requests over it. */
module Idempotency {
  import opened Text

  const IN_PROGRESS_TTL := 300 // seconds

  datatype Record = Record(requestHash: string, status: int, body: string, completed: bool, createdAt: int)

  datatype Begun = Claimed | Replay(status: int, body: string) | Conflict | InProgress

  /** plugin and key, separated by a NUL that neither contains. */
  function ItemKey(plugin: string, key: string): string {
    plugin + [0 as char] + key
  }

  lemma ItemKeyInjective(p: string, k: string, p': string, k': string)
    requires 0 as char !in p && 0 as char !in p'
    ensures ItemKey(p, k) == ItemKey(p', k') <==> p == p' && k == k'
  {
    if ItemKey(p, k) == ItemKey(p', k') {
      IndexOfIs(ItemKey(p, k), 0 as char, |p|);
      IndexOfIs(ItemKey(p', k'), 0 as char, |p'|);
      assert ItemKey(p, k)[..|p|] == p && ItemKey(p', k')[..|p'|] == p';
      assert ItemKey(p, k)[|p| + 1..] == k && ItemKey(p', k')[|p'| + 1..] == k';
    }
  }

  type Items = map<string, Record>

  /** The handler that claimed the record has not completed within the in-progress TTL. */
  predicate Overdue(items: Items, k: string, now: int) {
    k in items && !items[k].completed && now - items[k].createdAt >= IN_PROGRESS_TTL
  }

  function BeginAnswer(items: Items, k: string, hash: string, now: int): Begun {
    if k in items && items[k].completed then
      if items[k].requestHash != hash then Conflict else Replay(items[k].status, items[k].body)
    else if k in items && !Overdue(items, k, now) then InProgress
    else Claimed
  }

  function BeginItems(items: Items, k: string, hash: string, now: int): Items {
    if BeginAnswer(items, k, hash, now).Claimed? then items[k := Record(hash, 0, "", false, now)] else items
  }

  function CompleteItems(items: Items, k: string, status: int, body: string): Items {
    var r := if k in items then items[k] else Record("", 0, "", false, 0);
    items[k := r.(completed := true, status := status, body := body)]
  }

  /** MemoryIdempotencyStore */
  class Store {
    var items: Items

    constructor ()
      ensures items == map[]
    {
      items := map[];
    }

    method Begin(k: string, hash: string, now: int) returns (r: Begun)
      modifies this
      ensures r == BeginAnswer(old(items), k, hash, now) && items == BeginItems(old(items), k, hash, now)
    {
      if k in items {
        var existing := items[k];
        if existing.completed {
          if existing.requestHash != hash { return Conflict; }
          return Replay(existing.status, existing.body);
        }
        if now - existing.createdAt < IN_PROGRESS_TTL { return InProgress; }
      }
      items := items[k := Record(hash, 0, "", false, now)];
      return Claimed;
    }

    method Complete(k: string, status: int, body: string)
      modifies this
      ensures items == CompleteItems(old(items), k, status, body)
    {
      var item := if k in items then items[k] else Record("", 0, "", false, 0);
      items := items[k := item.(completed := true, status := status, body := body)];
    }
  }

  // ---- Requests, interleaved ----

  datatype Phase =
    | Running                           // claimed, handler at work
    | Ran(status: int, body: string)    // handler ended, response recorded
    | Refused(why: Begun)               // conflict or in progress
    | Replayed(status: int, body: string)

  datatype Request = Request(key: string, hash: string, phase: Phase)

  /** owners: the request that claimed the record last. */
  datatype State = State(items: Items, requests: map<nat, Request>, owners: map<string, nat>, now: int)

  const EMPTY := State(map[], map[], map[], 0)

  datatype Action =
    | Tick(seconds: nat)
    | Arrive(r: nat, key: string, hash: string)
    | Finish(r: nat, status: int, body: string)

  function Step(s: State, a: Action): State {
    match a
    case Tick(d) => s.(now := s.now + d)
    case Arrive(r, k, hash) =>
      if r in s.requests then s else
        (match BeginAnswer(s.items, k, hash, s.now)
         case Claimed => State(BeginItems(s.items, k, hash, s.now), s.requests[r := Request(k, hash, Running)], s.owners[k := r], s.now)
         case Replay(status, body) => s.(requests := s.requests[r := Request(k, hash, Replayed(status, body))])
         case Conflict => s.(requests := s.requests[r := Request(k, hash, Refused(Conflict))])
         case InProgress => s.(requests := s.requests[r := Request(k, hash, Refused(InProgress))]))
    case Finish(r, status, body) =>
      if r in s.requests && s.requests[r].phase == Running then
        s.(items := CompleteItems(s.items, s.requests[r].key, status, body),
           requests := s.requests[r := s.requests[r].(phase := Ran(status, body))])
      else s
  }

  predicate IsRun(trace: seq<State>, acts: seq<Action>) {
    |trace| == |acts| + 1 && trace[0] == EMPTY
    && forall i :: 0 <= i < |acts| ==> trace[i + 1] == Step(trace[i], acts[i])
  }

  /** The request's handler has been started. */
  predicate Started(s: State, r: nat) {
    r in s.requests && (s.requests[r].phase == Running || s.requests[r].phase.Ran?)
  }

  /** The action arrives at a record whose handler has run past the TTL. */
  predicate Late(s: State, a: Action) {
    a.Arrive? && a.r !in s.requests && Overdue(s.items, a.key, s.now)
  }

  /** No action of the run so far was late; so it is when every handler completes within the TTL. */
  predicate Prompt(trace: seq<State>, acts: seq<Action>, n: nat)
    requires |trace| == |acts| + 1 && n <= |acts|
  {
    forall i :: 0 <= i < n ==> !Late(trace[i], acts[i])
  }

  /** Two handlers were started for one key. */
  ghost predicate StartedTwice(s: State) {
    exists a, b :: Started(s, a) && Started(s, b) && a != b && s.requests[a].key == s.requests[b].key
  }

  // ---- What holds in every run ----

  /** Every record was claimed by a request that started its handler. */
  ghost predicate Claims(s: State) {
    && (forall k :: k in s.items <==> k in s.owners)
    && (forall k :: k in s.owners ==> Started(s, s.owners[k]) && s.requests[s.owners[k]].key == k)
    && (forall r :: Started(s, r) ==> s.requests[r].key in s.items)
  }

  lemma ArriveClaims(s: State, r: nat, k: string, hash: string)
    requires Claims(s)
    ensures Claims(Step(s, Arrive(r, k, hash)))
  {
    hide BeginAnswer, Claims;
    if r !in s.requests {
      match BeginAnswer(s.items, k, hash, s.now) {
        case Claimed => StartedClaims(s, r, k, hash, Record(hash, 0, "", false, s.now));
        case Replay(status, body) => AnsweredClaims(s, r, Request(k, hash, Replayed(status, body)));
        case Conflict => AnsweredClaims(s, r, Request(k, hash, Refused(Conflict)));
        case InProgress => AnsweredClaims(s, r, Request(k, hash, Refused(InProgress)));
      }
    }
  }

  lemma StartedClaims(s: State, r: nat, k: string, hash: string, record: Record)
    requires Claims(s) && r !in s.requests
    ensures Claims(State(s.items[k := record], s.requests[r := Request(k, hash, Running)], s.owners[k := r], s.now))
  {
    var s' := State(s.items[k := record], s.requests[r := Request(k, hash, Running)], s.owners[k := r], s.now);
    assert s'.items.Keys == s'.owners.Keys;
    forall q | Started(s', q) ensures s'.requests[q].key in s'.items { assert q != r ==> Started(s, q); }
  }

  lemma AnsweredClaims(s: State, r: nat, q: Request)
    requires Claims(s) && r !in s.requests && (q.phase.Refused? || q.phase.Replayed?)
    ensures Claims(s.(requests := s.requests[r := q]))
  {
    var s' := s.(requests := s.requests[r := q]);
    forall p | Started(s', p) ensures s'.requests[p].key in s'.items { assert Started(s, p); }
  }

  lemma FinishClaims(s: State, r: nat, status: int, body: string)
    requires Claims(s)
    ensures Claims(Step(s, Finish(r, status, body)))
  {
    var s' := Step(s, Finish(r, status, body));
    if s' != s { assert Started(s, r); }
    forall q | Started(s', q) ensures s'.requests[q].key in s'.items { assert Started(s, q); }
  }

  lemma {:induction false} ClaimsHold(trace: seq<State>, acts: seq<Action>, n: nat)
    requires IsRun(trace, acts) && n < |trace|
    ensures Claims(trace[n])
  {
    hide Claims, Step;
    if n == 0 {
      NoClaims();
    } else {
      ClaimsHold(trace, acts, n - 1);
      assert trace[n - 1 + 1] == Step(trace[n - 1], acts[n - 1]);
      match acts[n - 1] {
        case Tick(d) => TickClaims(trace[n - 1], d);
        case Arrive(r, k, hash) => ArriveClaims(trace[n - 1], r, k, hash);
        case Finish(r, status, body) => FinishClaims(trace[n - 1], r, status, body);
      }
    }
  }

  lemma NoClaims()
    ensures Claims(EMPTY)
  {
  }

  lemma TickClaims(s: State, d: nat)
    requires Claims(s)
    ensures Claims(Step(s, Tick(d)))
  {
    forall q | Started(Step(s, Tick(d)), q) ensures s.requests[q].key in s.items { assert Started(s, q); }
  }

  // ---- What holds in prompt runs ----

  /** The one request that started the handler of a key is the owner, and the record says how far it is. */
  predicate OwnerFits(s: State, r: nat)
    requires r in s.requests
  {
    Started(s, r) ==>
      var q := s.requests[r];
      && q.key in s.items && q.key in s.owners && s.owners[q.key] == r && s.items[q.key].requestHash == q.hash
      && match q.phase
         case Running => !s.items[q.key].completed
         case Ran(status, body) => s.items[q.key].completed && s.items[q.key].status == status && s.items[q.key].body == body
         case _ => true
  }

  ghost predicate Inv(s: State) {
    Claims(s) && forall r :: r in s.requests ==> OwnerFits(s, r)
  }

  lemma ArriveKeeps(s: State, r: nat, k: string, hash: string)
    requires Inv(s) && !Late(s, Arrive(r, k, hash)) && Claims(Step(s, Arrive(r, k, hash)))
    ensures Inv(Step(s, Arrive(r, k, hash)))
  {
    hide Claims;
    var s' := Step(s, Arrive(r, k, hash));
    forall q | q in s'.requests ensures OwnerFits(s', q) {
      if q in s.requests { assert OwnerFits(s, q); }
    }
  }

  lemma FinishKeeps(s: State, r: nat, status: int, body: string)
    requires Inv(s) && Claims(Step(s, Finish(r, status, body)))
    ensures Inv(Step(s, Finish(r, status, body)))
  {
    hide Claims;
    var s' := Step(s, Finish(r, status, body));
    if s' != s { assert OwnerFits(s, r); }
    forall q | q in s'.requests ensures OwnerFits(s', q) { assert OwnerFits(s, q); }
  }

  lemma StepKeeps(s: State, a: Action)
    requires Inv(s) && !Late(s, a) && Claims(Step(s, a))
    ensures Inv(Step(s, a))
  {
    hide Claims, Late;
    match a {
      case Tick(d) => forall q | q in s.requests ensures OwnerFits(Step(s, a), q) { assert OwnerFits(s, q); }
      case Arrive(r, k, hash) => ArriveKeeps(s, r, k, hash);
      case Finish(r, status, body) => FinishKeeps(s, r, status, body);
    }
  }

  lemma {:induction false} PromptRunKeeps(trace: seq<State>, acts: seq<Action>, n: nat)
    requires IsRun(trace, acts) && n < |trace| && Prompt(trace, acts, n)
    ensures Inv(trace[n])
  {
    if n > 0 {
      PromptRunKeeps(trace, acts, n - 1);
      ClaimsHold(trace, acts, n);
      assert trace[n - 1 + 1] == Step(trace[n - 1], acts[n - 1]);
      StepKeeps(trace[n - 1], acts[n - 1]);
    }
  }

  /** The handler of a key runs a second time in a run exactly when some request came late. */
  lemma HandlerRunsOnceIff(trace: seq<State>, acts: seq<Action>)
    requires IsRun(trace, acts)
    ensures StartedTwice(trace[|acts|]) <==> !Prompt(trace, acts, |acts|)
  {
    var n := |acts|;
    if Prompt(trace, acts, n) {
      PromptRunKeeps(trace, acts, n);
      forall a, b | Started(trace[n], a) && Started(trace[n], b) && trace[n].requests[a].key == trace[n].requests[b].key ensures a == b {
        assert OwnerFits(trace[n], a) && OwnerFits(trace[n], b);
      }
    } else {
      var i :| 0 <= i < n && Late(trace[i], acts[i]);
      LateStartsAgain(trace, acts, i, n);
    }
  }

  /** The record dates from the arrival that claimed it last. */
  lemma {:induction false} ClaimedThen(trace: seq<State>, acts: seq<Action>, n: nat, k: string) returns (i: nat)
    requires IsRun(trace, acts) && n < |trace| && k in trace[n].items
    ensures i < n && acts[i].Arrive? && acts[i].key == k && acts[i].r !in trace[i].requests && Started(trace[i + 1], acts[i].r)
    ensures trace[n].items[k].createdAt == trace[i].now && k in trace[n].owners && trace[n].owners[k] == acts[i].r
  {
    assert n > 0;
    var s, a := trace[n - 1], acts[n - 1];
    assert trace[n - 1 + 1] == Step(s, a);
    ClaimsHold(trace, acts, n - 1);
    if a.Arrive? && a.key == k && a.r !in s.requests && BeginAnswer(s.items, k, a.hash, s.now).Claimed? {
      i := n - 1;
    } else {
      StillThere(s, a, k);
      i := ClaimedThen(trace, acts, n - 1, k);
    }
  }

  lemma StillThere(s: State, a: Action, k: string)
    requires Claims(s) && k in Step(s, a).items
    requires !(a.Arrive? && a.key == k && a.r !in s.requests && BeginAnswer(s.items, k, a.hash, s.now).Claimed?)
    ensures k in s.items && Step(s, a).items[k].createdAt == s.items[k].createdAt && k in s.owners && Step(s, a).owners[k] == s.owners[k]
    ensures k in Step(s, a).owners
  {
    hide BeginAnswer;
    if a.Finish? && a.r in s.requests && s.requests[a.r].phase == Running { assert Started(s, a.r); }
  }

  /** A handler of this key was started by arrival i, had not ended when arrival j came, 300 seconds or
      more after it, and no other was started for the key in between. */
  ghost predicate Overtaken(trace: seq<State>, acts: seq<Action>, i: nat, j: nat)
    requires |trace| == |acts| + 1
  {
    && i < j < |acts| && acts[i].Arrive? && acts[j].Arrive? && acts[i].key == acts[j].key
    && acts[i].r !in trace[i].requests && acts[j].r !in trace[j].requests
    && acts[j].key in trace[j].owners && trace[j].owners[acts[j].key] == acts[i].r
    && acts[j].key in trace[j].items && !trace[j].items[acts[j].key].completed
    && trace[j].now - trace[i].now >= 300
  }

  /** The same, said of arrival times: a handler runs a second time exactly when some arrival comes 300
      seconds or more after the arrival that started the handler, which has not ended yet. */
  lemma HandlerOvertakenIff(trace: seq<State>, acts: seq<Action>)
    requires IsRun(trace, acts)
    ensures StartedTwice(trace[|acts|]) <==> exists i, j :: Overtaken(trace, acts, i, j)
  {
    hide StartedTwice;
    HandlerRunsOnceIff(trace, acts);
    if !Prompt(trace, acts, |acts|) {
      var j :| 0 <= j < |acts| && Late(trace[j], acts[j]);
      var i := ClaimedThen(trace, acts, j, acts[j].key);
      assert Overtaken(trace, acts, i, j);
    }
    if i: nat, j: nat :| Overtaken(trace, acts, i, j) {
      OvertakenIsLate(trace, acts, i, j);
      assert Late(trace[j], acts[j]);
    }
  }

  lemma OvertakenIsLate(trace: seq<State>, acts: seq<Action>, i: nat, j: nat)
    requires IsRun(trace, acts) && Overtaken(trace, acts, i, j)
    ensures Late(trace[j], acts[j])
  {
    var k := ClaimedThen(trace, acts, j, acts[j].key);
    ArrivesOnce(trace, acts, if i < k then i else k, if i < k then k else i);
  }

  /** A request arrives once. */
  lemma {:induction false} ArrivesOnce(trace: seq<State>, acts: seq<Action>, i: nat, j: nat)
    requires IsRun(trace, acts) && i <= j < |acts| && acts[i].Arrive? && acts[i].r !in trace[i].requests
    requires acts[j].Arrive? && acts[j].r == acts[i].r && acts[j].r !in trace[j].requests
    ensures i == j
  {
    if i < j { RequestStays(trace, acts, i, j); }
  }

  lemma {:induction false} RequestStays(trace: seq<State>, acts: seq<Action>, i: nat, n: nat)
    requires IsRun(trace, acts) && i < n <= |acts| && acts[i].Arrive?
    ensures acts[i].r in trace[n].requests
    decreases n
  {
    assert trace[n - 1 + 1] == Step(trace[n - 1], acts[n - 1]);
    if i + 1 < n { RequestStays(trace, acts, i, n - 1); }
  }

  /** While the handler of its key is at work and less than 300 seconds old, an arrival is told that the
      key is in progress, and nothing is run or recorded. */
  lemma BusyWhileRunning(trace: seq<State>, acts: seq<Action>, n: nat, owner: nat)
    requires IsRun(trace, acts) && n < |acts| && Prompt(trace, acts, n)
    requires owner in trace[n].requests && trace[n].requests[owner].phase == Running
    requires acts[n].Arrive? && acts[n].r !in trace[n].requests && acts[n].key == trace[n].requests[owner].key
    requires acts[n].key in trace[n].items && trace[n].now - trace[n].items[acts[n].key].createdAt < 300
    ensures acts[n].r in trace[n + 1].requests && trace[n + 1].requests[acts[n].r].phase == Refused(InProgress)
    ensures trace[n + 1].items == trace[n].items
  {
    PromptRunKeeps(trace, acts, n);
    assert OwnerFits(trace[n], owner);
    assert trace[n + 1] == Step(trace[n], acts[n]);
  }

  lemma LateStartsAgain(trace: seq<State>, acts: seq<Action>, i: nat, n: nat)
    requires IsRun(trace, acts) && i < n <= |acts| && Late(trace[i], acts[i])
    ensures StartedTwice(trace[n])
  {
    ClaimsHold(trace, acts, i);
    assert trace[i + 1] == Step(trace[i], acts[i]);
    var a, b := trace[i].owners[acts[i].key], acts[i].r;
    StartedStays(trace, acts, i, n, a);
    StartedStays(trace, acts, i + 1, n, b);
  }

  lemma {:induction false} StartedStays(trace: seq<State>, acts: seq<Action>, m: nat, n: nat, r: nat)
    requires IsRun(trace, acts) && m <= n <= |acts| && Started(trace[m], r)
    ensures Started(trace[n], r) && trace[n].requests[r].key == trace[m].requests[r].key
    decreases n
  {
    if m < n {
      StartedStays(trace, acts, m, n - 1, r);
      assert trace[n - 1 + 1] == Step(trace[n - 1], acts[n - 1]);
    }
  }

  lemma CompletedStep(s: State, a: Action, k: string)
    requires Inv(s) && k in s.items && s.items[k].completed
    ensures k in Step(s, a).items && Step(s, a).items[k] == s.items[k]
  {
    hide Claims;
    if a.Finish? && a.r in s.requests { assert OwnerFits(s, a.r); }
  }

  /** A completed record never changes. */
  lemma {:induction false} CompletedStays(trace: seq<State>, acts: seq<Action>, m: nat, n: nat, k: string)
    requires IsRun(trace, acts) && m <= n <= |acts| && Prompt(trace, acts, n)
    requires k in trace[m].items && trace[m].items[k].completed
    ensures k in trace[n].items && trace[n].items[k] == trace[m].items[k]
    decreases n
  {
    hide Inv, Step, Late;
    if m < n {
      CompletedStays(trace, acts, m, n - 1, k);
      PromptRunKeeps(trace, acts, n - 1);
      assert trace[n - 1 + 1] == Step(trace[n - 1], acts[n - 1]);
      CompletedStep(trace[n - 1], acts[n - 1], k);
    }
  }

  /** Whoever arrives after the handler of its key has ended gets the recorded response of the one
      request that ran it, or a conflict when its body hash differs; the handler is not run again. */
  lemma LaterRequestsReplay(trace: seq<State>, acts: seq<Action>, n: nat, owner: nat)
    requires IsRun(trace, acts) && n < |acts| && Prompt(trace, acts, n)
    requires owner in trace[n].requests && trace[n].requests[owner].phase.Ran?
    requires acts[n].Arrive? && acts[n].r !in trace[n].requests && acts[n].key == trace[n].requests[owner].key
    ensures var o := trace[n].requests[owner];
            acts[n].r in trace[n + 1].requests &&
            trace[n + 1].requests[acts[n].r].phase ==
              (if acts[n].hash == o.hash then Replayed(o.phase.status, o.phase.body) else Refused(Conflict))
    ensures trace[n + 1].items == trace[n].items
  {
    PromptRunKeeps(trace, acts, n);
    assert OwnerFits(trace[n], owner);
    assert trace[n + 1] == Step(trace[n], acts[n]);
  }

  /** Without promptness the guarantees do fail: a handler that takes 300 seconds is run again, and
      the response recorded first is overwritten by the second one. */
  lemma SlowHandlerRunsTwice(k: string, hash: string)
    ensures var acts := [Arrive(0, k, hash), Tick(300), Arrive(1, k, hash), Finish(0, 201, "first"), Finish(1, 500, "second")];
            exists trace: seq<State> :: IsRun(trace, acts) && StartedTwice(trace[5])
              && k in trace[4].items && trace[4].items[k].completed && k in trace[5].items && trace[5].items[k] != trace[4].items[k]
  {
    var acts := [Arrive(0, k, hash), Tick(300), Arrive(1, k, hash), Finish(0, 201, "first"), Finish(1, 500, "second")];
    var s1 := Step(EMPTY, acts[0]);
    var s2 := Step(s1, acts[1]);
    var s3 := Step(s2, acts[2]);
    var s4 := Step(s3, acts[3]);
    var s5 := Step(s4, acts[4]);
    var trace := [EMPTY, s1, s2, s3, s4, s5];
    assert IsRun(trace, acts);
    assert Started(s5, 0) && Started(s5, 1) && s5.requests[0].key == s5.requests[1].key;
    assert trace[4].items[k].status == 201 && trace[5].items[k].status == 500;
  }

  // ---- The middleware ----

  function UpperChar(c: char): char {
    if 'a' <= c <= 'z' then (c as int - 32) as char else c
  }

  function Upper(s: string): string {
    seq(|s|, i requires 0 <= i < |s| => UpperChar(s[i]))
  }

  predicate IdempotentMethod(verb: string) {
    Upper(Trim(verb)) in {"POST", "PUT", "PATCH", "DELETE"}
  }

  /** The verbs are told in any case. */
  lemma MethodsInAnyCase(verb: string)
    ensures Upper("abcdefghijklmnopqrstuvwxyz") == "ABCDEFGHIJKLMNOPQRSTUVWXYZ"
    ensures Upper(Fold(verb)) == Upper(verb)
  {
    UpperOfFold(verb);
  }

  lemma UpperOfFold(verb: string)
    ensures Upper(Fold(verb)) == Upper(verb)
  {
  }

  datatype Response = Response(status: int, body: string, replayed: bool)

  const CONFLICT_RESPONSE := Response(409, "idempotency key reused with different request", false)
  const BUSY_RESPONSE := Response(409, "idempotency key already in progress", false)

  /** One request that meets no other on its way: handled is what the wrapped handler answers if it is run. */
  method Handle(store: Store, plugin: string, verb: string, header: string, hash: string, now: int, handled: Response)
    returns (r: Response, ran: bool)
    requires !handled.replayed
    modifies store
    ensures Upper(Trim(verb)) !in {"POST", "PUT", "PATCH", "DELETE"} || Trim(header) == "" ==>
              ran && r == handled && store.items == old(store.items)
    ensures Upper(Trim(verb)) in {"POST", "PUT", "PATCH", "DELETE"} && Trim(header) != "" ==>
              var k := ItemKey(if plugin == "" then "default" else plugin, Trim(header));
              var begun := BeginAnswer(old(store.items), k, hash, now);
              && (ran <==> begun.Claimed?)
              && store.items == (if ran then CompleteItems(BeginItems(old(store.items), k, hash, now), k, handled.status, handled.body)
                                 else old(store.items))
              && (match begun
                  case Claimed => r == handled
                  case Replay(status, body) => r == Response(status, body, true)
                  case Conflict => r == Response(409, "idempotency key reused with different request", false)
                  case InProgress => r == Response(409, "idempotency key already in progress", false))
  {
    if !IdempotentMethod(verb) { return handled, true; }
    var key := Trim(header);
    if key == "" { return handled, true; }
    var k := ItemKey(if plugin == "" then "default" else plugin, key);
    var begun := store.Begin(k, hash, now);
    match begun {
      case Conflict => return CONFLICT_RESPONSE, false;
      case InProgress => return BUSY_RESPONSE, false;
      case Replay(status, body) => return Response(status, body, true), false;
      case Claimed =>
        store.Complete(k, handled.status, handled.body);
        return handled, true;
    }
  }

  /** Sent twice with the same body, a request is handled once and answered twice with the same status and body. */
  lemma RetryReplays(items: Items, k: string, hash: string, now: int, later: int, status: int, body: string)
    requires BeginAnswer(items, k, hash, now).Claimed?
    ensures var done := CompleteItems(BeginItems(items, k, hash, now), k, status, body);
            BeginAnswer(done, k, hash, later) == Replay(status, body) && BeginItems(done, k, hash, later) == done
    ensures forall other :: other != hash ==>
              BeginAnswer(CompleteItems(BeginItems(items, k, hash, now), k, status, body), k, other, later) == Conflict
  {
  }
}
