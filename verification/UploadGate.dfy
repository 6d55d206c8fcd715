/** The one-token upload gate with cool-down of ObjectStore.uploadTelegram, as an interleaved step system. A gate
    belongs to a token key, so every bucket bound to that bot shares it. The clock never runs backwards. */
module UploadGate {
  import opened ByteStrings

  type CallId = nat

  /** Where one uploadTelegram call has got to; Returning is the deferred return of the slot. */
  datatype Phase = WaitingForSlot | CoolingDown | Ready | Uploading | RateLimited(retryAfter: int) | Returning

  datatype Call = Call(tokenKey: ByteString, phase: Phase)

  datatype Gate = Gate(tokens: int, until: int)

  datatype Event = Began(tokenKey: ByteString, at: int) | CoolDown(tokenKey: ByteString, until: int)

  datatype State = State(now: int, gates: map<ByteString, Gate>, calls: map<CallId, Call>, log: seq<Event>)

  /** newUploadGate for every bound token key: one token, no cool-down pending. */
  ghost predicate Initial(s: State) {
    && s.calls == map[] && s.log == []
    && forall k :: k in s.gates ==> s.gates[k].tokens == 1
  }

  datatype Action =
    | Tick(elapsed: nat)
    | Arrive(t: CallId, tokenKey: ByteString)
    | CancelWait(t: CallId)
    | TakeSlot(t: CallId)
    | CoolDownOver(t: CallId)
    | CancelCoolDown(t: CallId)
    | Begin(t: CallId)
    | Finish(t: CallId)
    | FailRateLimited(t: CallId, retryAfter: int)
    | RecordCoolDown(t: CallId)
    | ReturnSlot(t: CallId)

  predicate InPhase(s: State, t: CallId, p: Phase) {
    t in s.calls && s.calls[t].phase == p && s.calls[t].tokenKey in s.gates
  }

  function GateOf(s: State, t: CallId): Gate
    requires t in s.calls && s.calls[t].tokenKey in s.gates
  {
    s.gates[s.calls[t].tokenKey]
  }

  predicate Enabled(s: State, a: Action) {
    match a
    case Tick(_) => true
    case Arrive(t, tokenKey) => t !in s.calls && tokenKey in s.gates
    case CancelWait(t) => InPhase(s, t, WaitingForSlot)
    case TakeSlot(t) => InPhase(s, t, WaitingForSlot) && GateOf(s, t).tokens > 0
    case CoolDownOver(t) => InPhase(s, t, CoolingDown) && GateOf(s, t).until - s.now <= 0
    case CancelCoolDown(t) => InPhase(s, t, CoolingDown)
    case Begin(t) => InPhase(s, t, Ready)
    case Finish(t) => InPhase(s, t, Uploading)
    case FailRateLimited(t, retryAfter) => InPhase(s, t, Uploading) && retryAfter > 0
    case RecordCoolDown(t) =>
      t in s.calls && s.calls[t].phase.RateLimited? && s.calls[t].tokenKey in s.gates
    case ReturnSlot(t) => InPhase(s, t, Returning)
  }

  function Move(s: State, t: CallId, p: Phase): State
    requires t in s.calls
  {
    s.(calls := s.calls[t := s.calls[t].(phase := p)])
  }

  function Apply(s: State, a: Action): State
    requires Enabled(s, a)
  {
    match a
    case Tick(elapsed) => s.(now := s.now + elapsed)
    case Arrive(t, tokenKey) => s.(calls := s.calls[t := Call(tokenKey, WaitingForSlot)])
    case CancelWait(t) => s.(calls := s.calls - {t})
    case TakeSlot(t) =>
      var k, g := s.calls[t].tokenKey, GateOf(s, t);
      Move(s, t, CoolingDown).(gates := s.gates[k := g.(tokens := g.tokens - 1)])
    case CoolDownOver(t) => Move(s, t, Ready)
    case CancelCoolDown(t) => Move(s, t, Returning)
    case Begin(t) => Move(s, t, Uploading).(log := s.log + [Began(s.calls[t].tokenKey, s.now)])
    case Finish(t) => Move(s, t, Returning)
    case FailRateLimited(t, retryAfter) => Move(s, t, RateLimited(retryAfter))
    case RecordCoolDown(t) =>
      var k, g := s.calls[t].tokenKey, GateOf(s, t);
      var until := s.now + s.calls[t].phase.retryAfter;
      Move(s, t, Returning).(gates := s.gates[k := g.(until := until)], log := s.log + [CoolDown(k, until)])
    case ReturnSlot(t) =>
      var k, g := s.calls[t].tokenKey, GateOf(s, t);
      s.(calls := s.calls - {t}, gates := s.gates[k := g.(tokens := g.tokens + 1)])
  }

  predicate IsHolder(s: State, t: CallId, k: ByteString) {
    t in s.calls && s.calls[t].tokenKey == k && s.calls[t].phase != WaitingForSlot
  }

  predicate InFlight(s: State, t: CallId, k: ByteString) {
    t in s.calls && s.calls[t].tokenKey == k && s.calls[t].phase.Uploading?
  }

  /** The calls that have taken the slot of a gate and not yet returned it. */
  function Holders(s: State, k: ByteString): set<CallId> {
    set t | t in s.calls && IsHolder(s, t, k)
  }

  /** A call that got past the cool-down check and may still upload, or set the next cool-down. */
  predicate PastCoolDown(c: Call) {
    c.phase.Ready? || c.phase.Uploading? || c.phase.RateLimited?
  }

  ghost predicate OneToken(s: State) {
    && (forall t :: t in s.calls ==> s.calls[t].tokenKey in s.gates)
    && (forall k :: k in s.gates ==> s.gates[k].tokens >= 0 && s.gates[k].tokens + |Holders(s, k)| == 1)
  }

  ghost predicate CoolDownPassed(s: State) {
    && (forall t :: t in s.calls && s.calls[t].tokenKey in s.gates && PastCoolDown(s.calls[t])
          ==> GateOf(s, t).until <= s.now)
    && (forall t :: t in s.calls && s.calls[t].phase.RateLimited? ==> s.calls[t].phase.retryAfter > 0)
  }

  /** A gate's `until` is never earlier than any cool-down it recorded. */
  ghost predicate UntilIsLatest(s: State) {
    forall i :: 0 <= i < |s.log| && s.log[i].CoolDown? ==>
      s.log[i].tokenKey in s.gates && s.log[i].until <= s.gates[s.log[i].tokenKey].until
  }

  /** No upload begins before a cool-down recorded earlier under its token key. */
  ghost predicate BeginsAfterCoolDowns(log: seq<Event>) {
    forall i, j :: 0 <= i < j < |log| && log[i].CoolDown? && log[j].Began? && log[i].tokenKey == log[j].tokenKey
      ==> log[i].until <= log[j].at
  }

  ghost predicate Inv(s: State) {
    OneToken(s) && CoolDownPassed(s) && UntilIsLatest(s) && BeginsAfterCoolDowns(s.log)
  }

  lemma HolderIsUnique(s: State, t: CallId, u: CallId, k: ByteString)
    requires OneToken(s) && IsHolder(s, t, k) && IsHolder(s, u, k)
    ensures t == u
  {
    assert {t, u} <= Holders(s, k);
    if t != u {
      CardinalityOfSubset({t, u}, Holders(s, k));
    }
  }

  lemma CardinalityOfSubset(a: set<CallId>, b: set<CallId>)
    requires a <= b
    ensures |a| <= |b|
  {
    assert b == a + (b - a);
  }

  /** How one step changes the holders of each gate. */
  lemma HoldersAfter(s: State, a: Action, k: ByteString)
    requires Enabled(s, a)
    ensures var s' := Apply(s, a);
            Holders(s', k) == match a
              case TakeSlot(t) => if s.calls[t].tokenKey == k then Holders(s, k) + {t} else Holders(s, k)
              case ReturnSlot(t) => Holders(s, k) - {t}
              case _ => Holders(s, k)
  {
    var s' := Apply(s, a);
    if a.Tick? {
      assert Holders(s', k) == Holders(s, k);
    } else {
      forall u | u != a.t ensures IsHolder(s', u, k) <==> IsHolder(s, u, k) {
      }
    }
  }

  lemma StepKeepsOneToken(s: State, a: Action)
    requires OneToken(s) && Enabled(s, a)
    ensures OneToken(Apply(s, a))
  {
    hide Holders;
    var s' := Apply(s, a);
    forall k | k in s'.gates ensures s'.gates[k].tokens >= 0 && s'.gates[k].tokens + |Holders(s', k)| == 1 {
      HoldersAfter(s, a, k);
      assert a.TakeSlot? ==> a.t !in Holders(s, k) by {
        HoldersMeaning(s, k);
      }
      assert a.ReturnSlot? ==> (a.t in Holders(s, k) <==> s.calls[a.t].tokenKey == k) by {
        HoldersMeaning(s, k);
      }
    }
  }

  lemma HoldersMeaning(s: State, k: ByteString)
    ensures forall t :: t in Holders(s, k) <==> IsHolder(s, t, k)
  {
  }

  /** Only the holder moves a gate's `until`, and only forward. */
  lemma StepKeepsCoolDown(s: State, a: Action)
    requires Inv(s) && Enabled(s, a)
    ensures CoolDownPassed(Apply(s, a))
  {
    hide OneToken, UntilIsLatest, BeginsAfterCoolDowns;
    var s' := Apply(s, a);
    if a.RecordCoolDown? {
      forall t | t in s'.calls && s'.calls[t].tokenKey in s'.gates && PastCoolDown(s'.calls[t])
        ensures GateOf(s', t).until <= s'.now
      {
        if s'.calls[t].tokenKey == s.calls[a.t].tokenKey {
          HolderIsUnique(s, t, a.t, s.calls[a.t].tokenKey);
        }
      }
    }
  }

  lemma StepKeepsLog(s: State, a: Action)
    requires CoolDownPassed(s) && UntilIsLatest(s) && BeginsAfterCoolDowns(s.log) && Enabled(s, a)
    ensures UntilIsLatest(Apply(s, a)) && BeginsAfterCoolDowns(Apply(s, a).log)
  {
    hide OneToken;
  }

  ghost predicate IsRun(states: seq<State>, actions: seq<Action>) {
    && |states| == |actions| + 1
    && Initial(states[0])
    && forall i :: 0 <= i < |actions| ==>
         Enabled(states[i], actions[i]) && states[i + 1] == Apply(states[i], actions[i])
  }

  lemma {:induction false} RunKeepsInv(states: seq<State>, actions: seq<Action>, n: nat)
    requires IsRun(states, actions) && n < |states|
    ensures Inv(states[n])
    decreases n
  {
    if n == 0 {
      forall k ensures Holders(states[0], k) == {} {
      }
    } else {
      hide Apply, Enabled, OneToken, CoolDownPassed, UntilIsLatest, BeginsAfterCoolDowns, Initial;
      var s, a := states[n - 1], actions[n - 1];
      RunKeepsInv(states, actions, n - 1);
      StepKeepsOneToken(s, a);
      StepKeepsCoolDown(s, a);
      StepKeepsLog(s, a);
    }
  }

  /** In every interleaving: per token key the tokens and the holders (cancelled waiters never hold) add up to one, at
      most one upload is in flight, and no upload begins before the end of any cool-down recorded before it. */
  lemma GateIsSafe(states: seq<State>, actions: seq<Action>, n: nat)
    requires IsRun(states, actions) && n < |states|
    ensures var s := states[n];
            && (forall k :: k in s.gates ==> s.gates[k].tokens + |Holders(s, k)| == 1)
            && (forall k, t, u :: InFlight(s, t, k) && InFlight(s, u, k) ==> t == u)
            && BeginsAfterCoolDowns(s.log)
  {
    hide Holders;
    var s := states[n];
    RunKeepsInv(states, actions, n);
    forall k, t, u | InFlight(s, t, k) && InFlight(s, u, k) ensures t == u {
      HolderIsUnique(s, t, u, k);
    }
  }

  // ----- What a cool-down means on the clock -----

  /** Only a holder past the last cool-down moves a gate's `until`, so it only grows. */
  lemma {:induction false} UntilGrows(states: seq<State>, actions: seq<Action>, k: ByteString, m: nat, n: nat)
    requires IsRun(states, actions) && m <= n < |states| && k in states[m].gates
    ensures k in states[n].gates && states[m].gates[k].until <= states[n].gates[k].until
    decreases n
  {
    if m < n {
      hide OneToken, UntilIsLatest, BeginsAfterCoolDowns, Initial;
      UntilGrows(states, actions, k, m, n - 1);
      RunKeepsInv(states, actions, n - 1);
    }
  }

  /** A rate-limited call was told its delay by the failure of its own upload, and has taken no step since. */
  lemma {:induction false} DelayWasReported(states: seq<State>, actions: seq<Action>, t: CallId, n: nat)
    returns (h: nat)
    requires IsRun(states, actions) && n < |states|
    requires t in states[n].calls && states[n].calls[t].phase.RateLimited?
    ensures h < n && actions[h] == FailRateLimited(t, states[n].calls[t].phase.retryAfter)
    ensures forall m :: h < m <= n ==> t in states[m].calls && states[m].calls[t] == states[n].calls[t]
    decreases n
  {
    if n == 0 {
      assert false;
    } else if actions[n - 1].FailRateLimited? && actions[n - 1].t == t {
      h := n - 1;
    } else {
      h := DelayWasReported(states, actions, t, n - 1);
    }
  }

  /** Once a call has recorded the delay `r` that Telegram asked for, no upload under its token key begins before `r`
      has passed, whoever else records what in between. */
  lemma CoolDownIsWaitedOut(states: seq<State>, actions: seq<Action>, i: nat, j: nat, t: CallId, u: CallId, r: int)
    requires IsRun(states, actions) && i < j < |actions|
    requires actions[i] == RecordCoolDown(t) && states[i].calls[t].phase == RateLimited(r)
    requires actions[j] == Begin(u) && states[i].calls[t].tokenKey == states[j].calls[u].tokenKey
    ensures states[i].now + r <= states[j].now
    ensures exists h :: 0 <= h < i && actions[h] == FailRateLimited(t, r)
  {
    hide OneToken, UntilIsLatest, BeginsAfterCoolDowns, Initial;
    var k := states[i].calls[t].tokenKey;
    UntilGrows(states, actions, k, i + 1, j);
    RunKeepsInv(states, actions, j);
    var h := DelayWasReported(states, actions, t, i);
  }

  // ----- Nobody waits without a cause -----

  /** In every reachable state: a waiter can take the slot iff nobody holds it; a call that is cooling down can begin
      once the rest of the cool-down has passed, and at once when there is none; and every later phase has its next
      step. */
  lemma GateIsLive(states: seq<State>, actions: seq<Action>, n: nat, t: CallId)
    requires IsRun(states, actions) && n < |states| && t in states[n].calls
    ensures var s := states[n];
            var c := s.calls[t];
            c.tokenKey in s.gates &&
            match c.phase
            case WaitingForSlot => Enabled(s, TakeSlot(t)) <==> Holders(s, c.tokenKey) == {}
            case CoolingDown =>
              var wait := if s.gates[c.tokenKey].until > s.now then s.gates[c.tokenKey].until - s.now else 0;
              var later := Apply(s, Tick(wait));
              && later.now == s.now + wait
              && Enabled(later, CoolDownOver(t))
              && Enabled(Apply(later, CoolDownOver(t)), Begin(t))
              && InFlight(Apply(Apply(later, CoolDownOver(t)), Begin(t)), t, c.tokenKey)
            case Ready => Enabled(s, Begin(t))
            case Uploading => Enabled(s, Finish(t))
            case RateLimited(_) => Enabled(s, RecordCoolDown(t))
            case Returning => Enabled(s, ReturnSlot(t)) && Holders(Apply(s, ReturnSlot(t)), c.tokenKey) == {}
  {
    hide Initial, UntilIsLatest, BeginsAfterCoolDowns, Holders;
    var s := states[n];
    RunKeepsInv(states, actions, n);
    if s.calls[t].phase.Returning? {
      OnlyHolderLeaves(s, t);
    }
  }

  lemma OnlyHolderLeaves(s: State, t: CallId)
    requires OneToken(s) && Enabled(s, ReturnSlot(t))
    ensures Holders(Apply(s, ReturnSlot(t)), s.calls[t].tokenKey) == {}
  {
    var k := s.calls[t].tokenKey;
    HoldersAfter(s, ReturnSlot(t), k);
    forall u | u in Holders(s, k) ensures u == t {
      HolderIsUnique(s, t, u, k);
    }
  }
}
