/** KeyedLocker: ref-counted mutexes by (bucket, key), as an interleaved step system. Each section under `l.mu` is one
    step, and so is taking or dropping an entry's own mutex. Any number of Lock calls may be under way. */
module KeyedLocker {
  import opened ByteStrings

  type CallId = nat
  type MutexId = nat

  /** bucket + "\x00" + key */
  function Composite(bucket: ByteString, key: ByteString): ByteString {
    bucket + [0] + key
  }

  /** Where one Lock call, or its release closure, has got to. */
  datatype Phase = Waiting | Holding | Releasing

  datatype Call = Call(bucket: ByteString, key: ByteString, mutex: MutexId, phase: Phase)
  {
    function Entry(): ByteString {
      Composite(bucket, key)
    }

    predicate SameKey(other: Call) {
      bucket == other.bucket && key == other.key
    }
  }

  datatype KeyedMutex = KeyedMutex(locked: bool, refs: int)

  /** `locks` is the Go map, `mutexes` the heap of keyedMutex objects (a deleted entry leaves its object behind). */
  datatype State = State(
    locks: map<ByteString, MutexId>,
    mutexes: map<MutexId, KeyedMutex>,
    calls: map<CallId, Call>)

  const INITIAL := State(map[], map[], map[])

  datatype Action =
    | Enter(t: CallId, bucket: ByteString, key: ByteString, newMutex: MutexId)
    | Acquire(t: CallId)
    | Unlock(t: CallId)
    | Leave(t: CallId)

  ghost predicate Enabled(s: State, a: Action) {
    match a
    case Enter(t, bucket, key, newMutex) => t !in s.calls && newMutex !in s.mutexes
    case Acquire(t) =>
      && t in s.calls && s.calls[t].phase == Waiting
      && s.calls[t].mutex in s.mutexes && !s.mutexes[s.calls[t].mutex].locked
    case Unlock(t) => t in s.calls && s.calls[t].phase == Holding && s.calls[t].mutex in s.mutexes
    case Leave(t) => t in s.calls && s.calls[t].phase == Releasing && s.calls[t].mutex in s.mutexes
  }

  /** The guard of the delete in the release closure. */
  predicate DeleteGuard(s: State, c: Call) {
    c.Entry() in s.locks && s.locks[c.Entry()] == c.mutex
  }

  ghost function Apply(s: State, a: Action): State
    requires Enabled(s, a)
  {
    match a
    case Enter(t, bucket, key, newMutex) =>
      var c := Composite(bucket, key);
      var m := if c in s.locks then s.locks[c] else newMutex;
      var entry := if m in s.mutexes then s.mutexes[m] else KeyedMutex(false, 0);
      State(s.locks[c := m],
            s.mutexes[m := entry.(refs := entry.refs + 1)],
            s.calls[t := Call(bucket, key, m, Waiting)])
    case Acquire(t) =>
      var c := s.calls[t];
      s.(mutexes := s.mutexes[c.mutex := s.mutexes[c.mutex].(locked := true)],
         calls := s.calls[t := c.(phase := Holding)])
    case Unlock(t) =>
      var c := s.calls[t];
      s.(mutexes := s.mutexes[c.mutex := s.mutexes[c.mutex].(locked := false)],
         calls := s.calls[t := c.(phase := Releasing)])
    case Leave(t) =>
      var c := s.calls[t];
      var refs := s.mutexes[c.mutex].refs - 1;
      State(if refs == 0 && DeleteGuard(s, c) then s.locks - {c.Entry()} else s.locks,
            s.mutexes[c.mutex := s.mutexes[c.mutex].(refs := refs)],
            s.calls - {t})
  }

  /** The calls waiting on, holding or still releasing a mutex. */
  function Users(s: State, m: MutexId): set<CallId> {
    set t | t in s.calls && s.calls[t].mutex == m
  }

  /** Every live call's mutex object is the one the map holds for its entry. */
  ghost predicate CallsAreMapped(s: State) {
    forall t :: t in s.calls ==> s.calls[t].mutex in s.mutexes && DeleteGuard(s, s.calls[t])
  }

  /** Every entry is in use, and no object serves two entries. */
  ghost predicate EntriesAreInUse(s: State) {
    && (forall c :: c in s.locks ==> s.locks[c] in s.mutexes && s.mutexes[s.locks[c]].refs > 0)
    && (forall c, d :: c in s.locks && d in s.locks && s.locks[c] == s.locks[d] ==> c == d)
  }

  ghost predicate RefsCountUsers(s: State) {
    forall m :: m in s.mutexes ==> s.mutexes[m].refs == |Users(s, m)|
  }

  ghost predicate IsHolder(s: State, t: CallId) {
    t in s.calls && s.calls[t].phase == Holding
  }

  ghost predicate HoldersExclude(s: State) {
    && (forall t :: IsHolder(s, t) ==> s.calls[t].mutex in s.mutexes && s.mutexes[s.calls[t].mutex].locked)
    && (forall t, u :: IsHolder(s, t) && IsHolder(s, u) && s.calls[t].mutex == s.calls[u].mutex ==> t == u)
  }

  ghost predicate Inv(s: State) {
    CallsAreMapped(s) && EntriesAreInUse(s) && RefsCountUsers(s) && HoldersExclude(s)
  }

  lemma EnterAddsUser(s: State, a: Action)
    requires Enabled(s, a) && a.Enter?
    ensures var s' := Apply(s, a);
            var m := s'.calls[a.t].mutex;
            && (forall x :: Users(s', x) == if x == m then Users(s, x) + {a.t} else Users(s, x))
            && a.t !in Users(s, m)
  {
    hide Composite;
  }

  lemma UsersAreOfMutexes(s: State)
    requires CallsAreMapped(s)
    ensures forall m :: m !in s.mutexes ==> Users(s, m) == {}
  {
    hide Composite;
  }

  lemma EnterKeepsRefs(s: State, a: Action)
    requires Inv(s) && Enabled(s, a) && a.Enter?
    ensures RefsCountUsers(Apply(s, a))
  {
    hide Composite, HoldersExclude, DeleteGuard, Users;
    EnterAddsUser(s, a);
    UsersAreOfMutexes(s);
  }

  lemma EnterKeepsMap(s: State, a: Action)
    requires Inv(s) && Enabled(s, a) && a.Enter?
    ensures CallsAreMapped(Apply(s, a)) && HoldersExclude(Apply(s, a))
  {
    hide Composite, RefsCountUsers;
  }

  lemma EnterKeepsEntries(s: State, a: Action)
    requires Inv(s) && Enabled(s, a) && a.Enter?
    ensures EntriesAreInUse(Apply(s, a))
  {
    hide Composite, RefsCountUsers, HoldersExclude, CallsAreMapped;
  }

  lemma AcquireKeepsRefs(s: State, a: Action)
    requires Inv(s) && Enabled(s, a) && (a.Acquire? || a.Unlock?)
    ensures RefsCountUsers(Apply(s, a))
  {
    hide Composite, HoldersExclude, EntriesAreInUse, DeleteGuard;
    var s' := Apply(s, a);
    forall x | x in s'.mutexes ensures s'.mutexes[x].refs == |Users(s', x)| {
      assert Users(s', x) == Users(s, x);
    }
  }

  lemma AcquireKeepsMap(s: State, a: Action)
    requires Inv(s) && Enabled(s, a) && (a.Acquire? || a.Unlock?)
    ensures EntriesAreInUse(Apply(s, a)) && CallsAreMapped(Apply(s, a))
  {
    hide Composite, HoldersExclude, RefsCountUsers;
  }

  lemma AcquireKeepsHolders(s: State, a: Action)
    requires Inv(s) && Enabled(s, a) && (a.Acquire? || a.Unlock?)
    ensures HoldersExclude(Apply(s, a))
  {
    hide Composite, RefsCountUsers, EntriesAreInUse, CallsAreMapped;
    var s' := Apply(s, a);
    forall t ensures IsHolder(s', t) <==> if t == a.t then a.Acquire? else IsHolder(s, t) {
    }
  }

  lemma LeaveKeepsRefs(s: State, a: Action)
    requires Inv(s) && Enabled(s, a) && a.Leave?
    ensures RefsCountUsers(Apply(s, a))
  {
    hide Composite, HoldersExclude, EntriesAreInUse;
    var s' := Apply(s, a);
    var m := s.calls[a.t].mutex;
    assert a.t in Users(s, m);
    forall x | x in s'.mutexes ensures s'.mutexes[x].refs == |Users(s', x)| {
      assert Users(s', x) == if x == m then Users(s, x) - {a.t} else Users(s, x);
    }
  }

  lemma LeaveRefs(s: State, a: Action)
    requires Inv(s) && Enabled(s, a) && a.Leave? && RefsCountUsers(Apply(s, a))
    ensures Apply(s, a).mutexes[s.calls[a.t].mutex].refs >= 0
  {
    hide Composite, DeleteGuard, EntriesAreInUse, CallsAreMapped, HoldersExclude;
  }

  lemma LeaveKeepsMap(s: State, a: Action)
    requires Inv(s) && Enabled(s, a) && a.Leave? && RefsCountUsers(Apply(s, a))
    ensures CallsAreMapped(Apply(s, a))
  {
    hide Composite, HoldersExclude;
    var s' := Apply(s, a);
    var c := s.calls[a.t];
    forall t | t in s'.calls ensures s'.calls[t].mutex in s'.mutexes && DeleteGuard(s', s'.calls[t]) {
      if s'.calls[t].Entry() == c.Entry() {
        assert t in Users(s', c.mutex);
      }
    }
  }

  lemma LeaveKeepsEntries(s: State, a: Action)
    requires Inv(s) && Enabled(s, a) && a.Leave?
    requires Apply(s, a).mutexes[s.calls[a.t].mutex].refs >= 0
    ensures EntriesAreInUse(Apply(s, a))
  {
    hide Composite, RefsCountUsers, HoldersExclude;
  }

  lemma LeaveKeepsHolders(s: State, a: Action)
    requires Inv(s) && Enabled(s, a) && a.Leave?
    ensures HoldersExclude(Apply(s, a))
  {
    hide Composite, DeleteGuard, RefsCountUsers, EntriesAreInUse, CallsAreMapped;
    var s' := Apply(s, a);
    forall t ensures IsHolder(s', t) ==> IsHolder(s, t) && s'.calls[t] == s.calls[t] {
    }
  }

  lemma StepKeepsInv(s: State, a: Action)
    requires Inv(s) && Enabled(s, a)
    ensures Inv(Apply(s, a))
  {
    hide Apply, Enabled, CallsAreMapped, EntriesAreInUse, RefsCountUsers, HoldersExclude;
    match a
    case Enter(_, _, _, _) =>
      EnterKeepsRefs(s, a);
      EnterKeepsMap(s, a);
      EnterKeepsEntries(s, a);
    case Acquire(_) =>
      AcquireKeepsRefs(s, a);
      AcquireKeepsMap(s, a);
      AcquireKeepsHolders(s, a);
    case Unlock(_) =>
      AcquireKeepsRefs(s, a);
      AcquireKeepsMap(s, a);
      AcquireKeepsHolders(s, a);
    case Leave(_) =>
      LeaveKeepsRefs(s, a);
      LeaveKeepsMap(s, a);
      LeaveRefs(s, a);
      LeaveKeepsEntries(s, a);
      LeaveKeepsHolders(s, a);
  }

  /** Every finite interleaving of Lock and release steps. */
  ghost predicate IsRun(states: seq<State>, actions: seq<Action>) {
    && |states| == |actions| + 1
    && states[0] == INITIAL
    && forall i :: 0 <= i < |actions| ==>
         Enabled(states[i], actions[i]) && states[i + 1] == Apply(states[i], actions[i])
  }

  lemma {:induction false} RunKeepsInv(states: seq<State>, actions: seq<Action>, n: nat)
    requires IsRun(states, actions) && n < |states|
    ensures Inv(states[n])
    decreases n
  {
    if n > 0 {
      RunKeepsInv(states, actions, n - 1);
      StepKeepsInv(states[n - 1], actions[n - 1]);
    }
  }

  /** Callers of one key share one mutex object. */
  lemma SameKeySameMutex(s: State, t: CallId, u: CallId)
    requires Inv(s) && t in s.calls && u in s.calls && s.calls[t].SameKey(s.calls[u])
    ensures s.calls[t].mutex == s.calls[u].mutex
  {
    hide Composite;
    assert s.calls[t].Entry() == s.calls[u].Entry();
  }

  /** A step concerns its own call only. */
  lemma OthersUntouched(s: State, a: Action)
    requires Enabled(s, a)
    ensures var s' := Apply(s, a);
            forall u :: u != a.t ==> (u in s'.calls <==> u in s.calls) && (u in s.calls ==> s'.calls[u] == s.calls[u])
    ensures !a.Enter? ==> a.t in s.calls && (a.t in Apply(s, a).calls ==> Apply(s, a).calls[a.t].SameKey(s.calls[a.t]))
    ensures a.Enter? ==> var c := Apply(s, a).calls[a.t]; c.bucket == a.bucket && c.key == a.key
  {
    hide Composite;
  }

  lemma HoldersOfOneMutex(s: State, t: CallId, u: CallId)
    requires Inv(s) && IsHolder(s, t) && IsHolder(s, u) && s.calls[t].mutex == s.calls[u].mutex
    ensures t == u
  {
  }

  lemma EntriesHaveUsers(s: State)
    requires Inv(s)
    ensures forall c :: c in s.locks ==> Users(s, s.locks[c]) != {}
  {
    forall c | c in s.locks ensures Users(s, s.locks[c]) != {} {
      assert |Users(s, s.locks[c])| > 0;
    }
  }

  /** In every interleaving of any number of Lock calls: one holder per (bucket, key); refs counts the calls waiting on,
      holding or releasing the mutex; callers of one key share one mutex object; every entry has a caller, so the map
      empties with the last call; and the `== m` guard of the delete never fails. */
  lemma LockerIsSafe(states: seq<State>, actions: seq<Action>, n: nat)
    requires IsRun(states, actions) && n < |states|
    ensures var s := states[n];
            && (forall t, u :: IsHolder(s, t) && IsHolder(s, u) && s.calls[t].SameKey(s.calls[u]) ==> t == u)
            && (forall t, u :: t in s.calls && u in s.calls && s.calls[t].SameKey(s.calls[u])
                 ==> s.calls[t].mutex == s.calls[u].mutex)
            && (forall m :: m in s.mutexes ==> s.mutexes[m].refs == |Users(s, m)|)
            && (forall c :: c in s.locks ==> Users(s, s.locks[c]) != {})
            && (n < |actions| && actions[n].Leave? ==> DeleteGuard(s, s.calls[actions[n].t]))
  {
    var s := states[n];
    RunKeepsInv(states, actions, n);
    EntriesHaveUsers(s);
    forall t, u | t in s.calls && u in s.calls && s.calls[t].SameKey(s.calls[u])
      ensures s.calls[t].mutex == s.calls[u].mutex
    {
      SameKeySameMutex(s, t, u);
    }
  }

  // ----- Nobody waits without a cause -----

  /** A locked mutex has a holder. */
  ghost predicate LockedIsHeld(s: State) {
    forall m :: m in s.mutexes && s.mutexes[m].locked ==> exists t :: IsHolder(s, t) && s.calls[t].mutex == m
  }

  lemma StepKeepsHeld(s: State, a: Action)
    requires Inv(s) && LockedIsHeld(s) && Enabled(s, a)
    ensures LockedIsHeld(Apply(s, a))
  {
    hide Composite, DeleteGuard, RefsCountUsers;
    var s' := Apply(s, a);
    forall m | m in s'.mutexes && s'.mutexes[m].locked ensures exists t :: IsHolder(s', t) && s'.calls[t].mutex == m {
      if a.Acquire? && m == s.calls[a.t].mutex {
        assert IsHolder(s', a.t);
      } else {
        var t :| IsHolder(s, t) && s.calls[t].mutex == m;
        assert IsHolder(s', t) && s'.calls[t].mutex == m;
      }
    }
  }

  lemma {:induction false} RunKeepsHeld(states: seq<State>, actions: seq<Action>, n: nat)
    requires IsRun(states, actions) && n < |states|
    ensures LockedIsHeld(states[n])
    decreases n
  {
    if n > 0 {
      hide Inv, LockedIsHeld, Apply, Enabled;
      RunKeepsHeld(states, actions, n - 1);
      RunKeepsInv(states, actions, n - 1);
      StepKeepsHeld(states[n - 1], actions[n - 1]);
    }
  }

  /** In every reachable state a waiting call can take its mutex iff nobody holds it, whoever holds a mutex can unlock
      it, and whoever has unlocked it can leave. */
  lemma LockerIsLive(states: seq<State>, actions: seq<Action>, n: nat, t: CallId)
    requires IsRun(states, actions) && n < |states| && t in states[n].calls
    ensures var s := states[n];
            match s.calls[t].phase
            case Waiting =>
              Enabled(s, Acquire(t)) <==> forall u :: IsHolder(s, u) ==> s.calls[u].mutex != s.calls[t].mutex
            case Holding => Enabled(s, Unlock(t))
            case Releasing => Enabled(s, Leave(t))
  {
    hide Composite, DeleteGuard, RefsCountUsers;
    RunKeepsInv(states, actions, n);
    RunKeepsHeld(states, actions, n);
  }

  /** Entries are shared between distinct keys only when a bucket name contains the separator. */
  lemma CompositeIsInjective(b: ByteString, k: ByteString, b': ByteString, k': ByteString)
    requires 0 !in b && 0 !in b'
    requires Composite(b, k) == Composite(b', k')
    ensures b == b' && k == k'
  {
    var c, c' := Composite(b, k), Composite(b', k');
    assert c[|b|] == 0 && c'[|b'|] == 0;
    assert forall i :: 0 <= i < |b| ==> c[i] == b[i];
    assert forall i :: 0 <= i < |b'| ==> c'[i] == b'[i];
    assert b == c[..|b|] && b' == c'[..|b'|];
    assert k == c[|b| + 1..] && k' == c'[|b'| + 1..];
  }

  /** Two buckets can share an entry iff one bucket's name starts with the other's and the separator. */
  lemma SharedEntryIff(b: ByteString, b': ByteString)
    requires b != b'
    ensures (exists k, k' :: Composite(b, k) == Composite(b', k')) <==> b + [0] <= b' || b' + [0] <= b
  {
    if k, k' :| Composite(b, k) == Composite(b', k') {
      SharedEntryNests(b, k, b', k');
    }
    if b + [0] <= b' {
      NestingShares(b, b');
    }
    if b' + [0] <= b {
      NestingShares(b', b);
    }
  }

  lemma SharedEntryNests(b: ByteString, k: ByteString, b': ByteString, k': ByteString)
    requires b != b' && Composite(b, k) == Composite(b', k')
    ensures b + [0] <= b' || b' + [0] <= b
  {
    var c := Composite(b, k);
    assert b == c[..|b|] && c[|b|] == 0 && b' == c[..|b'|] && c[|b'|] == 0;
    if |b| < |b'| {
      assert b + [0] == c[..|b| + 1] && b'[..|b| + 1] == c[..|b| + 1];
    } else if |b'| < |b| {
      assert b' + [0] == c[..|b'| + 1] && b[..|b'| + 1] == c[..|b'| + 1];
    }
  }

  lemma NestingShares(b: ByteString, b': ByteString)
    requires b + [0] <= b'
    ensures Composite(b, b'[|b| + 1..] + [0]) == Composite(b', [])
  {
    assert b' == b + [0] + b'[|b| + 1..];
  }
}
