/** The multipart session table under concurrency. CompleteMultipartUpload holds the key's lock throughout, but takes
    the session mutex twice, once to validate and once to delete; creates, parts, aborts and evictions may come in
    between. Each section under the session mutex is one step, and so is the metadata write. Any number of requests may
    be under way; those that touch only the key locker appear as its steps. */
module MultipartProtocol {
  import opened ByteStrings
  import opened Multipart
  import opened Tables
  import opened Ownership
  import L = KeyedLocker

  /** Where one CompleteMultipartUpload has got to. */
  datatype Phase = Entered | Validated(parts: seq<MultipartPart>) | Committed | Finished(ok: bool)

  datatype CompleteCall = CompleteCall(id: ByteString, k: ObjectKey, requested: seq<CompletedPart>, phase: Phase)

  /** A successful metadata write. */
  datatype Commit = Commit(
    t: L.CallId, id: ByteString, k: ObjectKey, requested: seq<CompletedPart>, parts: seq<MultipartPart>)

  /** `created` remembers the key of every upload id ever handed out; it is not state of the program. */
  datatype State = State(
    locker: L.State,
    sessions: Sessions,
    completes: map<L.CallId, CompleteCall>,
    commits: seq<Commit>,
    created: map<ByteString, ObjectKey>)

  ghost predicate Initial(s: State) {
    s.locker == L.INITIAL && s.sessions == map[] && s.completes == map[] && s.commits == [] && s.created == map[]
  }

  datatype Action =
    | Other(a: L.Action)
    | Start(t: L.CallId, id: ByteString, k: ObjectKey, requested: seq<CompletedPart>, newMutex: L.MutexId)
    | Acquire(t: L.CallId)
    | Validate(t: L.CallId)
    | WriteObject(t: L.CallId, ok: bool)
    | DeleteSession(t: L.CallId)
    | Release(t: L.CallId)
    | Leave(t: L.CallId)
    | Create(id: ByteString, session: Session)
    | StorePart(id: ByteString, k: ObjectKey, n: int, part: MultipartPart)
    | Remove(id: ByteString)

  /** The upload exists, is this key's, and completeParts accepts the request. */
  predicate Accepts(s: State, id: ByteString, k: ObjectKey, requested: seq<CompletedPart>) {
    id in s.sessions && s.sessions[id].Key() == k && GoodUpTo(s.sessions[id].parts, requested, |requested|)
  }

  ghost predicate HoldsKey(s: State, t: L.CallId) {
    t in s.completes && L.IsHolder(s.locker, t)
  }

  ghost predicate Enabled(s: State, a: Action) {
    match a
    case Other(l) => l.t !in s.completes && L.Enabled(s.locker, l)
    case Start(t, _, k, _, m) => t !in s.completes && L.Enabled(s.locker, L.Enter(t, k.bucket, k.key, m))
    case Acquire(t) => t in s.completes && L.Enabled(s.locker, L.Acquire(t))
    case Validate(t) => HoldsKey(s, t) && s.completes[t].phase.Entered?
    case WriteObject(t, _) => HoldsKey(s, t) && s.completes[t].phase.Validated?
    case DeleteSession(t) => HoldsKey(s, t) && s.completes[t].phase.Committed?
    case Release(t) => t in s.completes && s.completes[t].phase.Finished? && L.Enabled(s.locker, L.Unlock(t))
    case Leave(t) => t in s.completes && s.completes[t].phase.Finished? && L.Enabled(s.locker, L.Leave(t))
    case Create(id, session) => id !in s.created && session.parts == map[]
    case StorePart(id, k, _, _) => id in s.sessions && s.sessions[id].Key() == k
    case Remove(id) => id in s.sessions
  }

  function WithPhase(s: State, t: L.CallId, p: Phase): State
    requires t in s.completes
  {
    s.(completes := s.completes[t := s.completes[t].(phase := p)])
  }

  ghost function Apply(s: State, a: Action): State
    requires Enabled(s, a)
  {
    match a
    case Other(l) => s.(locker := L.Apply(s.locker, l))
    case Start(t, id, k, requested, m) =>
      s.(locker := L.Apply(s.locker, L.Enter(t, k.bucket, k.key, m)),
         completes := s.completes[t := CompleteCall(id, k, requested, Entered)])
    case Acquire(t) => s.(locker := L.Apply(s.locker, L.Acquire(t)))
    case Validate(t) =>
      var c := s.completes[t];
      if Accepts(s, c.id, c.k, c.requested)
      then WithPhase(s, t, Validated(Listed(s.sessions[c.id].parts, c.requested, |c.requested|)))
      else WithPhase(s, t, Finished(false))
    case WriteObject(t, ok) =>
      var c := s.completes[t];
      if ok then WithPhase(s, t, Committed).(commits := s.commits + [Commit(t, c.id, c.k, c.requested, c.phase.parts)])
      else WithPhase(s, t, Finished(false))
    case DeleteSession(t) => WithPhase(s, t, Finished(true)).(sessions := s.sessions - {s.completes[t].id})
    case Release(t) => s.(locker := L.Apply(s.locker, L.Unlock(t)))
    case Leave(t) => s.(locker := L.Apply(s.locker, L.Leave(t)))
    case Create(id, session) =>
      s.(sessions := s.sessions[id := session], created := s.created[id := session.Key()])
    case StorePart(id, _, n, part) =>
      s.(sessions := s.sessions[id := s.sessions[id].(parts := s.sessions[id].parts[n := part])])
    case Remove(id) => s.(sessions := s.sessions - {id})
  }

  // ----- The invariant -----

  /** Between its validation and the deletion of its session. */
  predicate Midway(s: State, t: L.CallId) {
    t in s.completes && (s.completes[t].phase.Validated? || s.completes[t].phase.Committed?)
  }

  ghost predicate CommittedId(s: State, id: ByteString) {
    exists i :: 0 <= i < |s.commits| && s.commits[i].id == id
  }

  /** Sessions keep the key their id was created with. */
  ghost predicate SessionsAreCreated(s: State) {
    forall id :: id in s.sessions ==> id in s.created && s.sessions[id].Key() == s.created[id]
  }

  /** A completion that has validated and not yet finished holds the lock of its upload's key. */
  ghost predicate MidwayHolds(s: State) {
    forall t :: Midway(s, t) ==>
      && L.IsHolder(s.locker, t)
      && s.completes[t].id in s.created && s.created[s.completes[t].id] == s.completes[t].k
  }

  /** The locker knows each completion under its own key. */
  ghost predicate CallsAgree(s: State) {
    forall t :: t in s.completes && t in s.locker.calls ==>
      ObjectKey(s.locker.calls[t].bucket, s.locker.calls[t].key) == s.completes[t].k
  }

  /** A committed upload's session is gone, or its committer is about to delete it. */
  ghost predicate CommittedGoes(s: State) {
    forall id :: CommittedId(s, id) ==>
      && id in s.created
      && (id in s.sessions ==>
           exists t :: Midway(s, t) && s.completes[t].phase.Committed? && s.completes[t].id == id)
  }

  ghost predicate ValidatedIsUncommitted(s: State) {
    forall t :: Midway(s, t) && s.completes[t].phase.Validated? ==> !CommittedId(s, s.completes[t].id)
  }

  ghost predicate CommitsOnce(s: State) {
    forall i, j :: 0 <= i < j < |s.commits| ==> s.commits[i].id != s.commits[j].id
  }

  ghost predicate Inv(s: State) {
    && L.Inv(s.locker)
    && SessionsAreCreated(s) && MidwayHolds(s) && CallsAgree(s)
    && CommittedGoes(s) && ValidatedIsUncommitted(s) && CommitsOnce(s)
  }

  /** Mutual exclusion by key makes the completion midway through an upload unique. */
  lemma OneMidway(s: State, t: L.CallId, u: L.CallId)
    requires L.Inv(s.locker) && MidwayHolds(s) && CallsAgree(s)
    requires Midway(s, t) && L.IsHolder(s.locker, u) && u in s.completes
    requires s.completes[u].k == s.completes[t].k
    ensures t == u
  {
    hide L.Composite, L.Inv;
    L.SameKeySameMutex(s.locker, t, u);
    L.HoldersOfOneMutex(s.locker, t, u);
  }

  // ----- Steps -----

  /** A locker step that is nobody's midway keeps the invariant. */
  lemma LockerStep(s: State, l: L.Action, s': State)
    requires Inv(s) && L.Enabled(s.locker, l)
    requires s' == s.(locker := L.Apply(s.locker, l), completes := s'.completes)
    requires forall t :: t != l.t ==>
               && (t in s'.completes <==> t in s.completes)
               && (t in s.completes ==> s'.completes[t] == s.completes[t])
    requires l.t in s'.completes && !l.Enter? ==> l.t in s.completes && s'.completes[l.t] == s.completes[l.t]
    requires l.t in s'.completes && l.Enter? ==> ObjectKey(l.bucket, l.key) == s'.completes[l.t].k
    requires !Midway(s, l.t) && !Midway(s', l.t)
    ensures Inv(s')
  {
    hide L.Inv, L.Apply, L.Enabled, CommittedId;
    L.StepKeepsInv(s.locker, l);
    L.OthersUntouched(s.locker, l);
    forall t ensures Midway(s', t) <==> Midway(s, t) {
    }
    SameCommits(s, s');
    forall id | CommittedId(s', id) && id in s'.sessions
      ensures exists t :: Midway(s', t) && s'.completes[t].phase.Committed? && s'.completes[t].id == id
    {
      var t :| Midway(s, t) && s.completes[t].phase.Committed? && s.completes[t].id == id;
      assert Midway(s', t);
    }
  }

  lemma SameCommits(s: State, s': State)
    requires s'.commits == s.commits
    ensures forall id :: CommittedId(s', id) <==> CommittedId(s, id)
  {
  }

  lemma ValidateStep(s: State, t: L.CallId)
    requires Inv(s) && Enabled(s, Validate(t))
    ensures Inv(Apply(s, Validate(t)))
  {
    hide L.Inv, CommittedId, Listed;
    var s' := Apply(s, Validate(t));
    var c := s.completes[t];
    SameCommits(s, s');
    assert forall u :: u != t ==> (Midway(s', u) <==> Midway(s, u));
    if Accepts(s, c.id, c.k, c.requested) {
      if CommittedId(s, c.id) {
        var u :| Midway(s, u) && s.completes[u].phase.Committed? && s.completes[u].id == c.id;
        OneMidway(s, u, t);
        assert false;
      }
    }
    forall id | CommittedId(s', id) && id in s'.sessions
      ensures exists u :: Midway(s', u) && s'.completes[u].phase.Committed? && s'.completes[u].id == id
    {
      var u :| Midway(s, u) && s.completes[u].phase.Committed? && s.completes[u].id == id;
      assert Midway(s', u);
    }
  }

  lemma CommitStep(s: State, t: L.CallId, ok: bool)
    requires Inv(s) && Enabled(s, WriteObject(t, ok))
    ensures Inv(Apply(s, WriteObject(t, ok)))
  {
    hide L.Inv, CommittedId;
    var s' := Apply(s, WriteObject(t, ok));
    var c := s.completes[t];
    assert Midway(s, t);
    assert forall u :: u != t ==> (Midway(s', u) <==> Midway(s, u));
    if ok {
      OneMoreCommit(s, s', c.id);
    } else {
      SameCommits(s, s');
    }
    forall u | Midway(s', u) && s'.completes[u].phase.Validated? ensures !CommittedId(s', s'.completes[u].id) {
      if ok && s.completes[u].id == c.id {
        OneMidway(s, t, u);
      }
    }
    forall id | CommittedId(s', id) && id in s'.sessions
      ensures exists u :: Midway(s', u) && s'.completes[u].phase.Committed? && s'.completes[u].id == id
    {
      if ok && id == c.id {
        assert Midway(s', t);
      } else {
        var u :| Midway(s, u) && s.completes[u].phase.Committed? && s.completes[u].id == id;
        assert Midway(s', u);
      }
    }
  }

  lemma OneMoreCommit(s: State, s': State, id: ByteString)
    requires |s'.commits| == |s.commits| + 1 && s'.commits[..|s.commits|] == s.commits
    requires s'.commits[|s.commits|].id == id
    requires !CommittedId(s, id) && CommitsOnce(s)
    ensures forall x :: CommittedId(s', x) <==> CommittedId(s, x) || x == id
    ensures CommitsOnce(s')
  {
    var n := |s.commits|;
    forall x ensures CommittedId(s', x) <==> CommittedId(s, x) || x == id {
      if CommittedId(s, x) {
        var i :| 0 <= i < n && s.commits[i].id == x;
        assert s'.commits[i] == s.commits[i];
      }
      if CommittedId(s', x) {
        var i :| 0 <= i <= n && s'.commits[i].id == x;
        assert i < n ==> s.commits[i] == s'.commits[i];
      }
    }
    forall i, j | 0 <= i < j <= n ensures s'.commits[i].id != s'.commits[j].id {
      assert s'.commits[i] == s.commits[i];
      assert j < n ==> s'.commits[j] == s.commits[j];
    }
  }

  lemma DeleteSessionStep(s: State, t: L.CallId)
    requires Inv(s) && Enabled(s, DeleteSession(t))
    ensures Inv(Apply(s, DeleteSession(t)))
  {
    hide L.Inv, CommittedId;
    var s' := Apply(s, DeleteSession(t));
    SameCommits(s, s');
    assert forall u :: u != t ==> (Midway(s', u) <==> Midway(s, u));
    forall id | CommittedId(s', id) && id in s'.sessions
      ensures exists u :: Midway(s', u) && s'.completes[u].phase.Committed? && s'.completes[u].id == id
    {
      var u :| Midway(s, u) && s.completes[u].phase.Committed? && s.completes[u].id == id;
      assert Midway(s', u);
    }
  }

  /** Steps on the session table by other requests. */
  lemma SessionStep(s: State, a: Action)
    requires Inv(s) && Enabled(s, a) && (a.Create? || a.StorePart? || a.Remove?)
    ensures Inv(Apply(s, a))
  {
    hide L.Inv, CommittedId;
    var s' := Apply(s, a);
    SameCommits(s, s');
    assert forall u :: Midway(s', u) <==> Midway(s, u);
    forall id | CommittedId(s', id) && id in s'.sessions
      ensures exists u :: Midway(s', u) && s'.completes[u].phase.Committed? && s'.completes[u].id == id
    {
      var u :| Midway(s, u) && s.completes[u].phase.Committed? && s.completes[u].id == id;
      assert Midway(s', u);
    }
  }

  lemma StepKeepsInv(s: State, a: Action)
    requires Inv(s) && Enabled(s, a)
    ensures Inv(Apply(s, a))
  {
    match a
    case Other(l) => NotMidway(s, a); LockerStep(s, l, Apply(s, a));
    case Start(t, _, k, _, m) => NotMidway(s, a); LockerStep(s, L.Enter(t, k.bucket, k.key, m), Apply(s, a));
    case Acquire(t) => NotMidway(s, a); LockerStep(s, L.Acquire(t), Apply(s, a));
    case Release(t) => NotMidway(s, a); LockerStep(s, L.Unlock(t), Apply(s, a));
    case Leave(t) => NotMidway(s, a); LockerStep(s, L.Leave(t), Apply(s, a));
    case Validate(t) => ValidateStep(s, t);
    case WriteObject(t, ok) => CommitStep(s, t, ok);
    case DeleteSession(t) => DeleteSessionStep(s, t);
    case _ => SessionStep(s, a);
  }

  /** The call a locker step belongs to is not midway. */
  lemma NotMidway(s: State, a: Action)
    requires Inv(s) && Enabled(s, a) && (a.Other? || a.Start? || a.Acquire? || a.Release? || a.Leave?)
    ensures var t := if a.Other? then a.a.t else a.t; !Midway(s, t) && !Midway(Apply(s, a), t)
  {
    hide L.Inv, L.Apply;
  }

  // ----- Runs -----

  ghost predicate IsRun(states: seq<State>, actions: seq<Action>) {
    && |states| == |actions| + 1
    && Initial(states[0])
    && forall i :: 0 <= i < |actions| ==>
         Enabled(states[i], actions[i]) && states[i + 1] == Apply(states[i], actions[i])
  }

  lemma InitialInv(s: State)
    requires Initial(s)
    ensures L.Inv(s.locker)
  {
    L.RunKeepsInv([s.locker], [], 0);
  }

  lemma {:induction false} RunKeepsInv(states: seq<State>, actions: seq<Action>, n: nat)
    requires IsRun(states, actions) && n < |states|
    ensures Inv(states[n])
    decreases n
  {
    if n == 0 {
      InitialInv(states[0]);
      hide L.Inv;
    } else {
      hide Inv, Enabled, Apply;
      RunKeepsInv(states, actions, n - 1);
      StepKeepsInv(states[n - 1], actions[n - 1]);
    }
  }

  /** `parts` is what completeParts picks from the upload's part map as it is in this one state. */
  ghost predicate PickedFrom(s: State, id: ByteString, k: ObjectKey, requested: seq<CompletedPart>,
                             parts: seq<MultipartPart>)
  {
    Accepts(s, id, k, requested) && parts == Listed(s.sessions[id].parts, requested, |requested|)
  }

  ghost predicate PickedBefore(states: seq<State>, n: nat, id: ByteString, k: ObjectKey, requested: seq<CompletedPart>,
                               parts: seq<MultipartPart>)
    requires n <= |states|
  {
    exists m :: 0 <= m < n && PickedFrom(states[m], id, k, requested, parts)
  }

  /** One step picks at most what it validates, and commits only what has been picked. */
  lemma PickStep(s: State, a: Action, t: L.CallId)
    requires Enabled(s, a) && t in Apply(s, a).completes && Apply(s, a).completes[t].phase.Validated?
    ensures var c := Apply(s, a).completes[t];
            || (t in s.completes && s.completes[t] == c)
            || PickedFrom(s, c.id, c.k, c.requested, c.phase.parts)
  {
    hide Listed, GoodUpTo;
  }

  lemma CommitComesFromPick(s: State, a: Action, i: nat)
    requires Enabled(s, a) && i < |Apply(s, a).commits|
    ensures var c := Apply(s, a).commits[i];
            || (i < |s.commits| && s.commits[i] == c)
            || (a.WriteObject? && a.t in s.completes
                && s.completes[a.t] == CompleteCall(c.id, c.k, c.requested, Validated(c.parts)))
  {
  }

  lemma {:induction false} ValidatedWasPicked(states: seq<State>, actions: seq<Action>, n: nat, t: L.CallId)
    requires IsRun(states, actions) && n < |states|
    requires t in states[n].completes && states[n].completes[t].phase.Validated?
    ensures var c := states[n].completes[t]; PickedBefore(states, n, c.id, c.k, c.requested, c.phase.parts)
    decreases n
  {
    hide PickedFrom;
    if n > 0 {
      hide Enabled, Apply;
      PickStep(states[n - 1], actions[n - 1], t);
      var c := states[n].completes[t];
      if !PickedFrom(states[n - 1], c.id, c.k, c.requested, c.phase.parts) {
        ValidatedWasPicked(states, actions, n - 1, t);
      }
    }
  }

  lemma {:induction false} CommitWasPicked(states: seq<State>, actions: seq<Action>, n: nat, i: nat)
    requires IsRun(states, actions) && n < |states| && i < |states[n].commits|
    ensures var c := states[n].commits[i]; PickedBefore(states, n, c.id, c.k, c.requested, c.parts)
    decreases n
  {
    hide PickedFrom;
    if n > 0 {
      hide Enabled, Apply;
      CommitComesFromPick(states[n - 1], actions[n - 1], i);
      if i < |states[n - 1].commits| && states[n - 1].commits[i] == states[n].commits[i] {
        CommitWasPicked(states, actions, n - 1, i);
      } else {
        ValidatedWasPicked(states, actions, n - 1, actions[n - 1].t);
      }
    }
  }

  /** The call has been told, or is about to be told, that it completed the upload. */
  predicate Succeeded(s: State, t: L.CallId) {
    t in s.completes && (s.completes[t].phase.Committed? || s.completes[t].phase == Finished(true))
  }

  ghost predicate HasCommit(s: State, t: L.CallId, id: ByteString) {
    exists i :: 0 <= i < |s.commits| && s.commits[i].t == t && s.commits[i].id == id
  }

  lemma SuccessStep(s: State, a: Action, t: L.CallId)
    requires Enabled(s, a) && Succeeded(Apply(s, a), t)
    requires Succeeded(s, t) ==> HasCommit(s, t, s.completes[t].id)
    ensures HasCommit(Apply(s, a), t, Apply(s, a).completes[t].id)
  {
    var s' := Apply(s, a);
    assert s.commits <= s'.commits;
    if Succeeded(s, t) {
      var i :| 0 <= i < |s.commits| && s.commits[i].t == t && s.commits[i].id == s.completes[t].id;
      assert s'.commits[i] == s.commits[i];
    } else {
      assert s'.commits[|s.commits|].t == t;
    }
  }

  lemma {:induction false} SuccessHasCommit(states: seq<State>, actions: seq<Action>, n: nat, t: L.CallId)
    requires IsRun(states, actions) && n < |states| && Succeeded(states[n], t)
    ensures HasCommit(states[n], t, states[n].completes[t].id)
    decreases n
  {
    hide HasCommit;
    if n > 0 {
      hide Enabled, Apply;
      if Succeeded(states[n - 1], t) {
        SuccessHasCommit(states, actions, n - 1, t);
      }
      SuccessStep(states[n - 1], actions[n - 1], t);
    }
  }

  /** In every interleaving of any number of requests: no upload id is committed twice, no two Complete calls for one
      upload succeed, and every committed object was picked from a part map that existed at a single instant. */
  lemma CompletionIsSafe(states: seq<State>, actions: seq<Action>, n: nat)
    requires IsRun(states, actions) && n < |states|
    ensures var s := states[n];
            && (forall i, j :: 0 <= i < j < |s.commits| ==> s.commits[i].id != s.commits[j].id)
            && (forall t, u :: Succeeded(s, t) && Succeeded(s, u) && s.completes[t].id == s.completes[u].id ==> t == u)
            && (forall i :: 0 <= i < |s.commits| ==>
                 var c := s.commits[i]; PickedBefore(states, n, c.id, c.k, c.requested, c.parts))
  {
    hide Enabled, Apply, L.Inv, PickedBefore;
    var s := states[n];
    RunKeepsInv(states, actions, n);
    forall i | 0 <= i < |s.commits|
      ensures var c := s.commits[i]; PickedBefore(states, n, c.id, c.k, c.requested, c.parts)
    {
      CommitWasPicked(states, actions, n, i);
    }
    forall t, u | Succeeded(s, t) && Succeeded(s, u) && s.completes[t].id == s.completes[u].id ensures t == u {
      SuccessHasCommit(states, actions, n, t);
      SuccessHasCommit(states, actions, n, u);
      var i :| 0 <= i < |s.commits| && s.commits[i].t == t && s.commits[i].id == s.completes[t].id;
      var j :| 0 <= j < |s.commits| && s.commits[j].t == u && s.commits[j].id == s.completes[u].id;
      assert i == j;
    }
  }

  // ----- What a committed part is -----

  /** Step `h` stored this part, and no step between it and `n` stored another under its number. */
  ghost predicate LastStoredAt(actions: seq<Action>, n: nat, h: nat, id: ByteString, number: int, part: MultipartPart) {
    && h < n <= |actions|
    && actions[h].StorePart? && actions[h].id == id && actions[h].n == number && actions[h].part == part
    && forall m :: h < m < n ==> !(actions[m].StorePart? && actions[m].id == id && actions[m].n == number)
  }

  ghost predicate LastStored(actions: seq<Action>, n: nat, id: ByteString, number: int, part: MultipartPart) {
    exists h :: LastStoredAt(actions, n, h, id, number, part)
  }

  /** A session's part is the one stored last under its number. */
  lemma {:induction false} PartWasStored(states: seq<State>, actions: seq<Action>, n: nat, id: ByteString, number: int)
    requires IsRun(states, actions) && n < |states|
    requires id in states[n].sessions && number in states[n].sessions[id].parts
    ensures LastStored(actions, n, id, number, states[n].sessions[id].parts[number])
    decreases n
  {
    hide L.Apply, L.Enabled, Accepts, Listed;
    if n == 0 {
      assert false;
    } else {
      var a, part := actions[n - 1], states[n].sessions[id].parts[number];
      if a.StorePart? && a.id == id && a.n == number {
        assert LastStoredAt(actions, n, n - 1, id, number, part);
      } else {
        PartWasStored(states, actions, n - 1, id, number);
        var h :| LastStoredAt(actions, n - 1, h, id, number, part);
        assert LastStoredAt(actions, n, h, id, number, part);
      }
    }
  }

  /** At step `v`, these were the parts stored last under the numbers of the request, in its order. */
  ghost predicate StoredAs(actions: seq<Action>, v: nat, id: ByteString, requested: seq<CompletedPart>,
                           parts: seq<MultipartPart>)
  {
    && |parts| == |requested|
    && forall j :: 0 <= j < |parts| ==> LastStored(actions, v, id, requested[j].partNumber, parts[j])
  }

  lemma PickedPartsWereStored(states: seq<State>, actions: seq<Action>, v: nat, id: ByteString, k: ObjectKey,
                              requested: seq<CompletedPart>, parts: seq<MultipartPart>)
    requires IsRun(states, actions) && v < |states| && PickedFrom(states[v], id, k, requested, parts)
    ensures StoredAs(actions, v, id, requested, parts)
  {
    hide IsRun, LastStored, InOrder;
    forall j | 0 <= j < |parts| ensures LastStored(actions, v, id, requested[j].partNumber, parts[j]) {
      assert PartMatches(states[v].sessions[id].parts, requested, j);
      PartWasStored(states, actions, v, id, requested[j].partNumber);
      assert parts[j] == states[v].sessions[id].parts[requested[j].partNumber];
    }
  }

  /** Every committed part list was, at one instant, what had been stored last under the numbers it lists. */
  lemma CommittedPartsWereStored(states: seq<State>, actions: seq<Action>, n: nat, i: nat)
    requires IsRun(states, actions) && n < |states| && i < |states[n].commits|
    ensures var c := states[n].commits[i];
            exists v :: 0 <= v < n && StoredAs(actions, v, c.id, c.requested, c.parts)
  {
    hide IsRun, PickedFrom, StoredAs;
    CommitWasPicked(states, actions, n, i);
    var c := states[n].commits[i];
    LongEnough(states, actions);
    var v :| 0 <= v < n && PickedFrom(states[v], c.id, c.k, c.requested, c.parts);
    PickedPartsWereStored(states, actions, v, c.id, c.k, c.requested, c.parts);
  }

  lemma LongEnough(states: seq<State>, actions: seq<Action>)
    requires IsRun(states, actions)
    ensures |states| == |actions| + 1
  {
  }

  // ----- When an abort is final -----

  /** Some completion of this upload has validated and not yet written. */
  ghost predicate ValidatedFor(s: State, id: ByteString) {
    exists t :: t in s.completes && s.completes[t].phase.Validated? && s.completes[t].id == id
  }

  /** An upload that is gone, with no completion left to write it. */
  ghost predicate Gone(s: State, id: ByteString) {
    id in s.created && id !in s.sessions && !ValidatedFor(s, id)
  }

  lemma GoneStaysGone(s: State, a: Action, id: ByteString)
    requires Gone(s, id) && Enabled(s, a)
    ensures Gone(Apply(s, a), id)
    ensures CommittedId(Apply(s, a), id) ==> CommittedId(s, id)
  {
    hide L.Apply, L.Enabled, Listed, GoodUpTo;
    var s' := Apply(s, a);
    forall t | t in s'.completes && s'.completes[t].phase.Validated? ensures s'.completes[t].id != id {
      assert t in s.completes && s.completes[t].phase.Validated? ==> s.completes[t].id != id;
    }
    if CommittedId(s', id) {
      var i :| 0 <= i < |s'.commits| && s'.commits[i].id == id;
      assert i < |s.commits| ==> s.commits[i] == s'.commits[i];
    }
  }

  /** An upload aborted (or evicted) while no completion of it has validated is never committed from then on. */
  lemma {:induction false} AbortIsFinal(states: seq<State>, actions: seq<Action>, id: ByteString, i: nat, n: nat)
    requires IsRun(states, actions) && i < n < |states|
    requires actions[i] == Remove(id) && !ValidatedFor(states[i], id)
    ensures Gone(states[n], id)
    ensures CommittedId(states[n], id) ==> CommittedId(states[i], id)
    decreases n
  {
    hide CommittedId, L.Inv;
    if n == i + 1 {
      RunKeepsInv(states, actions, i);
      JustRemoved(states[i], id);
    } else {
      hide Gone, Enabled, Apply;
      AbortIsFinal(states, actions, id, i, n - 1);
      GoneStaysGone(states[n - 1], actions[n - 1], id);
    }
  }

  lemma JustRemoved(s: State, id: ByteString)
    requires SessionsAreCreated(s) && Enabled(s, Remove(id)) && !ValidatedFor(s, id)
    ensures Gone(Apply(s, Remove(id)), id)
    ensures CommittedId(Apply(s, Remove(id)), id) ==> CommittedId(s, id)
  {
    var s' := Apply(s, Remove(id));
    assert ValidatedFor(s', id) ==> ValidatedFor(s, id);
    SameCommits(s, s');
  }

  /** The run goes on with an abort of `id`, and later commits it all the same. */
  ghost predicate CommitsAfterAbort(states: seq<State>, actions: seq<Action>, id: ByteString,
                                    states': seq<State>, actions': seq<Action>)
    requires |states| == |actions| + 1
  {
    && IsRun(states', actions')
    && |states| < |states'| && states'[..|states|] == states
    && actions'[..|actions|] == actions && actions'[|actions|] == Remove(id)
    && !CommittedId(states[|actions|], id) && CommittedId(states'[|states'| - 1], id)
  }

  /** A run whose last state has a validated completion goes on with the abort and then the commit. */
  lemma CommitAfterAbort(states: seq<State>, actions: seq<Action>, id: ByteString)
    returns (states': seq<State>, actions': seq<Action>)
    requires IsRun(states, actions) && id in states[|actions|].sessions && ValidatedFor(states[|actions|], id)
    ensures CommitsAfterAbort(states, actions, id, states', actions')
  {
    hide L.Inv, L.Apply, CommittedId;
    var n := |actions|;
    var s := states[n];
    var t :| t in s.completes && s.completes[t].phase.Validated? && s.completes[t].id == id;
    RunKeepsInv(states, actions, n);
    assert Midway(s, t);
    var aborted := Apply(s, Remove(id));
    var written := Apply(aborted, WriteObject(t, true));
    states', actions' := states + [aborted, written], actions + [Remove(id), WriteObject(t, true)];
    forall i | 0 <= i < n + 2
      ensures Enabled(states'[i], actions'[i]) && states'[i + 1] == Apply(states'[i], actions'[i])
    {
      assert i < n ==> states'[i] == states[i] && actions'[i] == actions[i] && states'[i + 1] == states[i + 1];
    }
    LastCommit(written, id);
  }

  lemma LastCommit(s: State, id: ByteString)
    requires s.commits != [] && s.commits[|s.commits| - 1].id == id
    ensures CommittedId(s, id)
  {
  }

  /** An abort is final iff no completion of the upload has validated and not yet written: at the end of any run, the
      upload can be aborted and committed afterwards exactly when one has. */
  lemma AbortIsFinalIff(states: seq<State>, actions: seq<Action>, id: ByteString)
    requires IsRun(states, actions) && id in states[|actions|].sessions
    ensures (exists states', actions' :: CommitsAfterAbort(states, actions, id, states', actions'))
       <==> ValidatedFor(states[|actions|], id)
  {
    hide CommittedId, ValidatedFor, Enabled, Apply;
    if ValidatedFor(states[|actions|], id) {
      var states', actions' := CommitAfterAbort(states, actions, id);
    }
    if states', actions' :| CommitsAfterAbort(states, actions, id, states', actions') {
      var n := |actions|;
      assert states'[n] == states'[..|states|][n] == states[n];
      if !ValidatedFor(states[n], id) {
        AbortIsFinal(states', actions', id, n, |states'| - 1);
      }
    }
  }

  /** The steps that bring an upload of one part to the point where its completion has validated. */
  function ToValidated(id: ByteString, session: Session, part: MultipartPart): seq<Action> {
    [Create(id, session), StorePart(id, session.Key(), 1, part),
     Start(0, id, session.Key(), [CompletedPart(1, part.etag)], 0), Acquire(0), Validate(0)]
  }

  /** With nobody else at the locker, a completion gets the lock in two steps. */
  lemma GetsTheLock(s: State, id: ByteString, k: ObjectKey, requested: seq<CompletedPart>)
    requires s.locker == L.INITIAL && s.completes == map[]
    ensures Enabled(s, Start(0, id, k, requested, 0))
    ensures var started := Apply(s, Start(0, id, k, requested, 0));
            && Enabled(started, Acquire(0))
            && var held := Apply(started, Acquire(0));
            && Enabled(held, Validate(0))
            && held.sessions == s.sessions && held.completes[0] == CompleteCall(id, k, requested, Entered)
  {
    hide L.Composite, Listed;
  }

  lemma OnePartIsAccepted(s: State, id: ByteString, part: MultipartPart)
    requires id in s.sessions && 1 in s.sessions[id].parts && s.sessions[id].parts[1] == part
    ensures Accepts(s, id, s.sessions[id].Key(), [CompletedPart(1, part.etag)])
  {
    var requested := [CompletedPart(1, part.etag)];
    assert InOrder(requested, 0) && PartMatches(s.sessions[id].parts, requested, 0);
  }

  /** Such a run exists for every upload, so the abort that is not final can happen. */
  lemma ValidatedIsReachable(id: ByteString, session: Session, part: MultipartPart) returns (states: seq<State>)
    requires session.parts == map[]
    ensures IsRun(states, ToValidated(id, session, part))
    ensures id in states[5].sessions && ValidatedFor(states[5], id)
  {
    hide L.Apply, L.Enabled, Accepts, Listed;
    var k := session.Key();
    var requested := [CompletedPart(1, part.etag)];
    var s0 := State(L.INITIAL, map[], map[], [], map[]);
    var s1 := Apply(s0, Create(id, session));
    var s2 := Apply(s1, StorePart(id, k, 1, part));
    GetsTheLock(s2, id, k, requested);
    var s3 := Apply(s2, Start(0, id, k, requested, 0));
    var s4 := Apply(s3, Acquire(0));
    OnePartIsAccepted(s4, id, part);
    var s5 := Apply(s4, Validate(0));
    states := [s0, s1, s2, s3, s4, s5];
    assert 0 in s5.completes && s5.completes[0].phase.Validated? && s5.completes[0].id == id;
  }
}
