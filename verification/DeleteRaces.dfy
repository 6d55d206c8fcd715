/** Who owns which message while requests overlap. Puts and completions hold the lock of their key, but DeleteObject and
    WebDAV's moves take none. A delete reads the chunk rows, deletes their messages one by one and then the rows; a put
    reads the rows it replaces, writes its own and then deletes the messages of the old ones; anything may come in
    between. Each of those is one step here and no lock is assumed, so the runs hold every interleaving of the locked
    sections. */
module DeleteRaces {
  import opened Tables

  type CallId = nat

  /** A put; or an upload together with the one completion of it that succeeds. Its messages are its own until it writes
      them, or the listed ones among them, as the rows of its key. `previous` are the messages it found there, of which
      it has tried to delete the first `cleaned`. */
  datatype Writer = Writer(k: ObjectKey, sent: set<int>, previous: seq<int>, wrote: bool, cleaned: nat)
  {
    predicate WillClean(m: int) {
      cleaned <= |previous| && m in previous[cleaned..]
    }

    predicate WillOverwrite(d: ObjectKey) {
      k == d && !wrote
    }
  }

  /** DeleteObject: the messages it has read, and how many of them it has asked Telegram to delete. */
  datatype Deleter = Deleter(k: ObjectKey, read: seq<int>, done: nat)
  {
    predicate WillDelete(m: int) {
      done <= |read| && m in read[done..]
    }
  }

  /** `rows` are the message numbers in an object's chunk rows, `documents` the messages that can be downloaded.
      `abandoned` remembers the deletes that gave up; it is not state of the program. */
  datatype State = State(
    rows: map<ObjectKey, seq<int>>,
    documents: set<int>,
    next: int,
    writers: map<CallId, Writer>,
    deleters: map<CallId, Deleter>,
    abandoned: seq<Deleter>)

  const INITIAL := State(map[], {}, 0, map[], map[], [])

  /** `gone` is whether a tolerated deletion took effect; a refused one makes the delete give up. A move takes the
      object at each target from the source `origin` names: one for WebDAV's move of an object, any number for that of a
      collection or the renaming of a bucket. */
  datatype Action =
    | StartWriter(t: CallId, k: ObjectKey)
    | Send(t: CallId)
    | ReadPrevious(t: CallId)
    | Write(t: CallId, picked: seq<int>)
    | Clean(t: CallId, gone: bool)
    | EndWriter(t: CallId)
    | StartDelete(t: CallId, k: ObjectKey)
    | DeleteMessage(t: CallId, gone: bool)
    | GiveUpDelete(t: CallId)
    | DeleteRows(t: CallId)
    | Move(origin: map<ObjectKey, ObjectKey>)

  predicate Distinct(messages: seq<int>) {
    forall i, j :: 0 <= i < j < |messages| ==> messages[i] != messages[j]
  }

  /** Every source exists and goes to one target, and no target is a source. */
  predicate IsMove(s: State, origin: map<ObjectKey, ObjectKey>) {
    && (forall d :: d in origin ==> origin[d] in s.rows && origin[d] !in origin)
    && (forall d, d' :: d in origin && d' in origin && origin[d] == origin[d'] ==> d == d')
  }

  predicate Enabled(s: State, a: Action) {
    match a
    case StartWriter(t, _) => t !in s.writers
    case Send(t) => t in s.writers && !s.writers[t].wrote
    case ReadPrevious(t) => t in s.writers && !s.writers[t].wrote
    case Write(t, picked) =>
      t in s.writers && !s.writers[t].wrote && Distinct(picked) && forall m :: m in picked ==> m in s.writers[t].sent
    case Clean(t, _) => t in s.writers && s.writers[t].wrote && s.writers[t].cleaned < |s.writers[t].previous|
    case EndWriter(t) => t in s.writers
    case StartDelete(t, k) => t !in s.deleters && k in s.rows
    case DeleteMessage(t, _) => t in s.deleters && s.deleters[t].done < |s.deleters[t].read|
    case GiveUpDelete(t) => t in s.deleters
    case DeleteRows(t) => t in s.deleters && s.deleters[t].done == |s.deleters[t].read|
    case Move(origin) => IsMove(s, origin)
  }

  function Without(documents: set<int>, m: int, gone: bool): set<int> {
    if gone then documents - {m} else documents
  }

  function Moved(s: State, origin: map<ObjectKey, ObjectKey>): map<ObjectKey, seq<int>>
    requires IsMove(s, origin)
  {
    (s.rows - origin.Values) + map d | d in origin :: s.rows[origin[d]]
  }

  function Apply(s: State, a: Action): State
    requires Enabled(s, a)
  {
    match a
    case StartWriter(t, k) => s.(writers := s.writers[t := Writer(k, {}, [], false, 0)])
    case Send(t) =>
      s.(documents := s.documents + {s.next}, next := s.next + 1,
         writers := s.writers[t := s.writers[t].(sent := s.writers[t].sent + {s.next})])
    case ReadPrevious(t) =>
      var k := s.writers[t].k;
      s.(writers := s.writers[t := s.writers[t].(previous := (if k in s.rows then s.rows[k] else []), cleaned := 0)])
    case Write(t, picked) =>
      s.(rows := s.rows[s.writers[t].k := picked], writers := s.writers[t := s.writers[t].(wrote := true)])
    case Clean(t, gone) =>
      var w := s.writers[t];
      s.(documents := Without(s.documents, w.previous[w.cleaned], gone),
         writers := s.writers[t := w.(cleaned := w.cleaned + 1)])
    case EndWriter(t) => s.(writers := s.writers - {t})
    case StartDelete(t, k) => s.(deleters := s.deleters[t := Deleter(k, s.rows[k], 0)])
    case DeleteMessage(t, gone) =>
      var d := s.deleters[t];
      s.(documents := Without(s.documents, d.read[d.done], gone), deleters := s.deleters[t := d.(done := d.done + 1)])
    case GiveUpDelete(t) => s.(abandoned := s.abandoned + [s.deleters[t]], deleters := s.deleters - {t})
    case DeleteRows(t) => s.(rows := s.rows - {s.deleters[t].k}, deleters := s.deleters - {t})
    case Move(origin) => s.(rows := Moved(s, origin))
  }

  // ----- The invariant -----

  /** Row `i` of object `k` names message `m`. */
  predicate Names(s: State, k: ObjectKey, i: int, m: int) {
    k in s.rows && 0 <= i < |s.rows[k]| && s.rows[k][i] == m
  }

  /** Some delete of `k` that has read `m` there is under way, or has given up. */
  ghost predicate BeingDeleted(s: State, k: ObjectKey, m: int) {
    || (exists t :: t in s.deleters && s.deleters[t].k == k && m in s.deleters[t].read)
    || (exists j :: 0 <= j < |s.abandoned| && s.abandoned[j].k == k && m in s.abandoned[j].read)
  }

  /** No message is in two rows, and a row's message is there unless a delete of its object has seen to it. */
  ghost predicate Owned(s: State) {
    && (forall k, i, k', i', m :: Names(s, k, i, m) && Names(s, k', i', m) ==> k == k' && i == i')
    && (forall k, i, m :: Names(s, k, i, m) ==> m in s.documents || BeingDeleted(s, k, m))
  }

  /** The messages somebody else may have seen: those in rows, and those read from rows. */
  ghost predicate Exposed(s: State, m: int) {
    || (exists k, i :: Names(s, k, i, m))
    || (exists t :: t in s.writers && m in s.writers[t].previous)
    || (exists t :: t in s.deleters && m in s.deleters[t].read)
  }

  /** What a writer has sent and not yet written is its own, unseen and undeleted. */
  ghost predicate SentArePrivate(s: State) {
    && (forall m :: Exposed(s, m) || m in s.documents ==> m < s.next)
    && (forall t, m :: t in s.writers && m in s.writers[t].sent ==> m < s.next)
    && (forall t, m :: t in s.writers && !s.writers[t].wrote && m in s.writers[t].sent ==>
         m in s.documents && !Exposed(s, m))
    && (forall t, u, m :: t in s.writers && u in s.writers && m in s.writers[t].sent && m in s.writers[u].sent ==>
         t == u)
  }

  /** What a delete or a cleanup is still to delete is in the rows of its own key or of none, unless a delete has seen
      to those rows; and a cleanup follows the overwriting of its key. */
  ghost predicate DeletionsAreHome(s: State) {
    && (forall t, k, i, m :: t in s.deleters && s.deleters[t].WillDelete(m) && Names(s, k, i, m) ==>
         k == s.deleters[t].k || BeingDeleted(s, k, m))
    && (forall t, k, i, m :: t in s.writers && s.writers[t].WillClean(m) && Names(s, k, i, m) ==>
         s.writers[t].WillOverwrite(k) || BeingDeleted(s, k, m))
  }

  ghost predicate Inv(s: State) {
    Owned(s) && SentArePrivate(s) && DeletionsAreHome(s)
  }

  // ----- Which moves are safe -----

  /** Whether a message would be in danger at key `d`: it is gone, or somebody will delete it other than a put that
      first overwrites `d` itself. */
  ghost predicate Endangered(s: State, d: ObjectKey, m: int) {
    || m !in s.documents
    || (exists t :: t in s.deleters && s.deleters[t].WillDelete(m))
    || (exists t :: t in s.writers && s.writers[t].WillClean(m) && !s.writers[t].WillOverwrite(d))
  }

  /** The move takes no message to a key where it is in danger and no delete has seen to it. */
  ghost predicate MoveIsSafe(s: State, origin: map<ObjectKey, ObjectKey>) {
    forall d, i, m :: d in origin && Names(s, origin[d], i, m) && Endangered(s, d, m) ==> BeingDeleted(s, d, m)
  }

  /** Any step but a move that is not safe. */
  ghost predicate Guarded(s: State, a: Action) {
    Enabled(s, a) && (a.Move? ==> MoveIsSafe(s, a.origin))
  }

  // ----- What one step changes -----

  /** Where the messages of a state's rows come from: a write's own, a move's source, or the same row. */
  lemma StepNames(s: State, a: Action)
    requires Enabled(s, a)
    ensures var s' := Apply(s, a);
            forall k, i, m :: Names(s', k, i, m) ==>
              if a.Write? && k == s.writers[a.t].k then 0 <= i < |a.picked| && a.picked[i] == m
              else if a.Move? && k in a.origin then Names(s, a.origin[k], i, m)
              else Names(s, k, i, m) && (a.Move? ==> k !in a.origin.Values)
  {
  }

  lemma RowsAreExposed(s: State, k: ObjectKey, m: int)
    ensures k in s.rows && m in s.rows[k] ==> Exposed(s, m) && exists i :: Names(s, k, i, m)
  {
    if k in s.rows && m in s.rows[k] {
      var i :| 0 <= i < |s.rows[k]| && s.rows[k][i] == m;
      assert Names(s, k, i, m);
    }
  }

  /** Only a write shows anybody a message that was private. */
  lemma StepExposes(s: State, a: Action, m: int)
    requires Enabled(s, a) && Exposed(Apply(s, a), m)
    ensures Exposed(s, m) || (a.Write? && m in a.picked)
  {
    hide Names, Moved, IsMove;
    StepNames(s, a);
    var s' := Apply(s, a);
    if k, i :| Names(s', k, i, m) {
      if a.Write? && k == s.writers[a.t].k {
        assert a.picked[i] == m;
      }
    }
    if a.ReadPrevious? && m in s'.writers[a.t].previous {
      RowsAreExposed(s, s.writers[a.t].k, m);
    }
    if a.StartDelete? && m in s'.deleters[a.t].read {
      RowsAreExposed(s, a.k, m);
    }
  }

  /** Only cleanups and deletions lose documents, and only the message whose turn it is. */
  lemma StepLoses(s: State, a: Action, m: int)
    requires Enabled(s, a) && m in s.documents && m !in Apply(s, a).documents
    ensures || (a.Clean? && m in s.writers[a.t].previous && s.writers[a.t].WillClean(m))
            || (a.DeleteMessage? && m in s.deleters[a.t].read && s.deleters[a.t].WillDelete(m))
    ensures Exposed(s, m)
  {
    hide Names, Moved, IsMove;
    if a.Clean? {
      var w := s.writers[a.t];
      assert w.previous[w.cleaned..][0] == m;
    } else {
      var d := s.deleters[a.t];
      assert d.read[d.done..][0] == m;
    }
  }

  /** A delete that has seen to a row stays, or is remembered, until the row is gone. */
  lemma BeingDeletedStays(s: State, a: Action, k: ObjectKey, m: int)
    requires Enabled(s, a) && BeingDeleted(s, k, m)
    ensures BeingDeleted(Apply(s, a), k, m) || (a.DeleteRows? && s.deleters[a.t].k == k)
  {
    hide Names, Moved, IsMove;
    var s' := Apply(s, a);
    if t :| t in s.deleters && s.deleters[t].k == k && m in s.deleters[t].read {
      if a.GiveUpDelete? && a.t == t {
        assert s'.abandoned[|s.abandoned|] == s.deleters[t];
      } else if !(a.DeleteRows? && a.t == t) {
        assert t in s'.deleters && s'.deleters[t].k == k && m in s'.deleters[t].read;
      }
    } else {
      var j :| 0 <= j < |s.abandoned| && s.abandoned[j].k == k && m in s.abandoned[j].read;
      assert s'.abandoned[j] == s.abandoned[j];
    }
  }

  lemma RowStillSeenTo(s: State, a: Action, k: ObjectKey, i: int, m: int)
    requires Enabled(s, a) && BeingDeleted(s, k, m) && Names(Apply(s, a), k, i, m)
    ensures BeingDeleted(Apply(s, a), k, m)
  {
    hide BeingDeleted, Moved, IsMove;
    BeingDeletedStays(s, a, k, m);
  }

  // ----- Every guarded step keeps the invariant -----

  lemma StepKeepsPrivate(s: State, a: Action)
    requires Inv(s) && Enabled(s, a)
    ensures SentArePrivate(Apply(s, a))
  {
    hide Exposed, Owned, DeletionsAreHome, Moved, IsMove;
    var s' := Apply(s, a);
    forall m | Exposed(s', m) ensures Exposed(s, m) || (a.Write? && m in a.picked) {
      StepExposes(s, a, m);
    }
    forall m | m in s.documents && m !in s'.documents ensures Exposed(s, m) {
      StepLoses(s, a, m);
    }
  }

  /** A write's messages are in nobody's reading list and in no row. */
  lemma PickedAreUnread(s: State, a: Action)
    requires SentArePrivate(s) && Enabled(s, a) && a.Write?
    ensures forall t, m :: t in s.writers && m in s.writers[t].previous ==> m !in a.picked
    ensures forall t, m :: t in s.deleters && m in s.deleters[t].read ==> m !in a.picked
    ensures forall k, i, m :: Names(s, k, i, m) ==> m !in a.picked
    ensures forall m :: m in a.picked ==> m in s.documents
    ensures forall i :: 0 <= i < |a.picked| ==> a.picked[i] in a.picked
  {
    hide Names;
    forall m | m in a.picked ensures m in s.documents && !Exposed(s, m) {
    }
    forall m ensures (exists k, i :: Names(s, k, i, m)) ==> Exposed(s, m) {
    }
  }

  /** Each row of the new state: its message is there or seen to, and whoever will still delete it is at home. */
  lemma RowStaysSafe(s: State, a: Action, k: ObjectKey, i: int, m: int)
    requires Inv(s) && Guarded(s, a) && Names(Apply(s, a), k, i, m)
    ensures m in Apply(s, a).documents || BeingDeleted(Apply(s, a), k, m)
  {
    hide Names, Exposed, BeingDeleted, Moved, IsMove;
    var s' := Apply(s, a);
    StepNames(s, a);
    if a.Write? && k == s.writers[a.t].k {
      PickedAreUnread(s, a);
    } else if a.Move? && k in a.origin {
      assert m !in s.documents ==> Endangered(s, k, m);
      if BeingDeleted(s, k, m) {
        RowStillSeenTo(s, a, k, i, m);
      }
    } else {
      assert Names(s, k, i, m);
      if BeingDeleted(s, k, m) {
        RowStillSeenTo(s, a, k, i, m);
      } else if m !in s'.documents {
        StepLoses(s, a, m);
        SeesTo(s', a.t, k, m);
      }
    }
  }

  lemma SeesTo(s: State, t: CallId, k: ObjectKey, m: int)
    requires t in s.deleters && s.deleters[t].k == k && m in s.deleters[t].read
    ensures BeingDeleted(s, k, m)
  {
  }

  lemma StepKeepsOwned(s: State, a: Action)
    requires Inv(s) && Guarded(s, a)
    ensures Owned(Apply(s, a))
  {
    hide Names, Exposed, BeingDeleted, Moved, MoveIsSafe;
    var s' := Apply(s, a);
    StepNames(s, a);
    if a.Write? {
      PickedAreUnread(s, a);
    }
    forall k, i, m | Names(s', k, i, m) ensures m in s'.documents || BeingDeleted(s', k, m) {
      RowStaysSafe(s, a, k, i, m);
    }
  }

  lemma DeleterStaysHome(s: State, a: Action, t: CallId, k: ObjectKey, i: int, m: int)
    requires Inv(s) && Guarded(s, a) && Names(Apply(s, a), k, i, m)
    requires var s' := Apply(s, a); t in s'.deleters && s'.deleters[t].WillDelete(m)
    ensures k == Apply(s, a).deleters[t].k || BeingDeleted(Apply(s, a), k, m)
  {
    hide Names, Exposed, BeingDeleted, Moved, IsMove;
    StepNames(s, a);
    if a.StartDelete? && t == a.t {
      RowsAreExposed(s, a.k, m);
    } else {
      assert s.deleters[t].WillDelete(m) && m in s.deleters[t].read && Endangered(s, k, m);
      if a.Write? {
        PickedAreUnread(s, a);
      }
      if BeingDeleted(s, k, m) {
        RowStillSeenTo(s, a, k, i, m);
      }
    }
  }

  lemma WriterStaysHome(s: State, a: Action, t: CallId, k: ObjectKey, i: int, m: int)
    requires Inv(s) && Guarded(s, a) && Names(Apply(s, a), k, i, m)
    requires var s' := Apply(s, a); t in s'.writers && s'.writers[t].WillClean(m)
    ensures Apply(s, a).writers[t].WillOverwrite(k) || BeingDeleted(Apply(s, a), k, m)
  {
    hide Names, Exposed, BeingDeleted, Moved, IsMove;
    StepNames(s, a);
    if a.ReadPrevious? && t == a.t {
      RowsAreExposed(s, s.writers[t].k, m);
    } else {
      assert s.writers[t].WillClean(m) && m in s.writers[t].previous;
      assert s.writers[t].WillOverwrite(k) || Endangered(s, k, m);
      if a.Write? {
        PickedAreUnread(s, a);
      }
      if BeingDeleted(s, k, m) {
        RowStillSeenTo(s, a, k, i, m);
      }
    }
  }

  lemma StepKeepsHome(s: State, a: Action)
    requires Inv(s) && Guarded(s, a)
    ensures DeletionsAreHome(Apply(s, a))
  {
    assert Enabled(s, a);
    hide Inv, Guarded, Enabled, Names, Apply, BeingDeleted;
    var s' := Apply(s, a);
    forall t, k, i, m | t in s'.deleters && s'.deleters[t].WillDelete(m) && Names(s', k, i, m)
      ensures k == s'.deleters[t].k || BeingDeleted(s', k, m)
    {
      DeleterStaysHome(s, a, t, k, i, m);
    }
    forall t, k, i, m | t in s'.writers && s'.writers[t].WillClean(m) && Names(s', k, i, m)
      ensures s'.writers[t].WillOverwrite(k) || BeingDeleted(s', k, m)
    {
      WriterStaysHome(s, a, t, k, i, m);
    }
  }

  lemma StepKeepsInv(s: State, a: Action)
    requires Inv(s) && Guarded(s, a)
    ensures Inv(Apply(s, a))
  {
    StepKeepsOwned(s, a);
    StepKeepsPrivate(s, a);
    StepKeepsHome(s, a);
  }

  // ----- Runs -----

  /** A run from `s` whose moves, if any, are all safe when they happen. */
  ghost predicate IsGuardedRun(s: State, states: seq<State>, actions: seq<Action>) {
    && |states| == |actions| + 1
    && states[0] == s
    && forall i :: 0 <= i < |actions| ==>
         Guarded(states[i], actions[i]) && states[i + 1] == Apply(states[i], actions[i])
  }

  lemma {:induction false} RunKeepsInv(s: State, states: seq<State>, actions: seq<Action>, n: nat)
    requires Inv(s) && IsGuardedRun(s, states, actions) && n < |states|
    ensures Inv(states[n])
    decreases n
  {
    if n > 0 {
      hide Inv, Apply, Guarded;
      RunKeepsInv(s, states, actions, n - 1);
      StepKeepsInv(states[n - 1], actions[n - 1]);
    }
  }

  /** A delete of `k` is under way or has given up. */
  ghost predicate HasDelete(s: State, k: ObjectKey) {
    || (exists t :: t in s.deleters && s.deleters[t].k == k)
    || (exists j :: 0 <= j < |s.abandoned| && s.abandoned[j].k == k)
  }

  /** In every interleaving of puts, completions, deletes and safe moves, no message is ever in two rows, and a row
      whose message is gone belongs to an object of which a delete is under way or has given up; without one, every row
      can be read. */
  lemma DeletesRaceSafely(states: seq<State>, actions: seq<Action>, n: nat)
    requires IsGuardedRun(INITIAL, states, actions) && n < |states|
    ensures Owned(states[n])
    ensures var s := states[n];
            forall k, i, m :: Names(s, k, i, m) && !HasDelete(s, k) ==> m in s.documents
  {
    RunKeepsInv(INITIAL, states, actions, n);
  }

  // ----- The exact condition for a move -----

  /** Some run from `s`, whose moves are all safe, ends where the messages are no longer owned. */
  ghost predicate CanDangle(s: State) {
    exists states, actions :: IsGuardedRun(s, states, actions) && !Owned(states[|actions|])
  }

  lemma AlreadyDangles(s: State)
    requires !Owned(s)
    ensures CanDangle(s)
  {
    assert IsGuardedRun(s, [s], []);
  }

  lemma DanglesAfter(s: State, a: Action)
    requires Guarded(s, a) && CanDangle(Apply(s, a))
    ensures CanDangle(s)
  {
    assert Enabled(s, a);
    hide Guarded, Enabled, Apply, Owned;
    var states, actions :| IsGuardedRun(Apply(s, a), states, actions) && !Owned(states[|actions|]);
    assert IsGuardedRun(s, [s] + states, [a] + actions);
  }

  /** A row whose message `t` will delete, when no delete of the row's own key has seen to it. */
  lemma {:induction false} DeleterTakes(s: State, t: CallId, k: ObjectKey, i: int, m: int)
    requires t in s.deleters && s.deleters[t].WillDelete(m)
    requires Names(s, k, i, m) && !BeingDeleted(s, k, m)
    ensures CanDangle(s)
    decreases |s.deleters[t].read| - s.deleters[t].done
  {
    var d := s.deleters[t];
    var gone := d.read[d.done] == m;
    var a := DeleteMessage(t, gone);
    var s' := Apply(s, a);
    assert Names(s', k, i, m) && !BeingDeleted(s', k, m);
    if gone {
      AlreadyDangles(s');
    } else {
      DeleterTakes(s', t, k, i, m);
    }
    DanglesAfter(s, a);
  }

  lemma {:induction false} CleanerTakes(s: State, t: CallId, k: ObjectKey, i: int, m: int)
    requires t in s.writers && s.writers[t].WillClean(m) && s.writers[t].wrote
    requires Names(s, k, i, m) && !BeingDeleted(s, k, m)
    ensures CanDangle(s)
    decreases |s.writers[t].previous| - s.writers[t].cleaned
  {
    var w := s.writers[t];
    var gone := w.previous[w.cleaned] == m;
    var a := Clean(t, gone);
    var s' := Apply(s, a);
    assert Names(s', k, i, m) && !BeingDeleted(s', k, m);
    if gone {
      AlreadyDangles(s');
    } else {
      CleanerTakes(s', t, k, i, m);
    }
    DanglesAfter(s, a);
  }

  /** A put that has yet to write another key's row writes it and then cleans up. */
  lemma WriterTakes(s: State, t: CallId, k: ObjectKey, i: int, m: int)
    requires t in s.writers && s.writers[t].WillClean(m) && !s.writers[t].WillOverwrite(k)
    requires Names(s, k, i, m) && !BeingDeleted(s, k, m)
    ensures CanDangle(s)
  {
    if s.writers[t].wrote {
      CleanerTakes(s, t, k, i, m);
    } else {
      var a := Write(t, []);
      var s' := Apply(s, a);
      assert Names(s', k, i, m) && !BeingDeleted(s', k, m);
      CleanerTakes(s', t, k, i, m);
      DanglesAfter(s, a);
    }
  }

  lemma UnsafeMoveDangles(s: State, origin: map<ObjectKey, ObjectKey>)
    requires IsMove(s, origin) && !MoveIsSafe(s, origin)
    ensures CanDangle(Apply(s, Move(origin)))
  {
    hide CanDangle;
    var d, i, m :| d in origin && Names(s, origin[d], i, m) && Endangered(s, d, m) && !BeingDeleted(s, d, m);
    var s' := Apply(s, Move(origin));
    assert Names(s', d, i, m) && !BeingDeleted(s', d, m);
    if m !in s.documents {
      AlreadyDangles(s');
    } else if t :| t in s.deleters && s.deleters[t].WillDelete(m) {
      DeleterTakes(s', t, d, i, m);
    } else {
      var t :| t in s.writers && s.writers[t].WillClean(m) && !s.writers[t].WillOverwrite(d);
      WriterTakes(s', t, d, i, m);
    }
  }

  /** At the end of any run whose moves were safe, one more move can be followed by such steps to a state where messages
      are not owned iff the move is not safe. */
  lemma MoveIsSafeIff(states: seq<State>, actions: seq<Action>, origin: map<ObjectKey, ObjectKey>)
    requires IsGuardedRun(INITIAL, states, actions) && IsMove(states[|actions|], origin)
    ensures var s := states[|actions|]; CanDangle(Apply(s, Move(origin))) <==> !MoveIsSafe(s, origin)
  {
    hide Inv, Owned, IsMove, MoveIsSafe;
    var s := states[|actions|];
    var moved := Apply(s, Move(origin));
    if MoveIsSafe(s, origin) {
      InitiallyInv();
      RunKeepsInv(INITIAL, states, actions, |actions|);
      StepKeepsInv(s, Move(origin));
      forall states', actions' | IsGuardedRun(moved, states', actions') ensures Owned(states'[|actions'|]) {
        RunKeepsInv(moved, states', actions', |actions'|);
        OwnedOfInv(states'[|actions'|]);
      }
    } else {
      UnsafeMoveDangles(s, origin);
    }
  }

  lemma InitiallyInv()
    ensures Inv(INITIAL)
  {
  }

  lemma OwnedOfInv(s: State)
    requires Inv(s)
    ensures Owned(s)
  {
  }

  // ----- Two moves that are not safe -----

  /** Some run whose first `n` steps are these, unsafe moves included, is then in `s`. */
  ghost predicate Reaches(actions: seq<Action>, n: nat, s: State) {
    exists states: seq<State> :: IsRunTo(actions, n, states) && states[n] == s
  }

  ghost predicate IsRunTo(actions: seq<Action>, n: nat, states: seq<State>) {
    && n <= |actions|
    && |states| == n + 1
    && states[0] == INITIAL
    && forall i :: 0 <= i < n ==> Enabled(states[i], actions[i]) && states[i + 1] == Apply(states[i], actions[i])
  }

  lemma NoSteps(actions: seq<Action>)
    ensures Reaches(actions, 0, INITIAL)
  {
    assert IsRunTo(actions, 0, [INITIAL]);
  }

  lemma OneMore(actions: seq<Action>, n: nat, s: State) returns (s': State)
    requires n < |actions| && Reaches(actions, n, s) && Enabled(s, actions[n])
    ensures s' == Apply(s, actions[n]) && Reaches(actions, n + 1, s')
  {
    hide Enabled, Apply;
    var states :| IsRunTo(actions, n, states) && states[n] == s;
    s' := Apply(s, actions[n]);
    assert IsRunTo(actions, n + 1, states + [s']);
  }

  /** After one put of one message. */
  function OneObject(k: ObjectKey): State {
    State(map[k := [0]], {0}, 1, map[], map[], [])
  }

  lemma PutOnce(k: ObjectKey, actions: seq<Action>)
    requires 4 <= |actions| && actions[..4] == [StartWriter(0, k), Send(0), Write(0, [0]), EndWriter(0)]
    ensures Reaches(actions, 4, OneObject(k))
  {
    hide Reaches;
    NoSteps(actions);
    assert actions[0] == actions[..4][0] && actions[1] == actions[..4][1];
    assert actions[2] == actions[..4][2] && actions[3] == actions[..4][3];
    var s := OneMore(actions, 0, INITIAL);
    s := OneMore(actions, 1, s);
    s := OneMore(actions, 2, s);
    s := OneMore(actions, 3, s);
    assert s == OneObject(k);
  }

  /** With no request under way and none given up, the object at `k` names message 0, which is gone. */
  ghost predicate HasLost(s: State, k: ObjectKey) {
    && s.writers == map[] && s.deleters == map[] && s.abandoned == []
    && Names(s, k, 0, 0) && 0 !in s.documents && !Owned(s)
  }

  /** A move between a delete's reading and its last step leaves the moved object naming a deleted message. */
  lemma MoveDuringDeleteDangles(k: ObjectKey, k': ObjectKey) returns (s: State)
    requires k != k'
    ensures HasLost(s, k')
    ensures Reaches([StartWriter(0, k), Send(0), Write(0, [0]), EndWriter(0), StartDelete(1, k), Move(map[k' := k]),
                     DeleteMessage(1, true), DeleteRows(1)], 8, s)
  {
    hide Reaches, HasLost;
    var actions := [StartWriter(0, k), Send(0), Write(0, [0]), EndWriter(0), StartDelete(1, k), Move(map[k' := k]),
                    DeleteMessage(1, true), DeleteRows(1)];
    PutOnce(k, actions);
    s := MoveInDelete(k, k', actions);
    s := EndOfDelete(k, k', actions, s);
  }

  /** So does a move between an overwriting put's reading of the rows it replaces and its cleanup, with no delete. */
  lemma MoveDuringPutDangles(k: ObjectKey, k': ObjectKey) returns (s: State)
    requires k != k'
    ensures HasLost(s, k')
    ensures Reaches([StartWriter(0, k), Send(0), Write(0, [0]), EndWriter(0), StartWriter(1, k), ReadPrevious(1),
                     Send(1), Move(map[k' := k]), Write(1, [1]), Clean(1, true), EndWriter(1)], 11, s)
  {
    hide Reaches, HasLost;
    var actions := [StartWriter(0, k), Send(0), Write(0, [0]), EndWriter(0), StartWriter(1, k), ReadPrevious(1),
                    Send(1), Move(map[k' := k]), Write(1, [1]), Clean(1, true), EndWriter(1)];
    PutOnce(k, actions);
    s := MoveInPut(k, k', actions);
    s := EndOfPut(k, k', actions, s);
  }

  lemma MovedRows(s: State, k: ObjectKey, k': ObjectKey)
    requires k != k' && s.rows == map[k := [0]]
    ensures IsMove(s, map[k' := k]) && Moved(s, map[k' := k]) == map[k' := [0]]
  {
    assert k in map[k' := k].Values by {
      assert map[k' := k][k'] == k;
    }
  }

  lemma MoveInDelete(k: ObjectKey, k': ObjectKey, actions: seq<Action>) returns (s: State)
    requires k != k' && 6 <= |actions| && Reaches(actions, 4, OneObject(k))
    requires actions[4] == StartDelete(1, k) && actions[5] == Move(map[k' := k])
    ensures s == OneObject(k').(deleters := map[1 := Deleter(k, [0], 0)]) && Reaches(actions, 6, s)
  {
    hide Reaches;
    s := OneMore(actions, 4, OneObject(k));
    MovedRows(s, k, k');
    s := OneMore(actions, 5, s);
  }

  lemma EndOfDelete(k: ObjectKey, k': ObjectKey, actions: seq<Action>, moved: State) returns (s: State)
    requires k != k' && |actions| == 8 && Reaches(actions, 6, moved)
    requires actions[6] == DeleteMessage(1, true) && actions[7] == DeleteRows(1)
    requires moved == OneObject(k').(deleters := map[1 := Deleter(k, [0], 0)])
    ensures HasLost(s, k') && Reaches(actions, 8, s)
  {
    hide Reaches;
    s := OneMore(actions, 6, moved);
    s := OneMore(actions, 7, s);
    assert Names(s, k', 0, 0);
  }

  lemma MoveInPut(k: ObjectKey, k': ObjectKey, actions: seq<Action>) returns (s: State)
    requires k != k' && 8 <= |actions| && Reaches(actions, 4, OneObject(k))
    requires actions[4..8] == [StartWriter(1, k), ReadPrevious(1), Send(1), Move(map[k' := k])]
    ensures s == State(map[k' := [0]], {0, 1}, 2, map[1 := Writer(k, {1}, [0], false, 0)], map[], [])
    ensures Reaches(actions, 8, s)
  {
    hide Reaches;
    assert actions[4] == actions[4..8][0] && actions[5] == actions[4..8][1];
    assert actions[6] == actions[4..8][2] && actions[7] == actions[4..8][3];
    s := OneMore(actions, 4, OneObject(k));
    s := OneMore(actions, 5, s);
    s := OneMore(actions, 6, s);
    assert s.documents == {0, 1} && s.writers[1].sent == {1};
    assert s.writers == map[1 := Writer(k, {1}, [0], false, 0)];
    MovedRows(s, k, k');
    s := OneMore(actions, 7, s);
  }

  lemma EndOfPut(k: ObjectKey, k': ObjectKey, actions: seq<Action>, moved: State) returns (s: State)
    requires k != k' && |actions| == 11 && Reaches(actions, 8, moved)
    requires actions[8..] == [Write(1, [1]), Clean(1, true), EndWriter(1)]
    requires moved == State(map[k' := [0]], {0, 1}, 2, map[1 := Writer(k, {1}, [0], false, 0)], map[], [])
    ensures HasLost(s, k') && Reaches(actions, 11, s)
  {
    hide Reaches;
    assert actions[8] == actions[8..][0] && actions[9] == actions[8..][1] && actions[10] == actions[8..][2];
    s := OneMore(actions, 8, moved);
    s := OneMore(actions, 9, s);
    s := OneMore(actions, 10, s);
    assert Names(s, k', 0, 0);
  }
}
