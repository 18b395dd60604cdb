/** The quicklook pointer swap, as steps of concurrent runs over one database and one store. */
module Quicklooks {
  import opened Wrappers

  type Id = nat
  type Run = nat

  /** Where an image is stored: under a name this script drew, or any other name. */
  datatype Key = Script(id: Id, serial: nat) | Other(name: string)

  /** How far a run is with the row it is on; each value but Idle and Done has one call
      in flight. */
  datatype Pc =
    | Idle
    | Putting(id: Id, key: Key)                                // storage.put
    | Stored(id: Id, key: Key)                                 // SELECT ... FOR NO KEY UPDATE
    | Locked(id: Id, key: Key, replaced: Option<Key>)          // UPDATE
    | Updated(id: Id, key: Key, replaced: Option<Key>)         // commit
    | Committed(id: Id, key: Key, old_: Key)                   // storage.delete of the replaced image
    | Failing(id: Id, key: Key, cancelled: bool)               // rollback
    | Checking(id: Id, key: Key, cancelled: bool)              // SELECT in the cleanup
    | Deleting(id: Id, key: Key, cancelled: bool)              // storage.delete of the own image
    | Done

  /** How a call ends. One that raises, is cancelled or dies with its process may have
      taken effect all the same. */
  datatype Outcome = Ok | Raised(effect: bool) | Cancelled(effect: bool) | Killed(effect: bool)

  predicate Took(o: Outcome) { o.Ok? || o.effect }

  /** `pointers` is the committed quicklook_256_uri of each dataset, `locks` the row locks,
      `used` the serials ever drawn. `leaked` remembers the script's images left behind. */
  datatype State = State(
    pointers: map<Id, Option<Key>>,
    storage: set<Key>,
    locks: map<Id, Run>,
    runs: map<Run, Pc>,
    used: set<nat>,
    ghost leaked: set<Key>)

  datatype Action =
    | Start(r: Run)
    | Choose(r: Run, id: Id, serial: nat)      // an image was drawn, and a key for it
    | Call(r: Run, o: Outcome)                 // the call in flight ends
    | Finish(r: Run)
    | DeleteDataset(id: Id, gone: set<Key>)    // the server deletes a row, and what images it likes of that row

  predicate Named(s: State, k: Key) {
    k.Script? && k.id in s.pointers && s.pointers[k.id] == Some(k)
  }

  function Release(locks: map<Id, Run>, r: Run): map<Id, Run> {
    map i | i in locks && locks[i] != r :: locks[i]
  }

  /** Where a call that did not return leaves the run: in the handler, or dead. */
  function Handler(o: Outcome, id: Id, key: Key): Pc {
    if o.Killed? then Done else Failing(id, key, o.Cancelled?)
  }

  /** After the cleanup: a cancelled run ends, any other goes on to the next row. */
  function Cleaned(cancelled: bool): Pc {
    if cancelled then Done else Idle
  }

  function Pointer(s: State, id: Id): Option<Key> {
    if id in s.pointers then s.pointers[id] else None
  }

  /** The images the ending call leaves behind for good, among those then in storage. */
  ghost function Leaves(s: State, pc: Pc, o: Outcome): set<Key> {
    match pc
    case Putting(_, key) => if o == Killed(true) then {key} else {}
    case Stored(_, key) => if o.Killed? then {key} else {}
    case Locked(_, key, _) => if o.Killed? then {key} else {}
    case Updated(_, key, replaced) =>
      if Took(o) && !o.Ok? && replaced.Some? then {replaced.value}
      else if o == Killed(false) then {key}
      else {}
    case Committed(_, _, old_) => if Took(o) then {} else {old_}
    case Failing(_, key, _) => if o.Ok? || Named(s, key) then {} else {key}
    case Checking(_, key, _) => if o.Ok? || Named(s, key) then {} else {key}
    case Deleting(_, key, _) => if Took(o) then {} else {key}
    case _ => {}
  }

  /** A wait for the row lock can be cut off at any time; only getting the lock needs it free. */
  predicate CallEnabled(s: State, r: Run, o: Outcome) {
    r in s.runs && !s.runs[r].Idle? && !s.runs[r].Done?
    && (s.runs[r].Stored? && Took(o) ==> s.runs[r].id !in s.locks)
  }

  /** The call in flight ends with outcome `o`. */
  function AfterCall(s: State, r: Run, o: Outcome): State
    requires CallEnabled(s, r, o)
  {
    var pc := s.runs[r];
    var locks := if o.Killed? then Release(s.locks, r) else s.locks;
    var s' :=
      match pc
      case Putting(id, key) =>
        s.(storage := if Took(o) then s.storage + {key} else s.storage,
           runs := s.runs[r := if o.Ok? then Stored(id, key) else Handler(o, id, key)])
      case Stored(id, key) =>
        s.(locks := if Took(o) && !o.Killed? && id in s.pointers then s.locks[id := r] else s.locks,
           runs := s.runs[r := if o.Ok? then Locked(id, key, Pointer(s, id)) else Handler(o, id, key)])
      case Locked(id, key, replaced) =>
        s.(locks := locks,
           runs := s.runs[r := if o.Ok? && id in s.pointers then Updated(id, key, replaced)
                               else if o.Ok? then Failing(id, key, false)
                               else Handler(o, id, key)])
      case Updated(id, key, replaced) =>
        s.(pointers := if Took(o) then s.pointers[id := Some(key)] else s.pointers,
           locks := if Took(o) then Release(s.locks, r) else locks,
           runs := s.runs[r := if !o.Ok? then Handler(o, id, key)
                               else if replaced.Some? && replaced.value != key then Committed(id, key, replaced.value)
                               else Idle])
      case Committed(id, key, old_) =>
        s.(storage := if Took(o) then s.storage - {old_} else s.storage,
           runs := s.runs[r := if o.Cancelled? || o.Killed? then Handler(o, id, key) else Idle])
      case Failing(id, key, cancelled) =>
        s.(locks := Release(s.locks, r),
           runs := s.runs[r := if o.Ok? then Checking(id, key, cancelled) else Done])
      case Checking(id, key, cancelled) =>
        s.(runs := s.runs[r := if o.Cancelled? || o.Killed? then Done
                               else if o.Ok? && Pointer(s, id) != Some(key) then Deleting(id, key, cancelled)
                               else Cleaned(cancelled)])
      case Deleting(id, key, cancelled) =>
        s.(storage := if Took(o) then s.storage - {key} else s.storage,
           runs := s.runs[r := if o.Cancelled? || o.Killed? then Done else Cleaned(cancelled)])
      case _ => s;
    s'.(leaked := (s.leaked + (set k | k in Leaves(s, pc, o) && k.Script? :: k)) * s'.storage)
  }

  predicate Enabled(s: State, a: Action) {
    match a
    case Start(r) => r !in s.runs
    case Choose(r, id, serial) => r in s.runs && s.runs[r].Idle? && serial !in s.used
    case Call(r, o) => CallEnabled(s, r, o)
    case Finish(r) => r in s.runs && s.runs[r].Idle?
    case DeleteDataset(id, gone) =>
      id in s.pointers && id !in s.locks && forall k :: k in gone && k.Script? ==> k.id == id
  }

  function Apply(s: State, a: Action): State
    requires Enabled(s, a)
  {
    match a
    case Start(r) => s.(runs := s.runs[r := Idle])
    case Choose(r, id, serial) =>
      s.(used := s.used + {serial}, runs := s.runs[r := Putting(id, Script(id, serial))])
    case Call(r, o) => AfterCall(s, r, o)
    case Finish(r) => s.(runs := s.runs[r := Done])
    case DeleteDataset(id, gone) =>
      s.(pointers := s.pointers - {id}, storage := s.storage - gone, leaked := s.leaked - gone)
  }

  // ---- the invariant -------------------------------------------------------------------

  predicate HasKey(pc: Pc) { !pc.Idle? && !pc.Done? }

  /** The key was drawn and its commit has not been called or has not taken effect. */
  predicate BeforeCommit(pc: Pc) {
    pc.Putting? || pc.Stored? || pc.Locked? || pc.Updated?
  }

  predicate Drawn(s: State, k: Key) {
    k.Script? ==> k.serial in s.used
  }

  /** What one run knows. Its own key is under its dataset; before the commit nothing
      names it; the row lock keeps the pointer it read; a replaced image is never named again. */
  ghost predicate RunOk(s: State, r: Run, pc: Pc) {
    && (HasKey(pc) ==> pc.key.Script? && pc.key.id == pc.id && pc.key.serial in s.used)
    && NotNamed(s, pc) && Written(s, pc) && LockKeeps(s, r, pc)
    && (pc.Committed? ==> Drawn(s, pc.old_))
    && (pc.Committed? && pc.old_.Script? ==> pc.old_.id == pc.id)
  }

  predicate NotNamed(s: State, pc: Pc) {
    && (BeforeCommit(pc) || pc.Deleting? ==> !Named(s, pc.key))
    && (pc.Committed? ==> !Named(s, pc.old_))
  }

  predicate Written(s: State, pc: Pc) {
    && (pc.Putting? ==> pc.key !in s.storage)
    && (BeforeCommit(pc) && !pc.Putting? && pc.id in s.pointers ==> pc.key in s.storage)
  }

  predicate LockKeeps(s: State, r: Run, pc: Pc) {
    pc.Locked? || pc.Updated? ==>
      if pc.id in s.pointers then pc.id in s.locks && s.locks[pc.id] == r && pc.replaced == s.pointers[pc.id]
      else pc.Locked? && pc.replaced == None
  }

  /** Keys are drawn once: no other run works on a key before its commit, nor has it as the
      image it replaces, nor was it left behind. */
  ghost predicate Apart(s: State, r: Run, r': Run) {
    r in s.runs && r' in s.runs && r != r' && BeforeCommit(s.runs[r]) ==>
      && (HasKey(s.runs[r']) ==> s.runs[r'].key != s.runs[r].key)
      && (s.runs[r'].Committed? ==> s.runs[r'].old_ != s.runs[r].key)
  }

  /** The script's image `k` is still in the hands of a run. */
  ghost predicate Held(s: State, k: Key) {
    exists r :: r in s.runs && Holds(s.runs[r], k)
  }

  predicate Holds(pc: Pc, k: Key) {
    if pc.Committed? then pc.old_ == k else HasKey(pc) && pc.key == k
  }

  /** A committed pointer to a script-written key names an object in storage. */
  ghost predicate PointersLive(s: State) {
    forall id :: id in s.pointers && s.pointers[id].Some? && s.pointers[id].value.Script? ==>
      s.pointers[id].value in s.storage && s.pointers[id].value.id == id && s.pointers[id].value.serial in s.used
  }

  predicate LockOk(s: State, id: Id)
    requires id in s.locks
  {
    && id in s.pointers && s.locks[id] in s.runs
    && var pc := s.runs[s.locks[id]];
       (pc.Locked? || pc.Updated? || pc.Failing?) && pc.id == id
  }

  ghost predicate Known(s: State) {
    && (forall k :: k in s.storage ==> Drawn(s, k))
    && (forall k :: k in s.leaked ==> k.Script? && k in s.storage && !Named(s, k))
    && (forall k, r :: k in s.leaked && r in s.runs && BeforeCommit(s.runs[r]) ==> s.runs[r].key != k)
    && (forall id :: id in s.locks ==> LockOk(s, id))
  }

  /** Every image of a surviving dataset is named, held, or left behind. */
  ghost predicate Accounted(s: State) {
    forall k :: k in s.storage && k.Script? && k.id in s.pointers ==>
      Named(s, k) || Held(s, k) || k in s.leaked
  }

  ghost predicate Inv(s: State) {
    && PointersLive(s) && Known(s) && Accounted(s)
    && (forall r :: r in s.runs ==> RunOk(s, r, s.runs[r]))
    && (forall r, r' :: Apart(s, r, r'))
  }

  ghost predicate Init(s: State) {
    s.runs == map[] && s.locks == map[] && PointersLive(s) && Known(s) && Accounted(s)
  }

  lemma CallPointers(s: State, r: Run, o: Outcome)
    requires Inv(s) && CallEnabled(s, r, o)
    ensures PointersLive(AfterCall(s, r, o))
  {
    assert RunOk(s, r, s.runs[r]);
  }

  lemma CallDrawn(s: State, r: Run, o: Outcome, k: Key)
    requires Inv(s) && CallEnabled(s, r, o) && k in AfterCall(s, r, o).storage
    ensures Drawn(AfterCall(s, r, o), k)
  {
    assert RunOk(s, r, s.runs[r]);
  }

  lemma CallLeaked(s: State, r: Run, o: Outcome, k: Key)
    requires Inv(s) && CallEnabled(s, r, o) && k in AfterCall(s, r, o).leaked
    ensures k.Script? && k in AfterCall(s, r, o).storage && !Named(AfterCall(s, r, o), k)
  {
    assert RunOk(s, r, s.runs[r]);
  }

  /** What a call leaves behind was in the run's hands, or named. */
  lemma LeavesOwn(s: State, r: Run, o: Outcome, k: Key)
    requires Inv(s) && CallEnabled(s, r, o) && k in Leaves(s, s.runs[r], o) && k.Script?
    ensures Holds(s.runs[r], k) || Named(s, k)
  {
    assert RunOk(s, r, s.runs[r]);
  }

  /** A run that is still before its commit has left nothing behind. */
  lemma StillBefore(s: State, r: Run, o: Outcome)
    requires CallEnabled(s, r, o) && BeforeCommit(AfterCall(s, r, o).runs[r])
    ensures BeforeCommit(s.runs[r]) && AfterCall(s, r, o).runs[r].key == s.runs[r].key && Leaves(s, s.runs[r], o) == {}
  {
  }

  lemma OthersStay(s: State, r: Run, o: Outcome, q: Run)
    requires CallEnabled(s, r, o) && q in s.runs && q != r
    ensures q in AfterCall(s, r, o).runs && AfterCall(s, r, o).runs[q] == s.runs[q]
  {
  }

  lemma LeakedBefore(s: State, r: Run, o: Outcome, k: Key)
    requires CallEnabled(s, r, o) && k in AfterCall(s, r, o).leaked
    ensures k in s.leaked || (k in Leaves(s, s.runs[r], o) && k.Script?)
  {
  }

  lemma CallLeakedApart(s: State, r: Run, o: Outcome, k: Key, q: Run)
    requires Inv(s) && CallEnabled(s, r, o)
    requires k in AfterCall(s, r, o).leaked && q in s.runs && BeforeCommit(AfterCall(s, r, o).runs[q])
    ensures AfterCall(s, r, o).runs[q].key != k
  {
    LeakedBefore(s, r, o, k);
    if q == r {
      StillBefore(s, r, o);
    } else {
      OthersStay(s, r, o, q);
      if k !in s.leaked {
        LeavesOwn(s, r, o, k);
        assert RunOk(s, q, s.runs[q]);
        assert Apart(s, q, r);
      }
    }
  }

  lemma LocksStay(s: State, r: Run, o: Outcome, id: Id)
    requires Inv(s) && CallEnabled(s, r, o) && id in s.locks && s.locks[id] != r
    ensures id in AfterCall(s, r, o).locks && AfterCall(s, r, o).locks[id] == s.locks[id]
    ensures id in AfterCall(s, r, o).pointers
  {
    assert LockOk(s, id);
  }

  lemma OwnLock(s: State, r: Run, o: Outcome, id: Id)
    requires Inv(s) && CallEnabled(s, r, o) && id in AfterCall(s, r, o).locks && (id in s.locks ==> s.locks[id] == r)
    ensures LockOk(AfterCall(s, r, o), id)
  {
    assert RunOk(s, r, s.runs[r]);
    assert id in s.locks ==> LockOk(s, id);
  }

  lemma CallLocks(s: State, r: Run, o: Outcome, id: Id)
    requires Inv(s) && CallEnabled(s, r, o) && id in AfterCall(s, r, o).locks
    ensures LockOk(AfterCall(s, r, o), id)
  {
    if id in s.locks && s.locks[id] != r {
      assert LockOk(s, id) && RunOk(s, s.locks[id], s.runs[s.locks[id]]);
      OthersStay(s, r, o, s.locks[id]);
      LocksStay(s, r, o, id);
    } else {
      OwnLock(s, r, o, id);
    }
  }

  lemma {:induction false} CallKnown(s: State, r: Run, o: Outcome)
    requires Inv(s) && CallEnabled(s, r, o)
    ensures Known(AfterCall(s, r, o))
  {
    var s' := AfterCall(s, r, o);
    forall k | k in s'.storage ensures Drawn(s', k) { CallDrawn(s, r, o, k); }
    forall k | k in s'.leaked ensures k.Script? && k in s'.storage && !Named(s', k) { CallLeaked(s, r, o, k); }
    forall k, q | k in s'.leaked && q in s'.runs && BeforeCommit(s'.runs[q]) ensures s'.runs[q].key != k {
      CallLeakedApart(s, r, o, k, q);
    }
    forall id | id in s'.locks ensures LockOk(s', id) { CallLocks(s, r, o, id); }
  }

  /** What run `r` held, it still holds, or left behind, or it is named or gone. */
  lemma CallHolder(s: State, r: Run, o: Outcome, k: Key)
    requires Inv(s) && CallEnabled(s, r, o) && k.Script? && k in AfterCall(s, r, o).storage
    requires Holds(s.runs[r], k) || (Named(s, k) && !Named(AfterCall(s, r, o), k))
    ensures var s' := AfterCall(s, r, o);
            Named(s', k) || Holds(s'.runs[r], k) || k in s'.leaked
  {
    assert RunOk(s, r, s.runs[r]);
  }

  lemma CallAccounted(s: State, r: Run, o: Outcome)
    requires Inv(s) && CallEnabled(s, r, o)
    ensures Accounted(AfterCall(s, r, o))
  {
    var s' := AfterCall(s, r, o);
    forall k | k in s'.storage && k.Script? && k.id in s'.pointers
      ensures Named(s', k) || Held(s', k) || k in s'.leaked
    {
      if Holds(s.runs[r], k) || (Named(s, k) && !Named(s', k)) {
        CallHolder(s, r, o, k);
        assert r in s'.runs;
      } else if k !in s.storage {
        CallAdds(s, r, o, k);
      } else if Held(s, k) {
        var q :| q in s.runs && Holds(s.runs[q], k);
        assert q in s'.runs && s'.runs[q] == s.runs[q];
      } else {
        CallPointerIds(s, r, o, k.id);
      }
    }
  }

  lemma CallAdds(s: State, r: Run, o: Outcome, k: Key)
    requires CallEnabled(s, r, o) && k in AfterCall(s, r, o).storage && k !in s.storage
    ensures Holds(s.runs[r], k)
  {
  }

  lemma CallPointerIds(s: State, r: Run, o: Outcome, id: Id)
    requires Inv(s) && CallEnabled(s, r, o) && id in AfterCall(s, r, o).pointers
    ensures id in s.pointers
  {
    assert RunOk(s, r, s.runs[r]);
  }

  lemma {:induction false} CallRun(s: State, r: Run, o: Outcome)
    requires Inv(s) && CallEnabled(s, r, o)
    ensures RunOk(AfterCall(s, r, o), r, AfterCall(s, r, o).runs[r])
  {
    assert RunOk(s, r, s.runs[r]);
  }

  lemma CallOthersNotNamed(s: State, r: Run, o: Outcome, r': Run)
    requires Inv(s) && CallEnabled(s, r, o) && r' in s.runs && r' != r
    ensures NotNamed(AfterCall(s, r, o), s.runs[r'])
  {
    if s.runs[r].Updated? {
      assert RunOk(s, r, s.runs[r]) && RunOk(s, r', s.runs[r']);
      assert Apart(s, r, r');
    }
  }

  lemma CallOthersWritten(s: State, r: Run, o: Outcome, r': Run)
    requires Inv(s) && CallEnabled(s, r, o) && r' in s.runs && r' != r
    ensures Written(AfterCall(s, r, o), s.runs[r'])
  {
    assert RunOk(s, r, s.runs[r]) && RunOk(s, r', s.runs[r']);
    assert Apart(s, r', r);
    if HasKey(s.runs[r']) && s.runs[r'].id in AfterCall(s, r, o).pointers {
      CallPointerIds(s, r, o, s.runs[r'].id);
    }
  }

  lemma CallOthersLocks(s: State, r: Run, o: Outcome, r': Run)
    requires Inv(s) && CallEnabled(s, r, o) && r' in s.runs && r' != r
    ensures LockKeeps(AfterCall(s, r, o), r', s.runs[r'])
  {
    assert RunOk(s, r, s.runs[r]) && RunOk(s, r', s.runs[r']);
  }

  lemma CallOthers(s: State, r: Run, o: Outcome, r': Run)
    requires Inv(s) && CallEnabled(s, r, o) && r' in s.runs && r' != r
    ensures RunOk(AfterCall(s, r, o), r', s.runs[r'])
  {
    CallOthersNotNamed(s, r, o, r');
    CallOthersWritten(s, r, o, r');
    CallOthersLocks(s, r, o, r');
    assert RunOk(s, r', s.runs[r']);
  }

  lemma CallApartFrom(s: State, r: Run, o: Outcome, q: Run)
    requires Inv(s) && CallEnabled(s, r, o)
    ensures Apart(AfterCall(s, r, o), r, q)
  {
    if q in s.runs && q != r && BeforeCommit(AfterCall(s, r, o).runs[r]) {
      StillBefore(s, r, o);
      OthersStay(s, r, o, q);
      assert Apart(s, r, q);
    }
  }

  /** The image in a run's hands is the one it had, or the one its pointer named. */
  lemma KeepsItsKey(s: State, r: Run, o: Outcome)
    requires Inv(s) && CallEnabled(s, r, o)
    ensures var pc := AfterCall(s, r, o).runs[r];
            && (HasKey(pc) ==> pc.key == s.runs[r].key)
            && (pc.Committed? ==> Named(s, pc.old_) || pc.old_.Other?)
  {
    assert RunOk(s, r, s.runs[r]);
  }

  lemma CallApartTo(s: State, r: Run, o: Outcome, p: Run)
    requires Inv(s) && CallEnabled(s, r, o) && p != r
    ensures Apart(AfterCall(s, r, o), p, r)
  {
    if p in s.runs {
      OthersStay(s, r, o, p);
      KeepsItsKey(s, r, o);
      assert Apart(s, p, r) && RunOk(s, p, s.runs[p]);
    }
  }

  lemma CallApart(s: State, r: Run, o: Outcome, p: Run, q: Run)
    requires Inv(s) && CallEnabled(s, r, o)
    ensures Apart(AfterCall(s, r, o), p, q)
  {
    if p == r {
      CallApartFrom(s, r, o, q);
    } else if q == r {
      CallApartTo(s, r, o, p);
    } else if p in s.runs && q in s.runs {
      OthersStay(s, r, o, p);
      OthersStay(s, r, o, q);
      assert Apart(s, p, q);
    }
  }

  lemma CallKeeps(s: State, r: Run, o: Outcome)
    requires Inv(s) && CallEnabled(s, r, o)
    ensures Inv(AfterCall(s, r, o))
  {
    var s' := AfterCall(s, r, o);
    CallPointers(s, r, o);
    CallKnown(s, r, o);
    CallAccounted(s, r, o);
    forall q | q in s'.runs ensures RunOk(s', q, s'.runs[q]) {
      if q == r {
        CallRun(s, r, o);
      } else {
        CallOthers(s, r, o, q);
      }
    }
    forall p, q ensures Apart(s', p, q) { CallApart(s, r, o, p, q); }
  }

  lemma ChooseAccounted(s: State, r: Run, id: Id, serial: nat)
    requires Inv(s) && Enabled(s, Choose(r, id, serial))
    ensures Accounted(Apply(s, Choose(r, id, serial)))
  {
    var s' := Apply(s, Choose(r, id, serial));
    forall k | k in s'.storage && k.Script? && k.id in s'.pointers
      ensures Named(s', k) || Held(s', k) || k in s'.leaked
    {
      if Held(s, k) {
        var q :| q in s.runs && Holds(s.runs[q], k);
        assert q in s'.runs && s'.runs[q] == s.runs[q];
      }
    }
  }

  lemma ChooseApart(s: State, r: Run, id: Id, serial: nat, p: Run, q: Run)
    requires Inv(s) && Enabled(s, Choose(r, id, serial))
    ensures Apart(Apply(s, Choose(r, id, serial)), p, q)
  {
    assert Apart(s, p, q);
    assert p in s.runs ==> RunOk(s, p, s.runs[p]);
    assert q in s.runs ==> RunOk(s, q, s.runs[q]);
  }

  lemma ChooseKeeps(s: State, r: Run, id: Id, serial: nat)
    requires Inv(s) && Enabled(s, Choose(r, id, serial))
    ensures Inv(Apply(s, Choose(r, id, serial)))
  {
    var s' := Apply(s, Choose(r, id, serial));
    ChooseAccounted(s, r, id, serial);
    forall q | q in s'.runs ensures RunOk(s', q, s'.runs[q]) {
      assert q != r ==> RunOk(s, q, s.runs[q]);
    }
    forall p, q ensures Apart(s', p, q) { ChooseApart(s, r, id, serial, p, q); }
  }

  lemma DeleteKeeps(s: State, id: Id, gone: set<Key>)
    requires Inv(s) && Enabled(s, DeleteDataset(id, gone))
    ensures Inv(Apply(s, DeleteDataset(id, gone)))
  {
    var s' := Apply(s, DeleteDataset(id, gone));
    forall k | k in s'.storage && k.Script? && k.id in s'.pointers
      ensures Named(s', k) || Held(s', k) || k in s'.leaked
    {
      if Held(s, k) {
        var q :| q in s.runs && Holds(s.runs[q], k);
        assert q in s'.runs && s'.runs[q] == s.runs[q];
      }
    }
    forall q | q in s'.runs ensures RunOk(s', q, s'.runs[q]) {
      assert RunOk(s, q, s.runs[q]);
    }
    forall p, q ensures Apart(s', p, q) { assert Apart(s, p, q); }
  }

  /** Starting and finishing a run touch nothing but the run, which holds no image. */
  lemma IdleAccounted(s: State, a: Action)
    requires Inv(s) && Enabled(s, a) && (a.Start? || a.Finish?)
    ensures Accounted(Apply(s, a))
  {
    var s' := Apply(s, a);
    forall k | k in s'.storage && k.Script? && k.id in s'.pointers
      ensures Named(s', k) || Held(s', k) || k in s'.leaked
    {
      if Held(s, k) {
        var q :| q in s.runs && Holds(s.runs[q], k);
        assert q in s'.runs && s'.runs[q] == s.runs[q];
      }
    }
  }

  lemma IdleApart(s: State, a: Action, p: Run, q: Run)
    requires Inv(s) && Enabled(s, a) && (a.Start? || a.Finish?)
    ensures Apart(Apply(s, a), p, q)
  {
    assert Apart(s, p, q);
  }

  lemma IdleRun(s: State, a: Action, q: Run)
    requires Inv(s) && Enabled(s, a) && (a.Start? || a.Finish?) && q in Apply(s, a).runs
    ensures RunOk(Apply(s, a), q, Apply(s, a).runs[q])
  {
    assert q in s.runs ==> RunOk(s, q, s.runs[q]);
  }

  lemma StartOrFinishKeeps(s: State, a: Action)
    requires Inv(s) && Enabled(s, a) && (a.Start? || a.Finish?)
    ensures Inv(Apply(s, a))
  {
    var s' := Apply(s, a);
    IdleAccounted(s, a);
    forall q | q in s'.runs ensures RunOk(s', q, s'.runs[q]) { IdleRun(s, a, q); }
    forall p, q ensures Apart(s', p, q) { IdleApart(s, a, p, q); }
  }

  lemma StepKeeps(s: State, a: Action)
    requires Inv(s) && Enabled(s, a)
    ensures Inv(Apply(s, a))
  {
    match a
    case Choose(r, id, serial) => ChooseKeeps(s, r, id, serial);
    case Call(r, o) => CallKeeps(s, r, o);
    case DeleteDataset(id, gone) => DeleteKeeps(s, id, gone);
    case _ => StartOrFinishKeeps(s, a);
  }

  // ---- every history ---------------------------------------------------------------------

  /** `a` can happen one action after another from `s`. */
  ghost predicate Possible(s: State, a: seq<Action>)
    decreases |a|
  {
    a == [] || (Enabled(s, a[0]) && Possible(Apply(s, a[0]), a[1..]))
  }

  ghost function After(s: State, a: seq<Action>): State
    requires Possible(s, a)
    decreases |a|
  {
    if a == [] then s else After(Apply(s, a[0]), a[1..])
  }

  lemma {:induction false} HistoryKeeps(s: State, a: seq<Action>)
    requires Inv(s) && Possible(s, a)
    ensures Inv(After(s, a))
    decreases |a|
  {
    if a != [] {
      StepKeeps(s, a[0]);
      HistoryKeeps(Apply(s, a[0]), a[1..]);
    }
  }

  /** Whatever the runs, deletions, failures, cancellations and deaths do, a committed
      pointer to a script-written key names an object in storage. */
  lemma PointersNameObjects(s: State, a: seq<Action>)
    requires Init(s) && Possible(s, a)
    ensures PointersLive(After(s, a))
  {
    HistoryKeeps(s, a);
  }

  /** No call of a run, cleanup included, removes an image that is live before or after it. */
  lemma CallsSpareLiveImages(s: State, r: Run, o: Outcome, k: Key)
    requires Inv(s) && CallEnabled(s, r, o)
    requires k.Script? && k in s.storage && k !in AfterCall(s, r, o).storage
    ensures !Named(s, k) && !Named(AfterCall(s, r, o), k)
  {
    assert RunOk(s, r, s.runs[r]);
  }

  // ---- conservation of storage -------------------------------------------------------------

  ghost predicate Quiet(s: State) {
    forall r :: r in s.runs ==> !HasKey(s.runs[r])
  }

  /** The script-written images of surviving datasets are those the pointers name. */
  ghost predicate Conserved(s: State) {
    forall k: Key :: k.Script? && k.id in s.pointers ==> (k in s.storage <==> Named(s, k))
  }

  /** When all runs have finished, storage is conserved exactly if no image of a surviving
      dataset was left behind. */
  lemma ConservedUnlessLeft(s: State, a: seq<Action>)
    requires Init(s) && Possible(s, a) && Quiet(After(s, a))
    ensures var s' := After(s, a);
            Conserved(s') <==> forall k :: k in s'.leaked && k.Script? ==> k.id !in s'.pointers
  {
    HistoryKeeps(s, a);
    var s' := After(s, a);
    assert forall k :: !Held(s', k);
    assert forall k :: Named(s', k) ==> k in s'.storage;
  }

  /** The call in flight is a `put` of `k`, and it takes effect. */
  predicate Puts(s: State, a: Action, k: Key) {
    a.Call? && a.r in s.runs && s.runs[a.r].Putting? && s.runs[a.r].key == k && Took(a.o)
  }

  /** The call in flight is a `delete` of `k`, and it takes effect. */
  predicate Removes(s: State, a: Action, k: Key) {
    a.Call? && a.r in s.runs && Took(a.o)
    && var pc := s.runs[a.r]; (pc.Committed? && pc.old_ == k) || (pc.Deleting? && pc.key == k)
  }

  /** The call ends so that the run gives `k` up without removing it. */
  ghost predicate Loses(s: State, a: Action, k: Key) {
    a.Call? && a.r in s.runs && k in Leaves(s, s.runs[a.r], a.o)
  }

  ghost predicate EverPut(s: State, a: seq<Action>, k: Key)
    requires Possible(s, a)
    decreases |a|
  {
    a != [] && (Puts(s, a[0], k) || EverPut(Apply(s, a[0]), a[1..], k))
  }

  ghost predicate EverRemoved(s: State, a: seq<Action>, k: Key)
    requires Possible(s, a)
    decreases |a|
  {
    a != [] && (Removes(s, a[0], k) || EverRemoved(Apply(s, a[0]), a[1..], k))
  }

  ghost predicate EverLost(s: State, a: seq<Action>, k: Key)
    requires Possible(s, a)
    decreases |a|
  {
    a != [] && (Loses(s, a[0], k) || EverLost(Apply(s, a[0]), a[1..], k))
  }

  /** Nobody has a `put` of `k` in flight, and nobody will draw it again. */
  ghost predicate Past(s: State, k: Key) {
    k.Script? && k.serial in s.used && forall r :: r in s.runs && s.runs[r].Putting? ==> s.runs[r].key != k
  }

  lemma PastStays(s: State, a: Action, k: Key)
    requires Enabled(s, a) && Past(s, k)
    ensures Past(Apply(s, a), k) && !Puts(s, a, k)
  {
  }

  lemma {:induction false} NeverPutAgain(s: State, a: seq<Action>, k: Key)
    requires Possible(s, a) && Past(s, k)
    ensures !EverPut(s, a, k)
    decreases |a|
  {
    if a != [] {
      PastStays(s, a[0], k);
      NeverPutAgain(Apply(s, a[0]), a[1..], k);
    }
  }

  lemma LostIsPast(s: State, a: Action, k: Key)
    requires Inv(s) && Enabled(s, a) && k.Script? && Loses(s, a, k)
    ensures Past(Apply(s, a), k)
  {
    var s' := Apply(s, a);
    LeavesOwn(s, a.r, a.o, k);
    LeavesDrawn(s, a.r, a.o, k);
    forall q | q in s'.runs && s'.runs[q].Putting? ensures s'.runs[q].key != k {
      if q != a.r {
        OthersStay(s, a.r, a.o, q);
        assert Apart(s, q, a.r) && RunOk(s, q, s.runs[q]);
      }
    }
  }

  lemma LeavesDrawn(s: State, r: Run, o: Outcome, k: Key)
    requires Inv(s) && CallEnabled(s, r, o) && k in Leaves(s, s.runs[r], o) && k.Script?
    ensures k.serial in s.used
  {
    assert RunOk(s, r, s.runs[r]);
  }

  /** What one action does to an image of a dataset that survives it. */
  lemma StepImage(s: State, a: Action, k: Key)
    requires Inv(s) && Enabled(s, a) && k.Script? && k.id in Apply(s, a).pointers
    ensures k.id in s.pointers
    ensures k in Apply(s, a).storage <==> (k in s.storage || Puts(s, a, k)) && !Removes(s, a, k)
    ensures k in Apply(s, a).leaked <==> (k in s.leaked || Loses(s, a, k)) && k in Apply(s, a).storage
  {
    if a.Call? {
      CallPointerIds(s, a.r, a.o, k.id);
    }
  }

  lemma RemovedIsPast(s: State, a: Action, k: Key)
    requires Inv(s) && Enabled(s, a) && k.Script? && Removes(s, a, k)
    ensures Past(Apply(s, a), k)
  {
    var s' := Apply(s, a);
    assert RunOk(s, a.r, s.runs[a.r]);
    forall q | q in s'.runs && s'.runs[q].Putting? ensures s'.runs[q].key != k {
      OthersStay(s, a.r, a.o, q);
      assert Apart(s, q, a.r);
    }
  }

  /** An image of a surviving dataset is in storage exactly if it was or a `put` wrote it,
      and no `delete` removed it. */
  lemma {:induction false} StoredIff(s: State, a: seq<Action>, k: Key)
    requires Inv(s) && Possible(s, a) && k.Script? && k.id in After(s, a).pointers
    ensures k.id in s.pointers
    ensures k in After(s, a).storage <==> (k in s.storage || EverPut(s, a, k)) && !EverRemoved(s, a, k)
    decreases |a|
  {
    if a != [] {
      var next := Apply(s, a[0]);
      StepKeeps(s, a[0]);
      StoredIff(next, a[1..], k);
      StepImage(s, a[0], k);
      if Removes(s, a[0], k) {
        RemovedIsPast(s, a[0], k);
        NeverPutAgain(next, a[1..], k);
      }
    }
  }

  /** ... and it is left behind exactly if it is in storage and was, or some call lost it. */
  lemma {:induction false} LeftIff(s: State, a: seq<Action>, k: Key)
    requires Inv(s) && Possible(s, a) && k.Script? && k.id in After(s, a).pointers
    ensures k in After(s, a).leaked <==> (k in s.leaked || EverLost(s, a, k)) && k in After(s, a).storage
    decreases |a|
  {
    if a != [] {
      var next := Apply(s, a[0]);
      StepKeeps(s, a[0]);
      LeftIff(next, a[1..], k);
      StoredIff(next, a[1..], k);
      StepImage(s, a[0], k);
      if Loses(s, a[0], k) {
        LostIsPast(s, a[0], k);
        NeverPutAgain(next, a[1..], k);
      } else if Removes(s, a[0], k) {
        RemovedIsPast(s, a[0], k);
        NeverPutAgain(next, a[1..], k);
      }
    }
  }

  /** A script-written image that nothing names. */
  predicate Orphan(s: State, k: Key) {
    k.Script? && k.id in s.pointers && k in s.storage && !Named(s, k)
  }

  /** The history spoils `k`: it was an orphan, or was in storage and some call lost it, and
      no `delete` removes it. */
  ghost predicate Spoiled(s: State, a: seq<Action>, k: Key)
    requires Possible(s, a)
  {
    && (Orphan(s, k) || (EverLost(s, a, k) && (k in s.storage || EverPut(s, a, k))))
    && !EverRemoved(s, a, k)
  }

  /** When all runs have finished, storage is conserved exactly if the history spoils no
      image of a surviving dataset. */
  lemma ConservedIff(s: State, a: seq<Action>)
    requires Init(s) && Possible(s, a) && Quiet(After(s, a))
    ensures Conserved(After(s, a))
            <==> forall k: Key :: k.Script? && k.id in After(s, a).pointers ==> !Spoiled(s, a, k)
  {
    HistoryKeeps(s, a);
    var s' := After(s, a);
    ConservedUnlessLeft(s, a);
    forall k: Key | k.Script? && k.id in s'.pointers ensures k in s'.leaked <==> Spoiled(s, a, k) {
      StoredIff(s, a, k);
      LeftIff(s, a, k);
      assert k in s.leaked <==> Orphan(s, k) by { assert !Held(s, k); }
    }
  }

  /** The call leaves nothing behind: no process dies, no commit takes effect without
      returning, and the cleanup's calls, the removal of a replaced image included, succeed. */
  ghost predicate Clean(s: State, a: Action) {
    a.Call? && a.r in s.runs ==>
      match s.runs[a.r]
      case Updated(_, _, _) => !a.o.Killed? && (a.o.Ok? || !a.o.effect)
      case Committed(_, _, _) => Took(a.o)
      case Failing(_, _, _) => a.o.Ok?
      case Checking(_, _, _) => a.o.Ok?
      case Deleting(_, _, _) => Took(a.o)
      case _ => !a.o.Killed?
  }

  ghost predicate CleanHistory(s: State, a: seq<Action>)
    requires Possible(s, a)
    decreases |a|
  {
    a == [] || (Clean(s, a[0]) && CleanHistory(Apply(s, a[0]), a[1..]))
  }

  lemma {:induction false} CleanLosesNothing(s: State, a: seq<Action>, k: Key)
    requires Possible(s, a) && CleanHistory(s, a)
    ensures !EverLost(s, a, k)
    decreases |a|
  {
    if a != [] {
      CleanLosesNothing(Apply(s, a[0]), a[1..], k);
    }
  }

  /** Conservation, for every interleaving of clean calls from a store without orphans. */
  lemma CleanHistoriesConserve(s: State, a: seq<Action>)
    requires Init(s) && Possible(s, a) && CleanHistory(s, a) && Quiet(After(s, a))
    requires forall k :: !Orphan(s, k)
    ensures Conserved(After(s, a))
  {
    forall k: Key | k.Script? && k.id in After(s, a).pointers ensures !Spoiled(s, a, k) {
      CleanLosesNothing(s, a, k);
    }
    ConservedIff(s, a);
  }

  // ---- a cancelled run ends --------------------------------------------------------------------

  predicate CleansUpCancelled(pc: Pc) {
    pc.Done? || ((pc.Failing? || pc.Checking? || pc.Deleting?) && pc.cancelled)
  }

  /** A call that is cancelled is a run's last but for those of its cleanup: the run goes on to no
      other row. */
  lemma {:induction false} CancelledEnds(s: State, a: seq<Action>, r: Run)
    requires Possible(s, a) && r in s.runs && CleansUpCancelled(s.runs[r])
    ensures r in After(s, a).runs && CleansUpCancelled(After(s, a).runs[r])
    decreases |a|
  {
    if a != [] {
      CancelledEnds(Apply(s, a[0]), a[1..], r);
    }
  }

  /** A cancelled call, and only one that is cancelled or dies, starts such an end; a call that
      raises leaves the run to clean up and go on. */
  lemma CallEndsRun(s: State, r: Run, o: Outcome)
    requires CallEnabled(s, r, o) && (BeforeCommit(s.runs[r]) || s.runs[r].Committed?)
    ensures var next := AfterCall(s, r, o).runs[r];
            && (CleansUpCancelled(next) <==> o.Cancelled? || o.Killed?)
            && (o.Cancelled? ==> next == Failing(s.runs[r].id, s.runs[r].key, true))
            && (o.Raised? && BeforeCommit(s.runs[r]) ==> next == Failing(s.runs[r].id, s.runs[r].key, false))
            && (o.Raised? && s.runs[r].Committed? ==> next == Idle)
  {
  }

  // ---- a run whose calls succeed publishes its image -------------------------------------------

  /** Run `r` draws nothing more, and every call of its that ends in `a` ends well. */
  ghost predicate OkThroughout(a: seq<Action>, r: Run) {
    forall i :: 0 <= i < |a| ==> OkBy(a[i], r)
  }

  predicate OkBy(a: Action, r: Run) {
    (a.Call? && a.r == r ==> a.o.Ok?) && (a.Choose? ==> a.r != r)
  }

  /** From `s` to `next` the dataset comes to name `key`, which is stored, and the image it named
      before is not in the store `end`. */
  predicate Publishes(s: State, next: State, key: Key, end: set<Key>) {
    && key.Script? && key.id in s.pointers && next.pointers == s.pointers[key.id := Some(key)] && key in next.storage
    && (s.pointers[key.id].Some? && s.pointers[key.id].value != key ==> s.pointers[key.id].value !in end)
  }

  ghost predicate EverPublishes(s: State, a: seq<Action>, key: Key, end: set<Key>)
    requires Possible(s, a)
    decreases |a|
  {
    a != [] && (Publishes(s, Apply(s, a[0]), key, end) || EverPublishes(Apply(s, a[0]), a[1..], key, end))
  }

  /** Nobody will ever write `k`: it is no name of the script's, or it is past. */
  ghost predicate NeverWritten(s: State, k: Key) {
    k.Script? ==> Past(s, k)
  }

  lemma StaysOutStep(s: State, a: Action, k: Key)
    requires Inv(s) && Enabled(s, a) && NeverWritten(s, k) && k !in s.storage
    ensures NeverWritten(Apply(s, a), k) && k !in Apply(s, a).storage
  {
    if k.Script? {
      PastStays(s, a, k);
    }
    if a.Call? {
      assert RunOk(s, a.r, s.runs[a.r]);
    }
  }

  lemma {:induction false} StaysOut(s: State, a: seq<Action>, k: Key)
    requires Inv(s) && Possible(s, a) && NeverWritten(s, k) && k !in s.storage
    ensures k !in After(s, a).storage
    decreases |a|
  {
    if a != [] {
      StepKeeps(s, a[0]);
      StaysOutStep(s, a[0], k);
      StaysOut(Apply(s, a[0]), a[1..], k);
    }
  }

  /** A step of someone else leaves the run where it is. */
  lemma OthersStep(s: State, a: Action, r: Run)
    requires Enabled(s, a) && r in s.runs && OkBy(a, r) && !s.runs[r].Idle?
    requires !(a.Call? && a.r == r)
    ensures r in Apply(s, a).runs && Apply(s, a).runs[r] == s.runs[r]
  {
  }

  lemma StepKeepsIds(s: State, a: Action, id: Id)
    requires Inv(s) && Enabled(s, a) && id in Apply(s, a).pointers
    ensures id in s.pointers
  {
    if a.Call? {
      CallPointerIds(s, a.r, a.o, id);
    }
  }

  lemma {:induction false} HistoryKeepsIds(s: State, a: seq<Action>, id: Id)
    requires Inv(s) && Possible(s, a) && id in After(s, a).pointers
    ensures id in s.pointers
    decreases |a|
  {
    if a != [] {
      StepKeeps(s, a[0]);
      HistoryKeepsIds(Apply(s, a[0]), a[1..], id);
      StepKeepsIds(s, a[0], id);
    }
  }

  /** A run that has committed and whose delete succeeds leaves the replaced image out for good. */
  lemma {:induction false} CommittedRemoves(s: State, a: seq<Action>, r: Run)
    requires Inv(s) && Possible(s, a) && OkThroughout(a, r)
    requires r in s.runs && s.runs[r].Committed? && r in After(s, a).runs && After(s, a).runs[r].Idle?
    ensures s.runs[r].old_ !in After(s, a).storage
    decreases |a|
  {
    var k, next := s.runs[r].old_, Apply(s, a[0]);
    StepKeeps(s, a[0]);
    assert forall i :: 0 <= i < |a| - 1 ==> a[1..][i] == a[i + 1];
    if a[0].Call? && a[0].r == r {
      if k.Script? {
        RemovedIsPast(s, a[0], k);
      }
      StaysOut(next, a[1..], k);
    } else {
      OthersStep(s, a[0], r);
      CommittedRemoves(next, a[1..], r);
    }
  }

  /** What a successful call makes of a run before its commit, while its row is there. */
  lemma OkCall(s: State, r: Run)
    requires Inv(s) && r in s.runs && BeforeCommit(s.runs[r]) && CallEnabled(s, r, Ok)
    requires s.runs[r].id in s.pointers
    ensures var pc, next := s.runs[r], AfterCall(s, r, Ok);
            if pc.Updated?
            then && next.pointers == s.pointers[pc.id := Some(pc.key)] && pc.key in next.storage
                 && next.runs[r] == match s.pointers[pc.id]
                                    case None => Idle
                                    case Some(old_) => Committed(pc.id, pc.key, old_)
            else BeforeCommit(next.runs[r]) && next.runs[r].id == pc.id && next.runs[r].key == pc.key
  {
    assert RunOk(s, r, s.runs[r]);
  }

  /** Whatever the other runs do, a run whose calls succeed names its image, and the image it
      replaces is gone when it is through; or its row is gone, and so is its image. */
  lemma {:induction false} OkRunPublishes(s: State, a: seq<Action>, r: Run)
    requires Inv(s) && Possible(s, a) && OkThroughout(a, r)
    requires r in s.runs && BeforeCommit(s.runs[r]) && r in After(s, a).runs && After(s, a).runs[r].Idle?
    ensures || EverPublishes(s, a, s.runs[r].key, After(s, a).storage)
            || (s.runs[r].id !in After(s, a).pointers && s.runs[r].key !in After(s, a).storage)
    decreases |a|
  {
    var key, next, end := s.runs[r].key, Apply(s, a[0]), After(s, a).storage;
    StepKeeps(s, a[0]);
    assert RunOk(s, r, s.runs[r]);
    assert forall i :: 0 <= i < |a| - 1 ==> a[1..][i] == a[i + 1];
    if s.runs[r].id !in s.pointers {
      GoneRunCleansUp(s, a, r);
      if s.runs[r].id in After(s, a).pointers {
        HistoryKeepsIds(s, a, s.runs[r].id);
      }
    } else if a[0].Call? && a[0].r == r {
      OkCall(s, r);
      if s.runs[r].Updated? {
        if next.runs[r].Committed? {
          CommittedRemoves(next, a[1..], r);
        }
        assert Publishes(s, next, key, end);
      } else {
        OkRunPublishes(next, a[1..], r);
      }
    } else {
      OthersStep(s, a[0], r);
      OkRunPublishes(next, a[1..], r);
    }
  }

  predicate CleaningUp(pc: Pc) {
    pc.Failing? || pc.Checking? || pc.Deleting?
  }

  /** What a successful call makes of a run whose row is gone. */
  lemma GoneCall(s: State, r: Run)
    requires Inv(s) && r in s.runs && CallEnabled(s, r, Ok) && s.runs[r].id !in s.pointers
    requires BeforeCommit(s.runs[r]) || CleaningUp(s.runs[r])
    ensures var pc, next := s.runs[r], AfterCall(s, r, Ok).runs[r];
            if pc.Deleting? then Removes(s, Call(r, Ok), pc.key) && pc.key !in AfterCall(s, r, Ok).storage
            else (if pc.Putting? || pc.Stored? then BeforeCommit(next) else CleaningUp(next))
                 && next.id == pc.id && next.key == pc.key
  {
    assert RunOk(s, r, s.runs[r]);
  }

  /** A run whose row is gone takes its image away again. */
  lemma {:induction false} GoneRunCleansUp(s: State, a: seq<Action>, r: Run)
    requires Inv(s) && Possible(s, a) && OkThroughout(a, r) && r in s.runs
    requires BeforeCommit(s.runs[r]) || CleaningUp(s.runs[r])
    requires s.runs[r].id !in s.pointers && r in After(s, a).runs && After(s, a).runs[r].Idle?
    ensures s.runs[r].key !in After(s, a).storage
    decreases |a|
  {
    var key, next := s.runs[r].key, Apply(s, a[0]);
    StepKeeps(s, a[0]);
    assert RunOk(s, r, s.runs[r]);
    if s.runs[r].id in next.pointers {
      StepKeepsIds(s, a[0], s.runs[r].id);
    }
    assert forall i :: 0 <= i < |a| - 1 ==> a[1..][i] == a[i + 1];
    if a[0].Call? && a[0].r == r {
      GoneCall(s, r);
      if s.runs[r].Deleting? {
        RemovedIsPast(s, a[0], key);
        StaysOut(next, a[1..], key);
      } else {
        GoneRunCleansUp(next, a[1..], r);
      }
    } else {
      OthersStep(s, a[0], r);
      GoneRunCleansUp(next, a[1..], r);
    }
  }

  /** The calls of one row when nothing goes wrong; the last removes a replaced image. */
  function OneRow(r: Run, id: Id, serial: nat, replacing: bool): seq<Action> {
    [Choose(r, id, serial), Call(r, Ok), Call(r, Ok), Call(r, Ok), Call(r, Ok)]
    + if replacing then [Call(r, Ok)] else []
  }

  /** The row names the new image, the replaced one is gone, and nothing else has changed. */
  ghost predicate RowDone(s: State, end: State, r: Run, key: Key) {
    && key.Script? && key.id in s.pointers
    && end.pointers == s.pointers[key.id := Some(key)] && end.locks == s.locks
    && end.storage == s.storage + {key} - (if s.pointers[key.id].Some? then {s.pointers[key.id].value} else {})
    && end.runs == s.runs[r := Idle] && end.used == s.used + {key.serial}
  }

  /** `s` with run `r` somewhere in its row, after it has drawn a serial. */
  ghost function InRow(s: State, r: Run, pc: Pc, serial: nat, storage: set<Key>, locks: map<Id, Run>,
                       pointers: map<Id, Option<Key>>): State {
    State(pointers, storage, locks, s.runs[r := pc], s.used + {serial}, s.leaked)
  }

  lemma InRowStep(s: State, t: State, storage: set<Key>)
    requires t.leaked == s.leaked * storage && s.leaked <= storage
    ensures t.leaked == s.leaked
  {
  }

  lemma RowPuts(s: State, r: Run, id: Id, key: Key, serial: nat)
    requires s.leaked <= s.storage
    ensures AfterCall(InRow(s, r, Putting(id, key), serial, s.storage, s.locks, s.pointers), r, Ok)
         == InRow(s, r, Stored(id, key), serial, s.storage + {key}, s.locks, s.pointers)
  {
    var t := AfterCall(InRow(s, r, Putting(id, key), serial, s.storage, s.locks, s.pointers), r, Ok);
    assert t.runs == s.runs[r := Stored(id, key)];
    InRowStep(s, t, s.storage + {key});
  }

  lemma RowLocks(s: State, r: Run, id: Id, key: Key, serial: nat, storage: set<Key>)
    requires s.leaked <= storage && id in s.pointers && id !in s.locks
    ensures AfterCall(InRow(s, r, Stored(id, key), serial, storage, s.locks, s.pointers), r, Ok)
         == InRow(s, r, Locked(id, key, s.pointers[id]), serial, storage, s.locks[id := r], s.pointers)
  {
    var t := AfterCall(InRow(s, r, Stored(id, key), serial, storage, s.locks, s.pointers), r, Ok);
    assert t.runs == s.runs[r := Locked(id, key, s.pointers[id])];
    InRowStep(s, t, storage);
  }

  lemma RowUpdates(s: State, r: Run, id: Id, key: Key, serial: nat, storage: set<Key>, old_: Option<Key>)
    requires s.leaked <= storage && id in s.pointers
    ensures AfterCall(InRow(s, r, Locked(id, key, old_), serial, storage, s.locks[id := r], s.pointers), r, Ok)
         == InRow(s, r, Updated(id, key, old_), serial, storage, s.locks[id := r], s.pointers)
  {
    var t := AfterCall(InRow(s, r, Locked(id, key, old_), serial, storage, s.locks[id := r], s.pointers), r, Ok);
    assert t.runs == s.runs[r := Updated(id, key, old_)];
    InRowStep(s, t, storage);
  }

  lemma ReleaseOwn(locks: map<Id, Run>, r: Run, id: Id)
    requires id !in locks && forall i :: i in locks ==> locks[i] != r
    ensures Release(locks[id := r], r) == locks
  {
  }

  function AfterCommit(id: Id, key: Key, old_: Option<Key>): Pc {
    match old_
    case None => Idle
    case Some(k) => Committed(id, key, k)
  }

  lemma RowCommits(s: State, r: Run, id: Id, key: Key, serial: nat, storage: set<Key>, old_: Option<Key>)
    requires s.leaked <= storage && id in s.pointers && id !in s.locks && old_ != Some(key)
    requires forall i :: i in s.locks ==> s.locks[i] != r
    ensures AfterCall(InRow(s, r, Updated(id, key, old_), serial, storage, s.locks[id := r], s.pointers), r, Ok)
         == InRow(s, r, AfterCommit(id, key, old_), serial, storage, s.locks, s.pointers[id := Some(key)])
  {
    ReleaseOwn(s.locks, r, id);
    var t := AfterCall(InRow(s, r, Updated(id, key, old_), serial, storage, s.locks[id := r], s.pointers), r, Ok);
    assert t.runs == s.runs[r := AfterCommit(id, key, old_)];
    InRowStep(s, t, storage);
  }

  lemma RowRemoves(s: State, r: Run, id: Id, key: Key, serial: nat, storage: set<Key>, old_: Key,
                   pointers: map<Id, Option<Key>>)
    requires s.leaked <= storage && old_ !in s.leaked
    ensures AfterCall(InRow(s, r, Committed(id, key, old_), serial, storage, s.locks, pointers), r, Ok)
         == InRow(s, r, Idle, serial, storage - {old_}, s.locks, pointers)
  {
    var t := AfterCall(InRow(s, r, Committed(id, key, old_), serial, storage, s.locks, pointers), r, Ok);
    assert t.runs == s.runs[r := Idle];
    InRowStep(s, t, storage - {old_});
  }

  /** From a state to the next by the first action of a history. */
  lemma Follow(s: State, first: Action, rest: seq<Action>)
    requires Enabled(s, first) && Possible(Apply(s, first), rest)
    ensures Possible(s, [first] + rest) && After(s, [first] + rest) == After(Apply(s, first), rest)
  {
    assert ([first] + rest)[1..] == rest;
  }

  /** The end of a row: the commit, and the delete if an image was replaced. */
  lemma {:induction false} RowEnds(s: State, r: Run, id: Id, key: Key, serial: nat, storage: set<Key>,
                                   old_: Option<Key>)
    requires s.leaked <= storage && id in s.pointers && id !in s.locks && old_ != Some(key)
    requires forall i :: i in s.locks ==> s.locks[i] != r
    requires old_.Some? ==> old_.value !in s.leaked
    ensures var t := InRow(s, r, Updated(id, key, old_), serial, storage, s.locks[id := r], s.pointers);
            var a := [Call(r, Ok)] + if old_.Some? then [Call(r, Ok)] else [];
            Possible(t, a)
            && After(t, a) == InRow(s, r, Idle, serial, storage - (if old_.Some? then {old_.value} else {}), s.locks,
                                    s.pointers[id := Some(key)])
  {
    var t := InRow(s, r, Updated(id, key, old_), serial, storage, s.locks[id := r], s.pointers);
    RowCommits(s, r, id, key, serial, storage, old_);
    if old_.Some? {
      RowRemoves(s, r, id, key, serial, storage, old_.value, s.pointers[id := Some(key)]);
      Follow(Apply(t, Call(r, Ok)), Call(r, Ok), []);
      assert [Call(r, Ok)] + [] == [Call(r, Ok)];
    } else {
      assert storage - {} == storage;
    }
    Follow(t, Call(r, Ok), if old_.Some? then [Call(r, Ok)] else []);
  }

  lemma OldIsKept(s: State, id: Id, key: Key)
    requires Inv(s) && id in s.pointers && key.Script? && key.serial !in s.used
    ensures s.pointers[id] != Some(key) && (s.pointers[id].Some? ==> s.pointers[id].value !in s.leaked)
  {
    if s.pointers[id].Some? && s.pointers[id].value.Script? {
      assert Named(s, s.pointers[id].value);
    }
  }

  function FromLock(r: Run, replacing: bool): seq<Action> {
    [Call(r, Ok)] + ([Call(r, Ok)] + ([Call(r, Ok)] + if replacing then [Call(r, Ok)] else []))
  }

  /** From the request of the row lock on. */
  lemma {:induction false} RowGoesOn(s: State, r: Run, id: Id, key: Key, serial: nat, storage: set<Key>)
    requires s.leaked <= storage && id in s.pointers && id !in s.locks && s.pointers[id] != Some(key)
    requires forall i :: i in s.locks ==> s.locks[i] != r
    requires s.pointers[id].Some? ==> s.pointers[id].value !in s.leaked
    ensures var t := InRow(s, r, Stored(id, key), serial, storage, s.locks, s.pointers);
            var old_ := s.pointers[id];
            Possible(t, FromLock(r, old_.Some?))
            && After(t, FromLock(r, old_.Some?))
               == InRow(s, r, Idle, serial, storage - (if old_.Some? then {old_.value} else {}), s.locks,
                        s.pointers[id := Some(key)])
  {
    var old_ := s.pointers[id];
    var t := InRow(s, r, Stored(id, key), serial, storage, s.locks, s.pointers);
    var end := [Call(r, Ok)] + if old_.Some? then [Call(r, Ok)] else [];
    RowLocks(s, r, id, key, serial, storage);
    RowUpdates(s, r, id, key, serial, storage, old_);
    RowEnds(s, r, id, key, serial, storage, old_);
    Follow(Apply(t, Call(r, Ok)), Call(r, Ok), end);
    Follow(t, Call(r, Ok), [Call(r, Ok)] + end);
  }

  /** Alone with its row, a run ends with the row done. */
  lemma {:induction false} OneRowDone(s: State, r: Run, id: Id, serial: nat)
    requires Inv(s) && Enabled(s, Choose(r, id, serial)) && id in s.pointers && id !in s.locks
    ensures var a := OneRow(r, id, serial, s.pointers[id].Some?);
            Possible(s, a) && RowDone(s, After(s, a), r, Script(id, serial))
  {
    var key, rest := Script(id, serial), FromLock(r, s.pointers[id].Some?);
    forall i | i in s.locks ensures s.locks[i] != r { assert LockOk(s, i); }
    OldIsKept(s, id, key);
    RowPuts(s, r, id, key, serial);
    RowGoesOn(s, r, id, key, serial, s.storage + {key});
    var s1 := Apply(s, Choose(r, id, serial));
    assert s1 == InRow(s, r, Putting(id, key), serial, s.storage, s.locks, s.pointers);
    Follow(s1, Call(r, Ok), rest);
    Follow(s, Choose(r, id, serial), [Call(r, Ok)] + rest);
    assert OneRow(r, id, serial, s.pointers[id].Some?) == [Choose(r, id, serial)] + ([Call(r, Ok)] + rest);
  }

  /** One row of the batch, from the draw on, among any other runs and deletions. */
  lemma ChosenIsPublished(s: State, a: seq<Action>, r: Run, id: Id, serial: nat)
    requires Inv(s) && Enabled(s, Choose(r, id, serial))
    requires var next := Apply(s, Choose(r, id, serial));
             && Possible(next, a) && OkThroughout(a, r)
             && r in After(next, a).runs && After(next, a).runs[r].Idle?
    ensures var next := Apply(s, Choose(r, id, serial));
            var end, key := After(next, a), Script(id, serial);
            || EverPublishes(next, a, key, end.storage)
            || (id !in end.pointers && key !in end.storage)
  {
    StepKeeps(s, Choose(r, id, serial));
    OkRunPublishes(Apply(s, Choose(r, id, serial)), a, r);
  }

  /** No storage call and no call of the cleanup fails or is cut off. */
  ghost predicate StorageWorks(s: State, a: Action) {
    a.Call? && a.r in s.runs ==>
      var pc := s.runs[a.r];
      (pc.Putting? || pc.Committed? || pc.Failing? || pc.Checking? || pc.Deleting?) ==> a.o.Ok?
  }

  ghost predicate StorageWorksThroughout(s: State, a: seq<Action>)
    requires Possible(s, a)
    decreases |a|
  {
    a == [] || (StorageWorks(s, a[0]) && StorageWorksThroughout(Apply(s, a[0]), a[1..]))
  }

  const OLD := Script(0, 0)
  const NEW := Script(0, 1)

  /** One dataset, one run: the first image replaced by a second, the commit's answer lost. */
  function LostCommit(): seq<Action> {
    [Start(7), Choose(7, 0, 1), Call(7, Ok), Call(7, Ok), Call(7, Ok), Call(7, Raised(true)), Call(7, Ok), Call(7, Ok)]
  }

  function At(pointer: Key, storage: set<Key>, locks: map<Id, Run>, pc: Pc, leaked: set<Key>): State {
    State(map[0 := Some(pointer)], storage, locks, map[7 := pc], {0, 1}, leaked)
  }

  lemma LostCommitEnd()
    ensures var s := At(OLD, {OLD, NEW}, map[0 := 7], Updated(0, NEW, Some(OLD)), {});
            && Possible(s, LostCommit()[5..]) && StorageWorksThroughout(s, LostCommit()[5..])
            && After(s, LostCommit()[5..]) == At(NEW, {OLD, NEW}, map[], Idle, {OLD})
  {
    var a := LostCommit();
    var s5 := At(OLD, {OLD, NEW}, map[0 := 7], Updated(0, NEW, Some(OLD)), {});
    var s6 := At(NEW, {OLD, NEW}, map[], Failing(0, NEW, false), {OLD});
    var s7 := At(NEW, {OLD, NEW}, map[], Checking(0, NEW, false), {OLD});
    var s8 := At(NEW, {OLD, NEW}, map[], Idle, {OLD});
    assert Apply(s5, a[5]) == s6;
    assert Apply(s6, a[6]) == s7;
    assert Apply(s7, a[7]) == s8;
    LastSteps(s8, a, 8);
    PossibleStep(s7, a, 7, s8);
    PossibleStep(s6, a, 6, s7);
    PossibleStep(s5, a, 5, s6);
  }

  lemma {:induction false} LostCommitMiddle()
    ensures var s := At(OLD, {OLD}, map[], Putting(0, NEW), {});
            && Possible(s, LostCommit()[2..]) && StorageWorksThroughout(s, LostCommit()[2..])
            && After(s, LostCommit()[2..]) == At(NEW, {OLD, NEW}, map[], Idle, {OLD})
  {
    var a := LostCommit();
    var s2 := At(OLD, {OLD}, map[], Putting(0, NEW), {});
    var s3 := At(OLD, {OLD, NEW}, map[], Stored(0, NEW), {});
    var s4 := At(OLD, {OLD, NEW}, map[0 := 7], Locked(0, NEW, Some(OLD)), {});
    var s5 := At(OLD, {OLD, NEW}, map[0 := 7], Updated(0, NEW, Some(OLD)), {});
    assert Apply(s2, a[2]) == s3;
    assert Apply(s3, a[3]) == s4;
    assert Apply(s4, a[4]) == s5;
    LostCommitEnd();
    PossibleStep(s4, a, 4, s5);
    PossibleStep(s3, a, 3, s4);
    PossibleStep(s2, a, 2, s3);
  }

  /** Before the run has drawn its image. */
  function Fresh(runs: map<Run, Pc>): State {
    State(map[0 := Some(OLD)], {OLD}, map[], runs, {0}, {})
  }

  lemma {:induction false} LostCommitStart()
    ensures var s := Fresh(map[7 := Idle]);
            && Possible(s, LostCommit()[1..]) && StorageWorksThroughout(s, LostCommit()[1..])
            && After(s, LostCommit()[1..]) == At(NEW, {OLD, NEW}, map[], Idle, {OLD})
  {
    var a, s1, s2 := LostCommit(), Fresh(map[7 := Idle]), At(OLD, {OLD}, map[], Putting(0, NEW), {});
    assert Apply(s1, a[1]) == s2;
    LostCommitMiddle();
    PossibleStep(s1, a, 1, s2);
  }

  lemma {:induction false} LostCommitRuns()
    ensures var s := Fresh(map[]);
            && Possible(s, LostCommit()) && StorageWorksThroughout(s, LostCommit())
            && After(s, LostCommit()) == At(NEW, {OLD, NEW}, map[], Idle, {OLD})
  {
    var a, s, s1 := LostCommit(), Fresh(map[]), Fresh(map[7 := Idle]);
    assert Apply(s, a[0]) == s1;
    LostCommitStart();
    PossibleStep(s, a, 0, s1);
    assert a[0..] == a;
  }

  /** That storage works is not enough: a commit that takes effect and raises all the same
      leaves the image it replaced, because only a commit that returns removes it. */
  lemma LostCommitLeavesOldImage() returns (s: State)
    ensures var a := LostCommit();
            && Init(s) && (forall k :: !Orphan(s, k)) && Possible(s, a) && StorageWorksThroughout(s, a)
            && Quiet(After(s, a)) && !Conserved(After(s, a))
  {
    s := Fresh(map[]);
    LostCommitRuns();
    var end := At(NEW, {OLD, NEW}, map[], Idle, {OLD});
    assert OLD in end.storage && !Named(end, OLD);
  }

  lemma LastSteps(s: State, a: seq<Action>, i: nat)
    requires i == |a|
    ensures Possible(s, a[i..]) && After(s, a[i..]) == s && StorageWorksThroughout(s, a[i..])
  {
  }

  lemma PossibleStep(s: State, a: seq<Action>, i: nat, next: State)
    requires i < |a| && Enabled(s, a[i]) && next == Apply(s, a[i]) && StorageWorks(s, a[i])
    requires Possible(next, a[i + 1..]) && StorageWorksThroughout(next, a[i + 1..])
    ensures Possible(s, a[i..]) && After(s, a[i..]) == After(next, a[i + 1..])
    ensures StorageWorksThroughout(s, a[i..])
  {
    assert a[i..][1..] == a[i + 1..];
  }
}
