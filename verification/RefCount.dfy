/** The life of an FT object: threads add and remove references under a reference
    lock, and the last one to go evicts the object under the open/close lock. Every
    interleaving of the lock operations is a run. */
module RefCount {

  datatype Kind = Handle | Txn | Checkpoint

  /** Where a thread is. `AddTxn` threads rely on a handle of their own. */
  datatype Pc =
    | Idle
    // toku_ft_remove_reference, giving up one reference of kind `ref`
    | WantRef(ref: Kind)              // about to take the reference lock
    | Checking(ref: Kind)             // has it, about to look at the count
    | WantOpenClose(ref: Kind)        // count was one, all locks released
    | WantBoth(ref: Kind)             // has the open/close lock
    | HasBoth(ref: Kind)              // has both locks
    | Deciding(needed: bool)          // has the open/close lock, reference given up
    | Leaving                         // about to release the open/close lock
    // toku_ft_add_txn_ref
    | AddTxn
    | AddingTxn
    // opening a handle, and the pin by a checkpoint, under the open/close lock
    | Opening(add: Kind)
    | OpeningBoth(add: Kind)

  datatype State = State(
    handles: nat, txns: nat, pinned: bool,
    refLock: bool, openClose: bool,
    alive: bool, evictions: nat,
    threads: seq<Pc>)

  /** ft_get_reference_count. */
  function Count(s: State): nat {
    (if s.pinned then 1 else 0) + s.txns + s.handles
  }

  function Has(s: State, k: Kind): nat {
    match k
    case Handle => s.handles
    case Txn => s.txns
    case Checkpoint => if s.pinned then 1 else 0
  }

  function Add(s: State, k: Kind): State {
    match k
    case Handle => s.(handles := s.handles + 1)
    case Txn => s.(txns := s.txns + 1)
    case Checkpoint => s.(pinned := true)
  }

  function Remove(s: State, k: Kind): State
    requires Has(s, k) > 0
  {
    match k
    case Handle => s.(handles := s.handles - 1)
    case Txn => s.(txns := s.txns - 1)
    case Checkpoint => s.(pinned := false)
  }

  // ------------------------------------------------------- counting threads

  /** The reference a thread still owns while it works on the object. */
  predicate Owns(pc: Pc, k: Kind) {
    match pc
    case WantRef(r) => r == k
    case Checking(r) => r == k
    case WantOpenClose(r) => r == k
    case WantBoth(r) => r == k
    case HasBoth(r) => r == k
    case AddTxn => k == Handle
    case AddingTxn => k == Handle
    case _ => false
  }

  predicate HoldsRef(pc: Pc) {
    pc.Checking? || pc.HasBoth? || pc.AddingTxn? || pc.OpeningBoth?
  }

  predicate HoldsOpenClose(pc: Pc) {
    pc.WantBoth? || pc.HasBoth? || pc.Deciding? || pc.Leaving? || pc.Opening? || pc.OpeningBoth?
  }

  function Number(ts: seq<Pc>, p: Pc -> bool): nat {
    if |ts| == 0 then 0 else Number(ts[..|ts| - 1], p) + (if p(ts[|ts| - 1]) then 1 else 0)
  }

  lemma {:induction false} NumberUpdate(ts: seq<Pc>, p: Pc -> bool, t: nat, pc: Pc)
    requires t < |ts|
    ensures Number(ts[t := pc], p) == Number(ts, p) - (if p(ts[t]) then 1 else 0) + (if p(pc) then 1 else 0)
  {
    var n := |ts| - 1;
    if t == n {
      assert ts[t := pc][..n] == ts[..n];
    } else {
      assert ts[t := pc][..n] == ts[..n][t := pc];
      NumberUpdate(ts[..n], p, t, pc);
    }
  }

  lemma {:induction false} NumberAtLeast(ts: seq<Pc>, p: Pc -> bool, t: nat)
    requires t < |ts| && p(ts[t])
    ensures Number(ts, p) >= 1
  {
    if t < |ts| - 1 {
      NumberAtLeast(ts[..|ts| - 1], p, t);
    }
  }

  lemma {:induction false} NumberAtLeastTwo(ts: seq<Pc>, p: Pc -> bool, t: nat, u: nat)
    requires t < u < |ts| && p(ts[t]) && p(ts[u])
    ensures Number(ts, p) >= 2
  {
    if u == |ts| - 1 {
      NumberAtLeast(ts[..u], p, t);
    } else {
      NumberAtLeastTwo(ts[..|ts| - 1], p, t, u);
    }
  }

  function OwnerOf(k: Kind): Pc -> bool {
    pc => Owns(pc, k)
  }

  function Owners(s: State, k: Kind): nat {
    Number(s.threads, OwnerOf(k))
  }

  // --------------------------------------------------------------- the steps

  datatype Step =
    | StartRemove(t: nat, ref: Kind)
    | StartAddTxn(t: nat)
    | StartOpen(t: nat, add: Kind)
    | Advance(t: nat)

  predicate Enabled(s: State, step: Step) {
    step.t < |s.threads|
    && var pc := s.threads[step.t];
       match step
       // a reference can be given up, or relied on, by its owner only
       case StartRemove(_, k) => pc.Idle? && Has(s, k) > Owners(s, k)
       case StartAddTxn(_) => pc.Idle? && s.handles > Owners(s, Handle)
       // an open, or a checkpoint, finds the object only while it exists
       case StartOpen(_, k) =>
         && pc.Idle? && !s.openClose && s.alive
         && (k == Handle || (k == Checkpoint && !s.pinned))
       case Advance(_) =>
         match pc
         case Idle => false
         case WantRef(_) => !s.refLock
         case WantOpenClose(_) => !s.openClose
         case WantBoth(_) => !s.refLock
         case AddTxn => !s.refLock
         case Opening(_) => !s.refLock
         case _ => true
  }

  function Exec(s: State, step: Step): State
    requires Enabled(s, step)
    requires step.Advance? && (s.threads[step.t].Checking? || s.threads[step.t].HasBoth?) ==>
               Has(s, s.threads[step.t].ref) > 0
  {
    var ts, t := s.threads, step.t;
    match step
    case StartRemove(_, k) => s.(threads := ts[t := WantRef(k)])
    case StartAddTxn(_) => s.(threads := ts[t := AddTxn])
    case StartOpen(_, k) => s.(openClose := true, threads := ts[t := Opening(k)])
    case Advance(_) =>
      match s.threads[step.t]
      case Idle => s
      case WantRef(k) => s.(refLock := true, threads := ts[t := Checking(k)])
      case Checking(k) =>
        if Count(s) == 1 then s.(refLock := false, threads := ts[t := WantOpenClose(k)])
        else Remove(s, k).(refLock := false, threads := ts[t := Idle])
      case WantOpenClose(k) => s.(openClose := true, threads := ts[t := WantBoth(k)])
      case WantBoth(k) => s.(refLock := true, threads := ts[t := HasBoth(k)])
      case HasBoth(k) =>
        var s' := Remove(s, k);
        s'.(refLock := false, threads := ts[t := Deciding(Count(s') != 0)])
      case Deciding(needed) =>
        if needed then s.(threads := ts[t := Leaving])
        else s.(alive := false, evictions := s.evictions + 1, threads := ts[t := Leaving])
      case Leaving => s.(openClose := false, threads := ts[t := Idle])
      case AddTxn => s.(refLock := true, threads := ts[t := AddingTxn])
      case AddingTxn => Add(s, Txn).(refLock := false, threads := ts[t := Idle])
      case Opening(k) => s.(refLock := true, threads := ts[t := OpeningBoth(k)])
      case OpeningBoth(k) => Add(s, k).(refLock := false, threads := ts[t := Leaving])
  }

  // ------------------------------------------------------------ the invariant

  predicate Dying(pc: Pc) {
    pc == Deciding(false)
  }

  ghost predicate Inv(s: State) {
    // locks are held by one thread each, exactly when they are taken
    && Number(s.threads, HoldsRef) == (if s.refLock then 1 else 0)
    && Number(s.threads, HoldsOpenClose) == (if s.openClose then 1 else 0)
    // nobody gives up or relies on a reference that is not there
    && Owners(s, Handle) <= s.handles && Owners(s, Txn) <= s.txns
    && Owners(s, Checkpoint) <= (if s.pinned then 1 else 0)
    // the count is zero only between the last removal and the eviction, in the
    // thread that holds the open/close lock, and after the eviction
    && (s.alive ==> s.evictions == 0 && (Count(s) == 0 <==> Number(s.threads, Dying) == 1))
    && (!s.alive ==> s.evictions == 1 && Count(s) == 0 && Number(s.threads, Dying) == 0)
    && Number(s.threads, Dying) <= 1
    && Openers(s)
  }

  /** Whoever opens found the object alive; a checkpoint pins it only once. */
  ghost predicate Openers(s: State) {
    forall t :: 0 <= t < |s.threads| && (s.threads[t].Opening? || s.threads[t].OpeningBoth?) ==>
      s.alive && (s.threads[t].add == Handle || (s.threads[t].add == Checkpoint && !s.pinned))
  }

  function Initial(n: nat): State {
    State(1, 0, false, false, false, true, 0, seq(n, _ => Idle))
  }

  function Bit(b: bool): nat {
    if b then 1 else 0
  }

  /** How the numbers change when one thread moves on. */
  lemma Moved(ts: seq<Pc>, t: nat, pc: Pc)
    requires t < |ts|
    ensures
      var ts', old' := ts[t := pc], ts[t];
      && Number(ts', HoldsRef) == Number(ts, HoldsRef) - Bit(HoldsRef(old')) + Bit(HoldsRef(pc))
      && Number(ts', HoldsOpenClose) == Number(ts, HoldsOpenClose) - Bit(HoldsOpenClose(old')) + Bit(HoldsOpenClose(pc))
      && Number(ts', Dying) == Number(ts, Dying) - Bit(Dying(old')) + Bit(Dying(pc))
      && forall k :: Number(ts', OwnerOf(k)) == Number(ts, OwnerOf(k)) - Bit(Owns(old', k)) + Bit(Owns(pc, k))
  {
    NumberUpdate(ts, HoldsRef, t, pc);
    NumberUpdate(ts, HoldsOpenClose, t, pc);
    NumberUpdate(ts, Dying, t, pc);
    forall k ensures Number(ts[t := pc], OwnerOf(k)) == Number(ts, OwnerOf(k)) - Bit(Owns(ts[t], k)) + Bit(Owns(pc, k)) {
      NumberUpdate(ts, OwnerOf(k), t, pc);
    }
  }

  /** What a thread's position says about the shared state. */
  lemma AtPc(s: State, t: nat)
    requires Inv(s) && t < |s.threads|
    ensures
      var pc := s.threads[t];
      && (forall k :: Owns(pc, k) ==> Has(s, k) >= Owners(s, k) >= 1)
      && (HoldsRef(pc) ==> s.refLock) && (HoldsOpenClose(pc) ==> s.openClose)
      && (Dying(pc) ==> Number(s.threads, Dying) >= 1)
      && (HoldsOpenClose(pc) && !Dying(pc) ==> Number(s.threads, Dying) == 0)
  {
    var pc := s.threads[t];
    forall k | Owns(pc, k) ensures Owners(s, k) >= 1 {
      NumberAtLeast(s.threads, OwnerOf(k), t);
    }
    if HoldsRef(pc) {
      NumberAtLeast(s.threads, HoldsRef, t);
    }
    if Dying(pc) {
      NumberAtLeast(s.threads, Dying, t);
    }
    if HoldsOpenClose(pc) {
      NumberAtLeast(s.threads, HoldsOpenClose, t);
      if !Dying(pc) {
        NoOtherDying(s.threads, t);
      }
    }
  }

  /** While another thread has the open/close lock, none is about to evict. */
  lemma {:induction false} NoOtherDying(ts: seq<Pc>, t: nat)
    requires t < |ts| && HoldsOpenClose(ts[t]) && !Dying(ts[t]) && Number(ts, HoldsOpenClose) == 1
    ensures Number(ts, Dying) == 0
  {
    if Number(ts, Dying) > 0 {
      var u := SomeThread(ts, Dying);
      if t < u {
        NumberAtLeastTwo(ts, HoldsOpenClose, t, u);
      } else {
        NumberAtLeastTwo(ts, HoldsOpenClose, u, t);
      }
    }
  }

  ghost function SomeThread(ts: seq<Pc>, p: Pc -> bool): (t: nat)
    requires Number(ts, p) > 0
    ensures t < |ts| && p(ts[t])
  {
    if p(ts[|ts| - 1]) then |ts| - 1 else SomeThread(ts[..|ts| - 1], p)
  }

  predicate CanExec(s: State, step: Step) {
    && Enabled(s, step)
    && (step.Advance? && (s.threads[step.t].Checking? || s.threads[step.t].HasBoth?) ==>
          Has(s, s.threads[step.t].ref) > 0)
  }

  /** A callback never finds its reference missing. */
  lemma NeverMissing(s: State, step: Step)
    requires Inv(s) && Enabled(s, step)
    ensures CanExec(s, step)
  {
    AtPc(s, step.t);
    var pc := s.threads[step.t];
    if step.Advance? && (pc.Checking? || pc.HasBoth?) {
      assert Owns(pc, pc.ref);
    }
  }

  lemma OpenersKept(s: State, step: Step)
    requires Openers(s) && CanExec(s, step)
    requires HoldsOpenClose(s.threads[step.t]) ==>
               forall u :: 0 <= u < |s.threads| && u != step.t ==> !HoldsOpenClose(s.threads[u])
    ensures Openers(Exec(s, step))
  {
    hide Number, Owners, Count;
  }

  lemma StartOk(s: State, step: Step)
    requires Inv(s) && CanExec(s, step) && !step.Advance?
    ensures Inv(Exec(s, step))
  {
    OneOpener(s, step.t);
    OpenersKept(s, step);
    StartCounts(s, step);
  }

  lemma StartCounts(s: State, step: Step)
    requires Inv(s) && CanExec(s, step) && !step.Advance? && Openers(Exec(s, step))
    ensures Inv(Exec(s, step))
  {
    hide Number, Openers;
    var s', t := Exec(s, step), step.t;
    AtPc(s, t);
    Moved(s.threads, t, s'.threads[t]);
  }

  /** Steps that take a lock to give up a reference. */
  lemma LockOk(s: State, t: nat)
    requires Inv(s) && CanExec(s, Advance(t)) && Openers(Exec(s, Advance(t)))
    requires s.threads[t].WantRef? || s.threads[t].WantOpenClose? || s.threads[t].WantBoth?
    ensures Inv(Exec(s, Advance(t)))
  {
    hide Number, Openers;
    var s' := Exec(s, Advance(t));
    AtPc(s, t);
    Moved(s.threads, t, s'.threads[t]);
  }

  /** Steps that take the reference lock to add a reference. */
  lemma AddLockOk(s: State, t: nat)
    requires Inv(s) && CanExec(s, Advance(t)) && Openers(Exec(s, Advance(t)))
    requires s.threads[t].AddTxn? || s.threads[t].Opening?
    ensures Inv(Exec(s, Advance(t)))
  {
    hide Number, Openers;
    var s' := Exec(s, Advance(t));
    AtPc(s, t);
    Moved(s.threads, t, s'.threads[t]);
  }

  /** Evicting the object if it is not needed, and releasing the open/close lock. */
  lemma LeaveOk(s: State, t: nat)
    requires Inv(s) && CanExec(s, Advance(t)) && Openers(Exec(s, Advance(t)))
    requires s.threads[t].Deciding? || s.threads[t].Leaving?
    ensures Inv(Exec(s, Advance(t)))
  {
    hide Number, Openers;
    var s' := Exec(s, Advance(t));
    AtPc(s, t);
    Moved(s.threads, t, s'.threads[t]);
  }

  /** Giving up a reference that is not the last one, under the reference lock. */
  lemma CheckingOk(s: State, t: nat)
    requires Inv(s) && CanExec(s, Advance(t)) && s.threads[t].Checking?
    requires Openers(Exec(s, Advance(t)))
    ensures Inv(Exec(s, Advance(t)))
  {
    hide Number, Openers;
    var s' := Exec(s, Advance(t));
    AtPc(s, t);
    Moved(s.threads, t, s'.threads[t]);
    assert Has(s, s.threads[t].ref) >= 1;
  }

  /** Giving up a reference, maybe the last one, under both locks. */
  lemma HasBothOk(s: State, t: nat)
    requires Inv(s) && CanExec(s, Advance(t)) && s.threads[t].HasBoth?
    requires Openers(Exec(s, Advance(t)))
    ensures Inv(Exec(s, Advance(t)))
  {
    hide Number, Openers;
    var s' := Exec(s, Advance(t));
    AtPc(s, t);
    Moved(s.threads, t, s'.threads[t]);
    assert Has(s, s.threads[t].ref) >= 1;
  }

  lemma AddOk(s: State, t: nat)
    requires Inv(s) && CanExec(s, Advance(t)) && (s.threads[t].AddingTxn? || s.threads[t].OpeningBoth?)
    requires Openers(Exec(s, Advance(t)))
    ensures Inv(Exec(s, Advance(t)))
  {
    hide Number;
    var s' := Exec(s, Advance(t));
    AtPc(s, t);
    Moved(s.threads, t, s'.threads[t]);
  }

  /** The thread that opens is alone in that. */
  lemma OneOpener(s: State, t: nat)
    requires Inv(s) && t < |s.threads|
    ensures HoldsOpenClose(s.threads[t]) ==>
              forall u :: 0 <= u < |s.threads| && u != t ==> !HoldsOpenClose(s.threads[u])
  {
    if HoldsOpenClose(s.threads[t]) {
      forall u | 0 <= u < |s.threads| && u != t ensures !HoldsOpenClose(s.threads[u]) {
        if HoldsOpenClose(s.threads[u]) {
          NumberAtLeastTwo(s.threads, HoldsOpenClose, if t < u then t else u, if t < u then u else t);
        }
      }
    }
  }

  /** Every step of every thread keeps the invariant. */
  lemma StepOk(s: State, step: Step)
    requires Inv(s) && CanExec(s, step)
    ensures Inv(Exec(s, step))
  {
    hide Exec, Openers, Number, Owners;
    OneOpener(s, step.t);
    OpenersKept(s, step);
    if step.Advance? {
      match s.threads[step.t]
      case Checking(_) => CheckingOk(s, step.t);
      case HasBoth(_) => HasBothOk(s, step.t);
      case AddingTxn => AddOk(s, step.t);
      case OpeningBoth(_) => AddOk(s, step.t);
      case Deciding(_) => LeaveOk(s, step.t);
      case Leaving => LeaveOk(s, step.t);
      case AddTxn => AddLockOk(s, step.t);
      case Opening(_) => AddLockOk(s, step.t);
      case _ => LockOk(s, step.t);
    } else {
      StartOk(s, step);
    }
  }

  // -------------------------------------------------------------------- runs

  predicate CanRun(s: State, steps: seq<Step>)
    decreases steps
  {
    |steps| == 0 || (CanExec(s, steps[0]) && CanRun(Exec(s, steps[0]), steps[1..]))
  }

  function Run(s: State, steps: seq<Step>): State
    requires CanRun(s, steps)
    decreases steps
  {
    if |steps| == 0 then s else Run(Exec(s, steps[0]), steps[1..])
  }

  lemma {:induction false} RunOk(s: State, steps: seq<Step>)
    requires Inv(s) && CanRun(s, steps)
    ensures Inv(Run(s, steps))
    decreases steps
  {
    if |steps| > 0 {
      StepOk(s, steps[0]);
      RunOk(Exec(s, steps[0]), steps[1..]);
    }
  }

  lemma {:induction false} AllIdle(n: nat, p: Pc -> bool)
    requires !p(Idle)
    ensures Number(seq(n, _ => Idle), p) == 0
  {
    if n > 0 {
      var ts := seq(n, _ => Idle);
      AllIdle(n - 1, p);
      assert ts[..n - 1] == seq(n - 1, _ => Idle);
    }
  }

  lemma InitialOk(n: nat)
    ensures Inv(Initial(n))
  {
    AllIdle(n, HoldsRef);
    AllIdle(n, HoldsOpenClose);
    AllIdle(n, Dying);
    AllIdle(n, OwnerOf(Handle));
    AllIdle(n, OwnerOf(Txn));
    AllIdle(n, OwnerOf(Checkpoint));
  }

  /** Over every interleaving: the object is evicted at most once, and only when
      nobody refers to it; while it exists with no reference left, one thread,
      which holds the open/close lock, is about to evict it; after the eviction
      nobody has or gains a reference. */
  lemma EvictedOnce(n: nat, steps: seq<Step>)
    requires CanRun(Initial(n), steps)
    ensures
      var s := Run(Initial(n), steps);
      && s.evictions == (if s.alive then 0 else 1)
      && (!s.alive ==> Count(s) == 0)
      && (s.alive && Count(s) == 0 ==>
            s.openClose && exists t :: 0 <= t < |s.threads| && s.threads[t] == Deciding(false))
  {
    InitialOk(n);
    RunOk(Initial(n), steps);
    var s := Run(Initial(n), steps);
    if s.alive && Count(s) == 0 {
      var t := SomeThread(s.threads, Dying);
      AtPc(s, t);
      assert s.threads[t] == Deciding(false);
    }
  }

  /** The count reaches zero only in a thread that holds both locks, and that thread
      evicts the object with its next step. */
  lemma LastRemovalHasBothLocks(s: State, step: Step)
    requires Inv(s) && CanExec(s, step) && Count(s) > 0 && Count(Exec(s, step)) == 0
    ensures s.threads[step.t].HasBoth? && s.refLock && s.openClose
    ensures
      var s' := Exec(s, step);
      Enabled(s', Advance(step.t)) && !Exec(s', Advance(step.t)).alive
  {
    AtPc(s, step.t);
  }

  /** The assertion in ft_note_pin_by_checkpoint: whoever finds the object under the
      open/close lock finds it referenced. */
  lemma OpenFindsItNeeded(s: State, t: nat)
    requires Inv(s) && t < |s.threads| && s.threads[t].OpeningBoth?
    ensures s.alive && Count(s) > 0 && (s.threads[t].add == Checkpoint ==> !s.pinned)
  {
    AtPc(s, t);
  }
}
