/** A small language of locking code and a check that decides whether code
    takes its locks in order. The system's threads are written in it in Threads. */
module LockOrder {
  datatype Lock =
    | StateInfo
    | DisplayInfo
    | DatabaseInfo
    | SongQueue
    | PastQueue
    | PlayerInfo
    | PlayerCommand
    | FrameBuffer
    | SpectrumInfo
    | SpectrumRing
    | StatusInfo

  // The order the documentation lists, and the order the empeg build keeps.
  datatype Order = Documented | Kept

  function Rank(order: Order, l: Lock): nat {
    match l
    case StateInfo => 0
    case DisplayInfo => 1
    case DatabaseInfo => 2
    case SongQueue => 3
    case PastQueue => 4
    case PlayerInfo => 5
    case PlayerCommand => 6
    case FrameBuffer => 7
    case SpectrumInfo => if order == Documented then 8 else 9
    case SpectrumRing => if order == Documented then 9 else 8
    case StatusInfo => 10
  }

  /** The documented order is the list of doc/LOCKS; the kept one swaps the two spectrum locks. */
  lemma OrdersAreLists(i: nat, j: nat)
    requires i < j < 11
    ensures var listed := [StateInfo, DisplayInfo, DatabaseInfo, SongQueue, PastQueue, PlayerInfo, PlayerCommand,
                           FrameBuffer, SpectrumInfo, SpectrumRing, StatusInfo];
            && Rank(Documented, listed[i]) < Rank(Documented, listed[j])
            && (Rank(Kept, listed[i]) < Rank(Kept, listed[j]) <==> (i, j) != (8, 9))
  {
    var listed := [StateInfo, DisplayInfo, DatabaseInfo, SongQueue, PastQueue, PlayerInfo, PlayerCommand,
                   FrameBuffer, SpectrumInfo, SpectrumRing, StatusInfo];
    assert Rank(Documented, listed[i]) == i && Rank(Documented, listed[j]) == j;
  }

  // The locks a thread holds, the last one taken first.
  datatype Held = Free | Holding(lock: Lock, shared: bool, rest: Held)

  predicate Holds(h: Held, l: Lock) {
    h.Holding? && (h.lock == l || Holds(h.rest, l))
  }

  predicate HoldsAlone(h: Held, l: Lock) {
    h.Holding? && ((h.lock == l && !h.shared) || HoldsAlone(h.rest, l))
  }

  function Without(h: Held, l: Lock): Held {
    match h
    case Free => Free
    case Holding(m, shared, rest) => if m == l then rest else Holding(m, shared, Without(rest, l))
  }

  predicate Descending(order: Order, h: Held) {
    match h
    case Free => true
    case Holding(l, _, rest) => Above(order, l, rest) && Descending(order, rest)
  }

  // Lock l comes after every lock in h. For a descending h its first lock decides.
  predicate Above(order: Order, l: Lock, h: Held) {
    h.Free? || Rank(order, h.lock) < Rank(order, l)
  }

  datatype Code =
    | Done
    | Take(lock: Lock)             // pthread_mutex_lock, pthread_rwlock_wrlock
    | Read(lock: Lock)             // pthread_rwlock_rdlock
    | Drop(lock: Lock)             // any unlock
    | Use(lock: Lock, writes: bool)  // an access to the structure the lock guards
    | Sleep(lock: Lock)            // pthread_cond_wait with this mutex
    | Dozing(lock: Lock)           // inside pthread_cond_wait, mutex released
    | Both(first: Code, second: Code)
    | Either(left: Code, right: Code)
    | Repeat(body: Code)           // a loop that may end
    | Forever(body: Code)          // while( 1 )
  {
    function Then(next: Code): Code { Both(this, next) }

    function Or(other: Code): Code { Either(this, other) }
  }

  function Maybe(c: Code): Code { Either(c, Done) }

  // What an access needs: the lock, and for a write that no reader shares it.
  predicate Guarded(h: Held, l: Lock, writes: bool) {
    if writes then HoldsAlone(h, l) else Holds(h, l)
  }

  datatype Outcome = Leaves(held: Held) | OutOfOrder

  /** The locks held after the code, when it never takes a lock below one it
      holds, drops only what it holds, sleeps holding nothing else, and uses
      only what it has locked. */
  function Check(order: Order, c: Code, h: Held): Outcome
    decreases c
  {
    match c
    case Done => Leaves(h)
    case Take(l) => if Above(order, l, h) then Leaves(Holding(l, false, h)) else OutOfOrder
    case Read(l) => if Above(order, l, h) then Leaves(Holding(l, true, h)) else OutOfOrder
    case Drop(l) => if Holds(h, l) then Leaves(Without(h, l)) else OutOfOrder
    case Use(l, writes) => if Guarded(h, l, writes) then Leaves(h) else OutOfOrder
    case Sleep(l) => if h == Holding(l, false, Free) then Leaves(h) else OutOfOrder
    case Dozing(l) => if h == Free then Leaves(Holding(l, false, Free)) else OutOfOrder
    case Both(a, b) =>
      var between := Check(order, a, h);
      if between.Leaves? then Check(order, b, between.held) else OutOfOrder
    case Either(a, b) =>
      var left := Check(order, a, h);
      if left == Check(order, b, h) then left else OutOfOrder
    case Repeat(b) => if Check(order, b, h) == Leaves(h) then Leaves(h) else OutOfOrder
    case Forever(b) => if Check(order, b, h) == Leaves(h) then Leaves(Free) else OutOfOrder
  }

  lemma {:induction false} ThenChecks(order: Order, a: Code, b: Code, h: Held, between: Held)
    requires Check(order, a, h) == Leaves(between)
    ensures Check(order, a.Then(b), h) == Check(order, b, between)
  {
  }

  lemma {:induction false} LoopChecks(order: Order, body: Code, h: Held)
    requires Check(order, body, h) == Leaves(h)
    ensures Check(order, Repeat(body), h) == Leaves(h)
    ensures Check(order, Forever(body), h) == Leaves(Free)
  {
  }

  lemma {:induction false} OrChecks(order: Order, a: Code, b: Code, h: Held)
    requires Check(order, a, h) == Check(order, b, h)
    ensures Check(order, a.Or(b), h) == Check(order, a, h)
  {
  }

  datatype Label =
    | Quiet
    | Acquire(lock: Lock, shared: bool)
    | Release(lock: Lock)
    | FallAsleep(lock: Lock)

  // One step of a piece of code; a sleeper may wake at any moment.
  predicate CodeStep(c: Code, lab: Label, after: Code) {
    match c
    case Done => false
    case Take(l) => lab == Acquire(l, false) && after == Done
    case Read(l) => lab == Acquire(l, true) && after == Done
    case Drop(l) => lab == Release(l) && after == Done
    case Use(_, _) => lab == Quiet && after == Done
    case Sleep(l) => lab == FallAsleep(l) && after == Dozing(l)
    case Dozing(l) => lab == Quiet && after == Take(l)
    case Both(a, b) =>
      if a == Done then lab == Quiet && after == b
      else after.Both? && after.second == b && CodeStep(a, lab, after.first)
    case Either(a, b) => lab == Quiet && (after == a || after == b)
    case Repeat(b) => lab == Quiet && (after == Done || after == Both(b, c))
    case Forever(b) => lab == Quiet && after == Both(b, c)
  }

  // What a step does to the locks held.
  function Effect(lab: Label, h: Held): Held {
    match lab
    case Quiet => h
    case Acquire(l, shared) => Holding(l, shared, h)
    case Release(l) => Without(h, l)
    case FallAsleep(l) => Without(h, l)
  }

  // What a step needs: acquisitions go up, releases and sleeps own the lock.
  predicate Orderly(order: Order, lab: Label, h: Held) {
    match lab
    case Quiet => true
    case Acquire(l, _) => Above(order, l, h)
    case Release(l) => Holds(h, l)
    case FallAsleep(l) => h == Holding(l, false, Free)
  }

  /** Code that passes the check keeps passing it, step after step. */
  lemma {:induction false} StepKeepsCheck(order: Order, c: Code, lab: Label, after: Code, h: Held)
    requires Check(order, c, h).Leaves?
    requires CodeStep(c, lab, after)
    ensures Orderly(order, lab, h)
    ensures Check(order, after, Effect(lab, h)) == Check(order, c, h)
    decreases c
  {
    match c
    case Both(a, b) =>
      if a != Done {
        StepKeepsCheck(order, a, lab, after.first, h);
      }
    case Repeat(b) =>
      if after != Done {
        assert Check(order, after, h) == Check(order, c, h);
      }
    case _ =>
  }

  // The code's next step is an access to the structure that l guards.
  predicate IsUsing(c: Code, l: Lock, writes: bool) {
    c == Use(l, writes) || (c.Both? && IsUsing(c.first, l, writes))
  }

  /** Checked code makes no access without the lock that guards it. */
  lemma {:induction false} UseIsGuarded(order: Order, c: Code, h: Held, l: Lock, writes: bool)
    requires Check(order, c, h).Leaves? && IsUsing(c, l, writes)
    ensures Holds(h, l) && (writes ==> HoldsAlone(h, l))
    decreases c
  {
    if c.Both? {
      UseIsGuarded(order, c.first, h, l, writes);
    } else if writes {
      AloneIsHeld(h, l);
    }
  }

  // The lock the code is about to take, if its next step takes one.
  datatype Want = Nothing | Wants(lock: Lock)

  function Wanted(c: Code): Want {
    match c
    case Take(l) => Wants(l)
    case Read(l) => Wants(l)
    case Both(a, b) => Wanted(a)
    case _ => Nothing
  }

  /** Code that is not finished has a step; the step takes a lock exactly when one is wanted. */
  lemma {:induction false} NotDoneSteps(c: Code) returns (lab: Label, after: Code)
    requires c != Done
    ensures CodeStep(c, lab, after)
    ensures Wanted(c) == if lab.Acquire? then Wants(lab.lock) else Nothing
    decreases c
  {
    match c
    case Take(l) => lab, after := Acquire(l, false), Done;
    case Read(l) => lab, after := Acquire(l, true), Done;
    case Drop(l) => lab, after := Release(l), Done;
    case Use(_, _) => lab, after := Quiet, Done;
    case Sleep(l) => lab, after := FallAsleep(l), Dozing(l);
    case Dozing(l) => lab, after := Quiet, Take(l);
    case Both(a, b) =>
      if a == Done {
        lab, after := Quiet, b;
      } else {
        var first;
        lab, first := NotDoneSteps(a);
        after := Both(first, b);
      }
    case Either(a, b) => lab, after := Quiet, a;
    case Repeat(b) => lab, after := Quiet, Done;
    case Forever(b) => lab, after := Quiet, Both(b, c);
  }

  /** A lock wanted by checked code is above every lock it holds. */
  lemma {:induction false} WantIsAbove(order: Order, c: Code, h: Held)
    requires Check(order, c, h).Leaves?
    requires Wanted(c).Wants?
    ensures Above(order, Wanted(c).lock, h)
    decreases c
  {
    if c.Both? {
      WantIsAbove(order, c.first, h);
    }
  }

  lemma {:induction false} HeldIsBelow(order: Order, l: Lock, h: Held, m: Lock)
    requires Descending(order, h) && Above(order, l, h) && Holds(h, m)
    ensures Rank(order, m) < Rank(order, l)
    decreases h
  {
    if h.lock != m {
      HeldIsBelow(order, h.lock, h.rest, m);
    }
  }

  lemma {:induction false} DropKeepsDescending(order: Order, h: Held, l: Lock)
    requires Descending(order, h)
    ensures Descending(order, Without(h, l))
    ensures forall m :: Above(order, m, h) ==> Above(order, m, Without(h, l))
    ensures forall m :: Holds(Without(h, l), m) <==> Holds(h, m) && m != l
    ensures forall m :: HoldsAlone(Without(h, l), m) <==> HoldsAlone(h, m) && m != l
    decreases h
  {
    if h.Holding? {
      DropKeepsDescending(order, h.rest, l);
      forall m | Holds(h.rest, m)
        ensures m != h.lock
      {
        HeldIsBelow(order, h.lock, h.rest, m);
      }
      forall m | HoldsAlone(h.rest, m)
        ensures m != h.lock
      {
        AloneIsHeld(h.rest, m);
        HeldIsBelow(order, h.lock, h.rest, m);
      }
    }
  }

  lemma {:induction false} AloneIsHeld(h: Held, l: Lock)
    requires HoldsAlone(h, l)
    ensures Holds(h, l)
    decreases h
  {
    if h.lock != l {
      AloneIsHeld(h.rest, l);
    }
  }
}
