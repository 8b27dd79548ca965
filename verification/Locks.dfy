/** The threads running side by side: the lock order rules out circular waits
    in every reachable state. */
module Locks {
  import opened LockOrder
  import opened Threads

  datatype Thread = Thread(code: Code, held: Held)

  type System = seq<Thread>

  function Start(codes: seq<Code>): System {
    seq(|codes|, i requires 0 <= i < |codes| => Thread(codes[i], Free))
  }

  // A mutex needs that nobody holds it; a read lock that nobody holds it for writing.
  ghost predicate Available(s: System, l: Lock, shared: bool) {
    forall j :: 0 <= j < |s| ==> if shared then !HoldsAlone(s[j].held, l) else !Holds(s[j].held, l)
  }

  ghost predicate StepBy(s: System, i: nat, lab: Label, after: Code, s': System) {
    && i < |s|
    && CodeStep(s[i].code, lab, after)
    && (lab.Acquire? ==> Available(s, lab.lock, lab.shared))
    && s' == s[i := Thread(after, Effect(lab, s[i].held))]
  }

  ghost predicate Step(s: System, s': System) {
    exists i: nat, lab, after :: StepBy(s, i, lab, after, s')
  }

  ghost predicate Run(run: seq<System>) {
    && run != []
    && forall k :: 0 < k < |run| ==> Step(run[k - 1], run[k])
  }

  ghost predicate InOrder(order: Order, s: System) {
    forall i :: 0 <= i < |s| ==>
      Check(order, s[i].code, s[i].held) == Leaves(Free) && Descending(order, s[i].held)
  }

  ghost predicate Exclusive(s: System) {
    forall i, j, l :: 0 <= i < |s| && 0 <= j < |s| && i != j && HoldsAlone(s[i].held, l)
                      ==> !Holds(s[j].held, l)
  }

  lemma {:induction false} EffectOnHeld(order: Order, lab: Label, h: Held)
    requires Descending(order, h) && Orderly(order, lab, h)
    ensures Descending(order, Effect(lab, h))
    ensures forall l :: Holds(Effect(lab, h), l) ==> Holds(h, l) || (lab.Acquire? && lab.lock == l)
    ensures forall l :: HoldsAlone(Effect(lab, h), l)
              ==> HoldsAlone(h, l) || (lab.Acquire? && lab.lock == l && !lab.shared)
  {
    match lab
    case Release(l) => DropKeepsDescending(order, h, l);
    case FallAsleep(l) => DropKeepsDescending(order, h, l);
    case _ =>
  }

  lemma StepKeepsInOrder(order: Order, s: System, s': System)
    requires InOrder(order, s) && Exclusive(s) && Step(s, s')
    ensures InOrder(order, s') && Exclusive(s') && |s'| == |s|
  {
    var i: nat, lab, after :| StepBy(s, i, lab, after, s');
    StepKeepsCheck(order, s[i].code, lab, after, s[i].held);
    EffectOnHeld(order, lab, s[i].held);
    hide Check, CodeStep, Effect, Orderly;
    forall a, b, l | 0 <= a < |s| && 0 <= b < |s| && a != b && HoldsAlone(s'[a].held, l)
      ensures !Holds(s'[b].held, l)
    {
      if a == i && !HoldsAlone(s[a].held, l) {
        assert !Holds(s[b].held, l);
      } else if b == i && Holds(s'[b].held, l) && !Holds(s[b].held, l) {
        AloneIsHeld(s[a].held, l);
        assert false;
      }
    }
  }

  lemma {:induction false} RunKeepsInOrder(order: Order, run: seq<System>, k: nat)
    requires Run(run) && k < |run|
    requires InOrder(order, run[0]) && Exclusive(run[0])
    ensures InOrder(order, run[k]) && Exclusive(run[k]) && |run[k]| == |run[0]|
  {
    if k > 0 {
      RunKeepsInOrder(order, run, k - 1);
      StepKeepsInOrder(order, run[k - 1], run[k]);
    }
  }

  // Thread t cannot go on until thread u releases a lock. A reader held up by
  // another reader is included, as a waiting writer may stand between them.
  predicate WaitsFor(s: System, t: nat, u: nat) {
    && t < |s| && u < |s|
    && Wanted(s[t].code).Wants?
    && Holds(s[u].held, Wanted(s[t].code).lock)
  }

  predicate CircularWait(s: System, ring: seq<nat>) {
    && ring != []
    && forall k :: 0 <= k < |ring| ==> WaitsFor(s, ring[k], ring[if k + 1 < |ring| then k + 1 else 0])
  }

  function WantedRank(order: Order, c: Code): nat
    requires Wanted(c).Wants?
  {
    Rank(order, Wanted(c).lock)
  }

  lemma WaitClimbs(order: Order, s: System, t: nat, u: nat)
    requires InOrder(order, s) && WaitsFor(s, t, u) && Wanted(s[u].code).Wants?
    ensures WantedRank(order, s[t].code) < WantedRank(order, s[u].code)
  {
    WantIsAbove(order, s[u].code, s[u].held);
    HeldIsBelow(order, Wanted(s[u].code).lock, s[u].held, Wanted(s[t].code).lock);
  }

  lemma {:induction false} ChainClimbs(order: Order, s: System, ring: seq<nat>, k: nat)
    requires InOrder(order, s) && CircularWait(s, ring) && k < |ring|
    ensures WaitsFor(s, ring[k], ring[if k + 1 < |ring| then k + 1 else 0])
    ensures WaitsFor(s, ring[0], ring[if 1 < |ring| then 1 else 0])
    ensures WantedRank(order, s[ring[k]].code) >= WantedRank(order, s[ring[0]].code) + k
  {
    if k > 0 {
      ChainClimbs(order, s, ring, k - 1);
      assert WaitsFor(s, ring[k], ring[if k + 1 < |ring| then k + 1 else 0]);
      WaitClimbs(order, s, ring[k - 1], ring[k]);
    }
  }

  /** Threads that take their locks in order never wait for each other in a circle. */
  lemma NoCircularWait(order: Order, s: System, ring: seq<nat>)
    requires InOrder(order, s)
    ensures !CircularWait(s, ring)
  {
    if CircularWait(s, ring) {
      ChainClimbs(order, s, ring, |ring| - 1);
      WaitClimbs(order, s, ring[|ring| - 1], ring[0]);
      assert false;
    }
  }

  /** Whenever a lock is held, some thread that holds one can take a step, and
      the step needs no lock that anyone holds. */
  lemma {:induction false} SomeHolderSteps(order: Order, s: System, i: nat)
    returns (j: nat, lab: Label, after: Code)
    requires InOrder(order, s)
    requires i < |s| && s[i].held != Free
    ensures j < |s| && s[j].held != Free && CodeStep(s[j].code, lab, after)
    ensures lab.Acquire? ==> forall k :: 0 <= k < |s| ==> !Holds(s[k].held, lab.lock)
    decreases 11 - (if Wanted(s[i].code).Wants? then WantedRank(order, s[i].code) else 11)
  {
    j, lab, after := i, Quiet, Done;
    assert s[i].code != Done;
    lab, after := NotDoneSteps(s[i].code);
    if lab.Acquire? && exists u :: 0 <= u < |s| && Holds(s[u].held, lab.lock) {
      var u :| 0 <= u < |s| && Holds(s[u].held, lab.lock);
      if Wanted(s[u].code).Wants? {
        WaitClimbs(order, s, i, u);
      }
      j, lab, after := SomeHolderSteps(order, s, u);
    }
  }

  // The code is inside a condition wait.
  predicate Asleep(c: Code) {
    c.Dozing? || (c.Both? && Asleep(c.first))
  }

  lemma {:induction false} SleeperHoldsNothing(order: Order, c: Code, h: Held)
    requires Check(order, c, h).Leaves? && Asleep(c)
    ensures h == Free
    decreases c
  {
    if c.Both? {
      SleeperHoldsNothing(order, c.first, h);
    }
  }

  // The empeg build.
  function EmpegCodes(): seq<Code> {
    [ThreadCode(Main), ThreadCode(Display), ThreadCode(Database), ThreadCode(Manager),
     ThreadCode(Decoder), ThreadCode(Playing), ThreadCode(Fifo), ThreadCode(Ir),
     ThreadCode(Power), ThreadCode(Saver)]
  }

  lemma EmpegStartsInOrder()
    ensures InOrder(Kept, Start(EmpegCodes())) && Exclusive(Start(EmpegCodes()))
  {
    hide Check, ThreadCode;
    forall t: Name
      ensures Check(Kept, ThreadCode(t), Free) == Leaves(Free)
    {
      EveryThreadKeepsOrder(t);
    }
  }

  /** In every run of the empeg build: no circular wait on locks, a held lock is
      shared only by readers, and a thread inside a condition wait holds no lock. */
  lemma EmpegNeverLocksUp(run: seq<System>, k: nat, ring: seq<nat>)
    requires Run(run) && run[0] == Start(EmpegCodes()) && k < |run|
    ensures !CircularWait(run[k], ring)
    ensures Exclusive(run[k])
    ensures forall t :: 0 <= t < |run[k]| && Asleep(run[k][t].code) ==> run[k][t].held == Free
  {
    EmpegStartsInOrder();
    hide EmpegCodes;
    RunKeepsInOrder(Kept, run, k);
    NoCircularWait(Kept, run[k], ring);
    forall t | 0 <= t < |run[k]| && Asleep(run[k][t].code)
      ensures run[k][t].held == Free
    {
      SleeperHoldsNothing(Kept, run[k][t].code, run[k][t].held);
    }
  }

  // Two threads are at accesses to one structure, and one of them writes.
  predicate Races(s: System, t: nat, u: nat, l: Lock, writes: bool) {
    && t < |s| && u < |s| && t != u
    && IsUsing(s[t].code, l, true) && IsUsing(s[u].code, l, writes)
  }

  /** In every run of the empeg build an access is made with the lock that guards it held, a write with
      no reader beside it, and no write meets another thread's access to the same structure. */
  lemma EmpegNeverRaces(run: seq<System>, k: nat, t: nat, u: nat, l: Lock, writes: bool)
    requires Run(run) && run[0] == Start(EmpegCodes()) && k < |run|
    ensures t < |run[k]| && IsUsing(run[k][t].code, l, writes)
            ==> Holds(run[k][t].held, l) && (writes ==> HoldsAlone(run[k][t].held, l))
    ensures !Races(run[k], t, u, l, writes)
  {
    EmpegStartsInOrder();
    hide EmpegCodes;
    RunKeepsInOrder(Kept, run, k);
    if t < |run[k]| && IsUsing(run[k][t].code, l, writes) {
      UseIsGuarded(Kept, run[k][t].code, run[k][t].held, l, writes);
    }
    if Races(run[k], t, u, l, writes) {
      UseIsGuarded(Kept, run[k][t].code, run[k][t].held, l, true);
      UseIsGuarded(Kept, run[k][u].code, run[k][u].held, l, writes);
      assert false;
    }
  }

  /** In every run of the empeg build, whenever a lock is held, some thread that
      holds a lock has a step that waits for nobody. */
  lemma EmpegHolderSteps(run: seq<System>, k: nat, i: nat) returns (j: nat, next: System)
    requires Run(run) && run[0] == Start(EmpegCodes()) && k < |run|
    requires i < |run[k]| && run[k][i].held != Free
    ensures j < |run[k]| && run[k][j].held != Free
    ensures Step(run[k], next) && next[j] != run[k][j]
  {
    EmpegStartsInOrder();
    hide EmpegCodes;
    RunKeepsInOrder(Kept, run, k);
    var lab, after;
    j, lab, after := SomeHolderSteps(Kept, run[k], i);
    hide Check, Effect, Descending;
    next := run[k][j := Thread(after, Effect(lab, run[k][j].held))];
    if lab.Acquire? {
      forall u | 0 <= u < |run[k]|
        ensures !HoldsAlone(run[k][u].held, lab.lock)
      {
        if HoldsAlone(run[k][u].held, lab.lock) {
          AloneIsHeld(run[k][u].held, lab.lock);
        }
      }
    }
    assert StepBy(run[k], j, lab, after, next);
    StepChangesCode(run[k][j].code, lab, after);
  }

  lemma {:induction false} StepChangesCode(c: Code, lab: Label, after: Code)
    requires CodeStep(c, lab, after)
    ensures after != c
    decreases c
  {
    if c.Both? && c.first != Done {
      StepChangesCode(c.first, lab, after.first);
    } else if c.Both? || c.Either? {
      assert after < c;
    } else if after.Both? {
      assert c < after;
    }
  }
}
