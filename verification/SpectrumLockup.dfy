/** Why the other builds can lock up: their spectrum thread takes the two spectrum locks against the player. */
module SpectrumLockup {
  import opened LockOrder
  import opened Threads
  import opened Locks

  // ---- One thread on its own ----

  // A step that needs neither a lock the thread holds nor a busy one.
  ghost predicate SoloStep(t: Thread, t': Thread, busy: set<Lock>) {
    exists lab ::
      && CodeStep(t.code, lab, t'.code)
      && t'.held == Effect(lab, t.held)
      && (lab.Acquire? ==> !Holds(t.held, lab.lock) && lab.lock !in busy)
  }

  // The thread passes through the given states, from t to t'.
  ghost predicate SoloPath(t: Thread, path: seq<Thread>, t': Thread, busy: set<Lock>)
    decreases |path|
  {
    if path == [] then t == t' else SoloStep(t, path[0], busy) && SoloPath(path[0], path[1..], t', busy)
  }

  ghost predicate Goes(t: Thread, t': Thread, busy: set<Lock>) {
    exists path :: SoloPath(t, path, t', busy)
  }

  lemma GoesNowhere(t: Thread, busy: set<Lock>)
    ensures Goes(t, t, busy)
  {
    assert SoloPath(t, [], t, busy);
  }

  lemma GoesFirst(t: Thread, t': Thread, t'': Thread, busy: set<Lock>)
    requires SoloStep(t, t', busy) && Goes(t', t'', busy)
    ensures Goes(t, t'', busy)
  {
    hide SoloStep;
    var path :| SoloPath(t', path, t'', busy);
    var longer := [t'] + path;
    assert longer[0] == t' && longer[1..] == path;
    assert SoloPath(t, longer, t'', busy);
  }

  lemma GoesOne(t: Thread, t': Thread, busy: set<Lock>)
    requires SoloStep(t, t', busy)
    ensures Goes(t, t', busy)
  {
    GoesNowhere(t', busy);
    GoesFirst(t, t', t', busy);
  }

  lemma {:induction false} GoesOn(t: Thread, t': Thread, t'': Thread, busy: set<Lock>)
    requires Goes(t, t', busy) && Goes(t', t'', busy)
    ensures Goes(t, t'', busy)
  {
    var path :| SoloPath(t, path, t', busy);
    PathThenGoes(t, path, t', t'', busy);
  }

  lemma {:induction false} PathThenGoes(t: Thread, path: seq<Thread>, t': Thread, t'': Thread, busy: set<Lock>)
    requires SoloPath(t, path, t', busy) && Goes(t', t'', busy)
    ensures Goes(t, t'', busy)
    decreases |path|
  {
    hide SoloStep, Goes;
    if path != [] {
      PathThenGoes(path[0], path[1..], t', t'', busy);
      GoesFirst(t, path[0], t'', busy);
    }
  }

  lemma {:induction false} StepInside(t: Thread, t': Thread, b: Code, busy: set<Lock>)
    requires SoloStep(t, t', busy)
    ensures SoloStep(Inside(t, b), Inside(t', b), busy)
  {
    var lab: Label :| CodeStep(t.code, lab, t'.code) && t'.held == Effect(lab, t.held)
                      && (lab.Acquire? ==> !Holds(t.held, lab.lock) && lab.lock !in busy);
    assert t.code != Done;
    InsideSteps(t.code, lab, t'.code, b);
    hide CodeStep, Effect, Holds;
  }

  lemma {:induction false} InsideSteps(a: Code, lab: Label, a': Code, b: Code)
    requires CodeStep(a, lab, a')
    ensures CodeStep(Both(a, b), lab, Both(a', b))
  {
  }

  /** What the first half of a sequence does alone, it does with the rest to come. */
  lemma GoesInside(a: Code, h: Held, a': Code, h': Held, b: Code, busy: set<Lock>)
    requires Goes(Thread(a, h), Thread(a', h'), busy)
    ensures Goes(Thread(Both(a, b), h), Thread(Both(a', b), h'), busy)
  {
    var path :| SoloPath(Thread(a, h), path, Thread(a', h'), busy);
    PathInside(Thread(a, h), path, Thread(a', h'), b, busy);
  }

  function Inside(t: Thread, b: Code): Thread {
    Thread(Both(t.code, b), t.held)
  }

  lemma {:induction false} PathInside(t: Thread, path: seq<Thread>, t': Thread, b: Code, busy: set<Lock>)
    requires SoloPath(t, path, t', busy)
    ensures Goes(Inside(t, b), Inside(t', b), busy)
    decreases |path|
  {
    hide SoloStep, Goes, Inside;
    if path == [] {
      GoesNowhere(Inside(t, b), busy);
    } else {
      PathInside(path[0], path[1..], t', b, busy);
      StepInside(t, path[0], b, busy);
      GoesFirst(Inside(t, b), Inside(path[0], b), Inside(t', b), busy);
    }
  }

  // The code can run to its end alone.
  ghost predicate Completes(c: Code, h: Held, h': Held, busy: set<Lock>) {
    Goes(Thread(c, h), Thread(Done, h'), busy)
  }

  lemma DoesThen(a: Code, b: Code, h: Held, between: Held, t: Thread, busy: set<Lock>)
    requires Completes(a, h, between, busy) && Goes(Thread(b, between), t, busy)
    ensures Goes(Thread(Both(a, b), h), t, busy)
  {
    GoesInside(a, h, Done, between, b, busy);
    assert CodeStep(Both(Done, b), Quiet, b);
    GoesOne(Thread(Both(Done, b), between), Thread(b, between), busy);
    hide Goes, SoloStep;
    GoesOn(Thread(Both(a, b), h), Thread(Both(Done, b), between), Thread(b, between), busy);
    GoesOn(Thread(Both(a, b), h), Thread(b, between), t, busy);
  }

  lemma ChoosesLeft(a: Code, b: Code, h: Held, t: Thread, busy: set<Lock>)
    requires Goes(Thread(a, h), t, busy)
    ensures Goes(Thread(Either(a, b), h), t, busy)
  {
    assert CodeStep(Either(a, b), Quiet, a);
    GoesOne(Thread(Either(a, b), h), Thread(a, h), busy);
    GoesOn(Thread(Either(a, b), h), Thread(a, h), t, busy);
  }

  lemma ChoosesRight(a: Code, b: Code, h: Held, t: Thread, busy: set<Lock>)
    requires Goes(Thread(b, h), t, busy)
    ensures Goes(Thread(Either(a, b), h), t, busy)
  {
    assert CodeStep(Either(a, b), Quiet, b);
    GoesOne(Thread(Either(a, b), h), Thread(b, h), busy);
    GoesOn(Thread(Either(a, b), h), Thread(b, h), t, busy);
  }

  lemma SkipsLoop(body: Code, h: Held, busy: set<Lock>)
    ensures Completes(Repeat(body), h, h, busy)
  {
    assert CodeStep(Repeat(body), Quiet, Done);
    GoesOne(Thread(Repeat(body), h), Thread(Done, h), busy);
  }

  lemma EntersLoop(body: Code, h: Held, t: Thread, busy: set<Lock>)
    requires Goes(Thread(Both(body, Forever(body)), h), t, busy)
    ensures Goes(Thread(Forever(body), h), t, busy)
  {
    assert CodeStep(Forever(body), Quiet, Both(body, Forever(body)));
    GoesOne(Thread(Forever(body), h), Thread(Both(body, Forever(body)), h), busy);
    GoesOn(Thread(Forever(body), h), Thread(Both(body, Forever(body)), h), t, busy);
  }

  lemma Takes(l: Lock, h: Held, busy: set<Lock>)
    requires !Holds(h, l) && l !in busy
    ensures Completes(Take(l), h, Holding(l, false, h), busy)
    ensures Completes(Read(l), h, Holding(l, true, h), busy)
  {
    assert CodeStep(Take(l), Acquire(l, false), Done) && CodeStep(Read(l), Acquire(l, true), Done);
    GoesOne(Thread(Take(l), h), Thread(Done, Holding(l, false, h)), busy);
    GoesOne(Thread(Read(l), h), Thread(Done, Holding(l, true, h)), busy);
  }

  lemma Drops(l: Lock, h: Held, busy: set<Lock>)
    ensures Completes(Drop(l), h, Without(h, l), busy)
  {
    assert CodeStep(Drop(l), Release(l), Done);
    GoesOne(Thread(Drop(l), h), Thread(Done, Without(h, l)), busy);
  }

  lemma Uses(l: Lock, writes: bool, h: Held, busy: set<Lock>)
    ensures Completes(Use(l, writes), h, h, busy)
  {
    assert CodeStep(Use(l, writes), Quiet, Done);
    GoesOne(Thread(Use(l, writes), h), Thread(Done, h), busy);
  }

  // ---- One thread of a system ----

  ghost predicate Leads(s: System, s': System) {
    exists run :: Run(run) && run[0] == s && run[|run| - 1] == s'
  }

  // No other thread holds a lock that is not busy.
  ghost predicate OthersHoldOnly(s: System, i: nat, busy: set<Lock>) {
    forall j, l | 0 <= j < |s| && j != i && Holds(s[j].held, l) :: l in busy
  }

  /** What a thread can do alone with some locks busy, it can do beside threads that hold no others. */
  lemma RunsAlone(s: System, i: nat, t: Thread, busy: set<Lock>)
    requires i < |s| && Goes(s[i], t, busy) && OthersHoldOnly(s, i, busy)
    ensures Leads(s, s[i := t])
  {
    var path :| SoloPath(s[i], path, t, busy);
    PathRuns(s, i, path, t, busy);
  }

  lemma {:induction false} PathRuns(s: System, i: nat, path: seq<Thread>, t: Thread, busy: set<Lock>)
    requires i < |s| && SoloPath(s[i], path, t, busy) && OthersHoldOnly(s, i, busy)
    ensures Leads(s, s[i := t])
    decreases |path|
  {
    assert s[i := s[i]] == s;
    if path == [] {
      assert Run([s]);
    } else {
      var next := s[i := path[0]];
      StepsAlone(s, i, s[i], path[0], busy);
      assert Run([s, next]) && [s, next][1] == next;
      assert OthersHoldOnly(next, i, busy);
      hide SoloStep, Step, OthersHoldOnly;
      PathRuns(next, i, path[1..], t, busy);
      assert next[i := t] == s[i := t];
      assert Leads(s, next);
      LeadsOn(s, next, s[i := t]);
    }
  }

  lemma StepsAlone(s: System, i: nat, t: Thread, t': Thread, busy: set<Lock>)
    requires i < |s| && SoloStep(t, t', busy) && OthersHoldOnly(s, i, busy)
    ensures Step(s[i := t], s[i := t'])
  {
    var lab: Label :| CodeStep(t.code, lab, t'.code) && t'.held == Effect(lab, t.held)
               && (lab.Acquire? ==> !Holds(t.held, lab.lock) && lab.lock !in busy);
    var now := s[i := t];
    if lab.Acquire? {
      forall j | 0 <= j < |now|
        ensures if lab.shared then !HoldsAlone(now[j].held, lab.lock) else !Holds(now[j].held, lab.lock)
      {
        if HoldsAlone(now[j].held, lab.lock) { AloneIsHeld(now[j].held, lab.lock); }
      }
      assert Available(now, lab.lock, lab.shared);
    }
    assert s[i := t'] == now[i := Thread(t'.code, Effect(lab, t.held))];
    assert StepBy(now, i, lab, t'.code, s[i := t']) by { hide CodeStep, Effect; }
    hide StepBy;
  }

  lemma LeadsOn(s: System, s': System, s'': System)
    requires Leads(s, s') && Leads(s', s'')
    ensures Leads(s, s'')
  {
    var p :| Run(p) && p[0] == s && p[|p| - 1] == s';
    var q :| Run(q) && q[0] == s' && q[|q| - 1] == s'';
    var r := p + q[1..];
    hide Step;
    forall k {:trigger r[k]} | 0 < k < |r| ensures Step(r[k - 1], r[k]) {
      if k < |p| {
        assert r[k - 1] == p[k - 1] && r[k] == p[k];
      } else {
        assert r[k] == q[k - |p| + 1] && r[k - 1] == q[k - |p|];
      }
    }
    assert Run(r);
  }

  // ---- The two threads ----

  // The player inside its reset: it has the ring and wants the spectrum.
  ghost predicate InReset(t: Thread) {
    t.held == Holding(SpectrumRing, false, Free) && Wanted(t.code) == Wants(SpectrumInfo)
  }

  // The spectrum thread at its third lock: it has the spectrum and wants the ring.
  ghost predicate AtRing(t: Thread) {
    t.held == Holding(SpectrumInfo, false, Holding(DisplayInfo, false, Free)) && Wanted(t.code) == Wants(SpectrumRing)
  }

  /** Inside a sequence the first half's wish is the whole's. */
  lemma GoesInsideTo(a: Code, b: Code, h: Held, t: Thread, busy: set<Lock>) returns (t': Thread)
    requires Goes(Thread(a, h), t, busy)
    ensures Goes(Thread(Both(a, b), h), t', busy) && t'.held == t.held && Wanted(t'.code) == Wanted(t.code)
  {
    GoesInside(a, h, t.code, t.held, b, busy);
    t' := Thread(Both(t.code, b), t.held);
  }

  lemma ResetReaches() returns (t: Thread)
    ensures Goes(Thread(SpectrumReset(), Free), t, {}) && InReset(t)
  {
    var h := Holding(SpectrumRing, false, Free);
    Takes(SpectrumRing, Free, {});
    var clear := Within(SpectrumInfo, Write(SpectrumRing).Then(Write(SpectrumInfo)));
    t := Thread(clear, h);
    GoesNowhere(t, {});
    DoesThen(Take(SpectrumRing), clear, Free, h, t, {});
    t := GoesInsideTo(Take(SpectrumRing).Then(clear), Drop(SpectrumRing), Free, t, {});
    hide Goes;
  }

  lemma CompletesBoth(a: Code, b: Code, h: Held, between: Held, h': Held, busy: set<Lock>)
    requires Completes(a, h, between, busy) && Completes(b, between, h', busy)
    ensures Completes(Both(a, b), h, h', busy)
  {
    hide Goes;
    DoesThen(a, b, h, between, Thread(Done, h'), busy);
  }

  lemma LocksForNextSong()
    ensures Completes(LockForNextSong(), Free, NextSongLocks(), {})
  {
    hide Completes;
    var a := Holding(DatabaseInfo, true, Free);
    var b := Holding(SongQueue, false, a);
    var c := Holding(PlayerInfo, false, b);
    Takes(DatabaseInfo, Free, {});
    Takes(SongQueue, a, {});
    Takes(PlayerInfo, b, {});
    Takes(FrameBuffer, c, {});
    Uses(SongQueue, false, NextSongLocks(), {});
    var code := Read(DatabaseInfo);
    CompletesBoth(code, Take(SongQueue), Free, a, b, {});
    code := code.Then(Take(SongQueue));
    CompletesBoth(code, Take(PlayerInfo), Free, b, c, {});
    code := code.Then(Take(PlayerInfo));
    CompletesBoth(code, Take(FrameBuffer), Free, c, NextSongLocks(), {});
    code := code.Then(Take(FrameBuffer));
    CompletesBoth(code, Look(SongQueue), Free, NextSongLocks(), NextSongLocks(), {});
  }

  lemma TakesSong()
    ensures Completes(TakeSong(), NextSongLocks(), NextSongLocks(), {})
  {
    var h := NextSongLocks();
    hide Completes, NextSongLocks;
    Uses(SongQueue, true, h, {});
    Uses(PlayerInfo, true, h, {});
    Uses(DatabaseInfo, false, h, {});
    CompletesBoth(Write(SongQueue), Write(PlayerInfo), h, h, h, {});
    CompletesBoth(Write(SongQueue).Then(Write(PlayerInfo)), Look(DatabaseInfo), h, h, h, {});
  }

  lemma ReleasesSong()
    ensures Completes(ReleaseSong(), NextSongLocks(), Free, {})
  {
    hide Completes;
    var h := NextSongLocks();
    var a := Without(h, SongQueue);
    var b := Without(a, FrameBuffer);
    var c := Without(b, DatabaseInfo);
    assert Without(c, PlayerInfo) == Free;
    hide NextSongLocks;
    Drops(SongQueue, h, {});
    Uses(DatabaseInfo, false, a, {});
    Uses(FrameBuffer, true, a, {});
    Drops(FrameBuffer, a, {});
    Drops(DatabaseInfo, b, {});
    Uses(PlayerInfo, true, c, {});
    Drops(PlayerInfo, c, {});
    hide Without;
    var code := Drop(SongQueue);
    CompletesBoth(Look(DatabaseInfo), Write(FrameBuffer), a, a, a, {});
    CompletesBoth(code, OpenSong(), h, a, a, {});
    code := code.Then(OpenSong());
    CompletesBoth(code, Drop(FrameBuffer), h, a, b, {});
    code := code.Then(Drop(FrameBuffer));
    CompletesBoth(code, Drop(DatabaseInfo), h, b, c, {});
    code := code.Then(Drop(DatabaseInfo));
    CompletesBoth(code, Write(PlayerInfo), h, c, c, {});
    code := code.Then(Write(PlayerInfo));
    CompletesBoth(code, Drop(PlayerInfo), h, c, Free, {});
  }

  /** Before a song: locks taken, a song found, locks let go, then the reset. */
  lemma BeforeSongReaches() returns (t: Thread)
    ensures Goes(Thread(BeforeSong(SpectrumReset()), Free), t, {}) && InReset(t)
  {
    hide Goes;
    t := ResetReaches();
    var h := NextSongLocks();
    LocksForNextSong();
    TakesSong();
    ReleasesSong();
    SkipsLoop(AwaitSong(), h, {});
    hide LockForNextSong, AwaitSong, TakeSong, ReleaseSong, NextSongLocks, SpectrumReset, Completes;
    var code := LockForNextSong();
    CompletesBoth(code, Repeat(AwaitSong()), Free, h, h, {});
    code := code.Then(Repeat(AwaitSong()));
    CompletesBoth(code, TakeSong(), Free, h, h, {});
    code := code.Then(TakeSong());
    CompletesBoth(code, ReleaseSong(), Free, h, Free, {});
    DoesThen(code.Then(ReleaseSong()), SpectrumReset(), Free, Free, t, {});
  }

  lemma PlayOnReaches(h: Held) returns (t: Thread)
    requires h == Holding(PlayerCommand, false, Free)
    ensures Goes(Thread(PlayOn(SpectrumReset()), h), t, {}) && InReset(t)
  {
    hide Goes;
    var reset := SpectrumReset();
    t := BeforeSongReaches();
    Drops(PlayerCommand, h, {});
    assert Without(h, PlayerCommand) == Free;
    hide BeforeSong, InSong, AfterSong, SpectrumReset, Without;
    ChoosesLeft(BeforeSong(reset), InSong(), Free, t, {});
    ChoosesLeft(BeforeSong(reset).Or(InSong()), AfterSong(), Free, t, {});
    DoesThen(Drop(PlayerCommand), BeforeSong(reset).Or(InSong()).Or(AfterSong()), h, Free, t, {});
  }

  /** Alone, the player gets into its reset. */
  lemma PlayerReaches() returns (t: Thread)
    ensures Goes(Thread(Player(SpectrumReset()), Free), t, {}) && InReset(t)
  {
    hide Goes;
    var reset, h := SpectrumReset(), Holding(PlayerCommand, false, Free);
    t := PlayOnReaches(h);
    Takes(PlayerCommand, Free, {});
    Uses(PlayerCommand, false, h, {});
    GoesNowhere(Thread(Done, h), {});
    hide ReadCommands, PlayOn, SpectrumReset;
    ChoosesRight(ReadCommands(reset), Done, h, Thread(Done, h), {});
    var enter := Take(PlayerCommand).Then(Look(PlayerCommand));
    CompletesBoth(Take(PlayerCommand), Look(PlayerCommand), Free, h, h, {});
    CompletesBoth(enter, Maybe(ReadCommands(reset)), Free, h, h, {});
    var nap := Sleep(PlayerCommand).Then(Drop(PlayerCommand));
    ChoosesRight(nap, PlayOn(reset), h, t, {});
    DoesThen(enter.Then(Maybe(ReadCommands(reset))), nap.Or(PlayOn(reset)), Free, h, t, {});
    t := GoesInsideTo(PlayerTurn(reset), Forever(PlayerTurn(reset)), Free, t, {});
    EntersLoop(PlayerTurn(reset), Free, t, {});
  }

  /** With the ring busy, the spectrum thread gets as far as its third lock. */
  lemma SpectrumReaches() returns (t: Thread)
    ensures Goes(Thread(SpectrumMonitor(), Free), t, {SpectrumRing}) && AtRing(t)
  {
    hide Goes;
    var busy := {SpectrumRing};
    var a := Holding(DisplayInfo, false, Free);
    var b := Holding(SpectrumInfo, false, a);
    var prepare := PrepareSpectrum();
    var reach := Take(SpectrumInfo).Then(prepare);
    t := Thread(prepare, b);
    GoesNowhere(t, busy);
    Takes(SpectrumInfo, a, busy);
    Takes(DisplayInfo, Free, busy);
    hide AwaitSpectrum;
    DoesThen(Take(SpectrumInfo), prepare, a, b, t, busy);
    t := GoesInsideTo(reach, RenderSpectrum(), a, t, busy);
    DoesThen(Take(DisplayInfo), reach.Then(RenderSpectrum()), Free, a, t, busy);
    t := GoesInsideTo(Take(DisplayInfo).Then(reach.Then(RenderSpectrum())), Drop(DisplayInfo), Free, t, busy);
    t := GoesInsideTo(SpectrumTurn(), SpectrumMonitor(), Free, t, busy);
    EntersLoop(SpectrumTurn(), Free, t, busy);
  }

  /**
   In every system that runs the spectrum thread and the player, whatever its other threads are, some
   run leads to a circular wait between the two.
   */
  lemma SpectrumThreadLocksUp(codes: seq<Code>, i: nat, j: nat) returns (run: seq<System>)
    requires i < |codes| && j < |codes| && codes[i] == SpectrumMonitor() && codes[j] == Player(SpectrumReset())
    ensures Run(run) && run[0] == Start(codes)
    ensures CircularWait(run[|run| - 1], [i, j])
  {
    var s := Start(codes);
    var player := PlayerReaches();
    var monitor := SpectrumReaches();
    hide Goes;
    assert i != j by { assert SpectrumMonitor().body != Player(SpectrumReset()).body; }
    hide SpectrumMonitor, Player, SpectrumReset;
    RunsAlone(s, j, player, {});
    var s1 := s[j := player];
    RunsAlone(s1, i, monitor, {SpectrumRing});
    var s2 := s1[i := monitor];
    LeadsOn(s, s1, s2);
    assert WaitsFor(s2, i, j) && WaitsFor(s2, j, i);
    hide Step, WaitsFor;
    run :| Run(run) && run[0] == s && run[|run| - 1] == s2;
  }
}
