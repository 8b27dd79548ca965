/**
 What the commands do to the player: it acts or waits as the last PLAY, PAUSE or STOP says, a waiting player
 takes nothing until it is told to play or skip, and a sleeping decoder is woken when it is needed. Said of the
 steps the threads can take, not of how a command is obeyed.
 */
module PlaybackCommands {
  import opened Common
  import opened Playback

  predicate Controls(c: Command) {
    c == PLAY || c == PAUSE || c == STOP
  }

  /** The last command of a batch that says whether to play. */
  function LastControl(batch: seq<Command>): Option<Command> {
    if batch == [] then None
    else if Controls(batch[|batch| - 1]) then Some(batch[|batch| - 1])
    else LastControl(batch[..|batch| - 1])
  }

  /** The last one of a whole run. */
  function LastTold(steps: seq<Step>): Option<Command> {
    if steps == [] then None
    else
      var a, before := steps[|steps| - 1], LastTold(steps[..|steps| - 1]);
      if a.Commands? && LastControl(a.batch).Some? then LastControl(a.batch) else before
  }

  /** No command that would set a waiting player going again. */
  ghost predicate NoStart(steps: seq<Step>) {
    forall i | 0 <= i < |steps| && steps[i].Commands? :: PLAY !in steps[i].batch && SKIP !in steps[i].batch
  }

  // ---- One batch ----

  lemma {:induction false} LastControlAppend(batch: seq<Command>, rest: seq<Command>)
    ensures LastControl(batch + rest) == if LastControl(rest).Some? then LastControl(rest) else LastControl(batch)
  {
    if rest == [] {
      assert batch + rest == batch;
    } else {
      assert (batch + rest)[..|batch + rest| - 1] == batch + rest[..|rest| - 1];
      LastControlAppend(batch, rest[..|rest| - 1]);
    }
  }

  function InfoAfter(info: PlayerState, last: Option<Command>): PlayerState {
    match last
    case Some(PLAY) => StatePlay
    case Some(PAUSE) => StatePause
    case Some(STOP) => StateStop
    case _ => info
  }

  /** What a batch does to the player's side of the state, and to the decoder's sleep. */
  ghost predicate Sets(s: State, batch: seq<Command>, t: State) {
    && t.info == InfoAfter(s.info, LastControl(batch))
    && t.play == (if SKIP in batch && s.play == InSong then AfterSong else s.play)
    && t.consumed == s.consumed && t.pAt == s.pAt
    && (t.dAt == s.dAt || (s.dAt == Asleep && t.dAt == Rechecking))
    && (PLAY in batch || STOP in batch ==> t.dAt != Asleep)
    && (SKIP in batch || STOP in batch ==> t.frames == [] && t.pcmSize == 0)
    && (SKIP !in batch && STOP !in batch ==> t.frames == s.frames && t.pcmSize == s.pcmSize)
  }

  lemma {:induction false} OneSets(s: State, c: Command)
    ensures Sets(s, [c], Obey(s, c))
  {
    assert [c][..0] == [] && LastControl([]) == None;
    assert LastControl([c]) == if Controls(c) then Some(c) else None;
  }

  lemma {:induction false} SetsJoin(s: State, c: Command, u: State, rest: seq<Command>, t: State)
    requires Sets(s, [c], u) && Sets(u, rest, t)
    ensures Sets(s, [c] + rest, t)
  {
    hide LastControl;
    LastControlAppend([c], rest);
    LastIsThere(rest);
    assert forall d :: d in [c] + rest <==> d == c || d in rest;
  }

  lemma {:induction false} BatchSets(s: State, batch: seq<Command>)
    requires !s.crashed && !ObeyAll(s, batch).crashed
    ensures Sets(s, batch, ObeyAll(s, batch))
    decreases |batch|
  {
    hide Sets, Obey;
    if batch == [] {
      NoneSets(s);
    } else {
      var c, rest := batch[0], batch[1..];
      assert batch == [c] + rest;
      OneSets(s, c);
      var u := Obey(s, c);
      assert u.crashed ==> ObeyAll(u, rest) == u;
      BatchSets(u, rest);
      SetsJoin(s, c, u, rest, ObeyAll(u, rest));
    }
  }

  lemma NoneSets(s: State)
    ensures Sets(s, [], s)
  {
  }

  /**
   A player inside a song, told to pause or stop, waits; told to play, it acts, and takes a frame if there is
   one or else waits for data. Commands of other kinds leave the state as it was.
   */
  lemma {:induction false} BatchDecides(s: State, batch: seq<Command>)
    requires Enabled(s, Commands(batch)) && s.play == InSong && SKIP !in batch
    ensures var t, last := Apply(s, Commands(batch)), LastControl(batch);
            && !t.crashed && t.play == InSong && t.consumed == s.consumed
            && (last == Some(PAUSE) || last == Some(STOP) ==> t.pAt == Paused)
            && (last == Some(PLAY) ==>
                  && t.pAt == Acting
                  && (Enabled(t, TakeFrame) <==> t.frames != []) && (Enabled(t, WaitForData) <==> t.frames == []))
  {
    hide ObeyAll, Obey;
    BatchCrashes(s, batch);
    BatchSets(s, batch);
  }

  /** A skip inside a song empties the buffer and ends the song at once; the frames taken are what they were. */
  lemma {:induction false} SkipEndsSong(s: State, batch: seq<Command>)
    requires Enabled(s, Commands(batch)) && s.play == InSong && s.started > 0 && SKIP in batch
    ensures var t := Apply(s, Commands(batch));
            && !t.crashed && t.frames == [] && t.pcmSize == 0 && t.consumed == s.consumed
            && (t.pAt == Acting ==> Enabled(t, FinishSong)) && !Enabled(t, TakeFrame)
  {
    hide ObeyAll, Obey;
    BatchCrashes(s, batch);
    BatchSets(s, batch);
  }

  // ---- Until told otherwise ----

  /** Inside a song, and not told to play. */
  ghost predicate Halted(s: State) {
    s.play == InSong && s.info != StatePlay && (s.pAt == Top || s.pAt == Paused)
  }

  lemma {:induction false} StepKeepsHalted(s: State, a: Step)
    requires Halted(s) && Enabled(s, a) && (a.Commands? ==> PLAY !in a.batch && SKIP !in a.batch)
    ensures Halted(Apply(s, a)) && Apply(s, a).consumed == s.consumed
  {
    hide ObeyAll, CloseIfEof, Deposit;
    if a.Commands? {
      BatchCrashes(s, a.batch);
      BatchSets(s, a.batch);
      LastIsThere(a.batch);
    }
    SectionKeepsPlayer(s);
  }

  lemma {:induction false} LastIsThere(batch: seq<Command>)
    ensures LastControl(batch).Some? ==> LastControl(batch).value in batch && Controls(LastControl(batch).value)
  {
    if batch != [] { LastIsThere(batch[..|batch| - 1]); }
  }

  lemma SectionKeepsPlayer(s: State)
    requires s.pAt != WaitingData
    ensures var t := Deposit(CloseIfEof(s));
            t.play == s.play && t.info == s.info && t.pAt == s.pAt && t.consumed == s.consumed && t.crashed == s.crashed
  {
    hide CloseIfEof, Deposit;
    CloseKeepsPlayer(s);
    DepositKeepsPlayer(CloseIfEof(s));
  }

  lemma CloseKeepsPlayer(s: State)
    ensures var t := CloseIfEof(s);
            t.play == s.play && t.info == s.info && t.pAt == s.pAt && t.consumed == s.consumed && t.crashed == s.crashed
  {
  }

  lemma DepositKeepsPlayer(s: State)
    ensures var t := Deposit(s);
            t.play == s.play && t.info == s.info && t.consumed == s.consumed && t.crashed == s.crashed
            && (s.pAt != WaitingData ==> t.pAt == s.pAt)
  {
    hide WakePlayer;
    if s.inFlight.Some? {
      var f := s.inFlight.value;
      var s1 :=
        if !f.Terminal() then s.(pcmSize := s.pcmSize + f.size)
        else if s.decoder.Some? then s.(decoder := None, songEof := false) else s;
      WakeKeepsPlayer(s1);
    }
  }

  lemma WakeKeepsPlayer(s: State)
    ensures var t := WakePlayer(s);
            t.play == s.play && t.info == s.info && t.consumed == s.consumed && t.crashed == s.crashed
            && (s.pAt != WaitingData ==> t.pAt == s.pAt)
  {
  }

  lemma {:induction false} HaltedStays(s: State, steps: seq<Step>, t: State)
    requires Halted(s) && Run(s, steps, t) && NoStart(steps)
    ensures Halted(t) && t.consumed == s.consumed
    decreases |steps|
  {
    hide Halted, Enabled, Apply;
    if steps != [] {
      StepKeepsHalted(s, steps[0]);
      HaltedStays(Apply(s, steps[0]), steps[1..], t);
    }
  }

  /**
   Once told to pause or stop inside a song, the player takes no frame, ends no song and starts none, in any
   run, until a batch with PLAY or SKIP is obeyed.
   */
  lemma {:induction false} PauseHolds(s: State, batch: seq<Command>, steps: seq<Step>, t: State)
    requires Enabled(s, Commands(batch)) && s.play == InSong && SKIP !in batch
    requires LastControl(batch) == Some(PAUSE) || LastControl(batch) == Some(STOP)
    requires Run(Apply(s, Commands(batch)), steps, t) && NoStart(steps)
    ensures t.consumed == s.consumed && t.play == InSong && (t.pAt == Top || t.pAt == Paused)
    ensures !Enabled(t, TakeFrame) && !Enabled(t, HandleFrame) && !Enabled(t, WaitForData)
    ensures !Enabled(t, FinishSong) && !Enabled(t, StartSong)
  {
    hide ObeyAll, Obey, Run, NoStart;
    BatchCrashes(s, batch);
    BatchSets(s, batch);
    HaltedStays(Apply(s, Commands(batch)), steps, t);
  }

  // ---- A whole run ----

  lemma {:induction false} StepSets(s: State, a: Step)
    requires Enabled(s, a) && !Apply(s, a).crashed
    ensures Apply(s, a).info == InfoAfter(s.info, if a.Commands? then LastControl(a.batch) else None)
  {
    hide ObeyAll, CloseIfEof, Deposit;
    if a.Commands? { BatchSets(s, a.batch); }
    CloseKeepsPlayer(s);
    DepositKeepsPlayer(CloseIfEof(s));
  }

  lemma {:induction false} RunSplits(s: State, steps: seq<Step>, t: State) returns (u: State)
    requires Run(s, steps, t) && steps != []
    ensures Run(s, steps[..|steps| - 1], u) && Enabled(u, steps[|steps| - 1]) && Apply(u, steps[|steps| - 1]) == t
    decreases |steps|
  {
    hide Enabled, Apply;
    if |steps| == 1 {
      u := s;
      assert steps[1..] == [] && steps[..0] == [];
    } else {
      u := RunSplits(Apply(s, steps[0]), steps[1..], t);
      assert steps[1..][..|steps| - 2] == steps[..|steps| - 1][1..];
    }
  }

  lemma {:induction false} RunSets(steps: seq<Step>, t: State)
    requires Run(Init(), steps, t) && !t.crashed
    ensures t.info == InfoAfter(StateBigStop, LastTold(steps))
    decreases |steps|
  {
    hide Enabled, Apply, Run;
    if steps == [] {
      assert t == Init() by { NoSteps(Init(), t); }
    } else {
      var u := RunSplits(Init(), steps, t);
      assert !u.crashed by { StepNeedsLife(u, steps[|steps| - 1]); }
      RunSets(steps[..|steps| - 1], u);
      StepSets(u, steps[|steps| - 1]);
      LastToldControls(steps[..|steps| - 1]);
      if steps[|steps| - 1].Commands? { LastIsThere(steps[|steps| - 1].batch); }
    }
  }

  lemma NoSteps(s: State, t: State)
    requires Run(s, [], t)
    ensures s == t
  {
  }

  lemma StepNeedsLife(s: State, a: Step)
    requires Enabled(s, a)
    ensures !s.crashed
  {
  }

  lemma {:induction false} LastToldControls(steps: seq<Step>)
    ensures LastTold(steps).Some? ==> Controls(LastTold(steps).value)
  {
    if steps != [] {
      LastToldControls(steps[..|steps| - 1]);
      if steps[|steps| - 1].Commands? { LastIsThere(steps[|steps| - 1].batch); }
    }
  }

  /**
   In every run, whenever the player has read its commands, it waits exactly if it was never told anything,
   or is inside a song and was last told to pause or stop.
   */
  lemma {:induction false} PlayerObeysLast(steps: seq<Step>, batch: seq<Command>, t: State)
    requires Run(Init(), steps + [Commands(batch)], t) && !t.crashed
    ensures var last := LastTold(steps + [Commands(batch)]);
            t.pAt == if last.None? || (t.play == InSong && last != Some(PLAY)) then Paused else Acting
  {
    hide ObeyAll, Run;
    var all := steps + [Commands(batch)];
    RunSets(all, t);
    LastToldControls(all);
    var u := RunSplits(Init(), all, t);
  }

  // ---- Waking the decoder ----

  /** Told to play or stop, the player leaves no decoder asleep. */
  lemma {:induction false} PlayWakesDecoder(s: State, batch: seq<Command>)
    requires Enabled(s, Commands(batch)) && !Apply(s, Commands(batch)).crashed && (PLAY in batch || STOP in batch)
    ensures Apply(s, Commands(batch)).dAt != Asleep
  {
    hide ObeyAll;
    BatchSets(s, batch);
  }

  /** A song start and a player out of data leave no decoder asleep. */
  lemma StartWakesDecoder(s: State)
    ensures Enabled(s, StartSong) ==> Apply(s, StartSong).dAt != Asleep
    ensures Enabled(s, WaitForData) ==> Apply(s, WaitForData).dAt != Asleep
  {
  }

  /** Once a frame has been played, a decoder is left asleep only while the buffer is nine tenths full both ways. */
  lemma PlayedFrameWakesDecoder(s: State)
    requires Enabled(s, TakeFrame)
    ensures Enabled(Apply(s, TakeFrame), HandleFrame)
    ensures var t := Apply(Apply(s, TakeFrame), HandleFrame);
            t.dAt == Asleep <==> s.dAt == Asleep && 10 * |t.frames| >= 9 * 2048 && 10 * t.pcmSize >= 9 * 1048576
  {
  }

  /** The decoder goes on without sleeping exactly below 2048 frames and a megabyte, with a song to decode. */
  lemma DecoderSleepsWhenFull(s: State)
    requires Enabled(s, DecoderRechecks)
    ensures Apply(s, DecoderRechecks).dAt
            == if |s.frames| < 2048 && s.pcmSize < 1048576 && (s.decoder.Some? || s.newFile) then Unlocked else Asleep
  {
  }

  /** A song goes on after data and after a recoverable error, -1; 0 and -2 or less end it. */
  lemma SongEndsExactly(s: State)
    requires Enabled(s, HandleFrame) && s.play == InSong
    ensures var t := Apply(s, HandleFrame);
            t.play == if s.pAt.f.size > 0 || s.pAt.f.size == -1 then InSong else AfterSong
  {
  }

  /** Whatever state the buffer is in, the player takes its first frame, and the rest stay in order. */
  lemma TakesFirst(s: State)
    requires Enabled(s, TakeFrame)
    ensures var t := Apply(s, TakeFrame);
            && t.consumed == s.consumed + [s.frames[0]] && [s.frames[0]] + t.frames == s.frames
            && t.pcmSize == s.pcmSize - s.frames[0].size
  {
  }

  predicate Ends(f: Option<Frame>) {
    f.Some? && (f.value.size == 0 || f.value.size <= -2)
  }

  lemma DepositDelivers(s: State)
    ensures var t, f := Deposit(s), s.inFlight;
            && t.frames == s.frames + (if f.Some? then [f.value] else []) && t.inFlight == None
            && t.pcmSize == s.pcmSize + (if f.Some? && !Ends(f) then f.value.size else 0)
            && t.newFile == s.newFile && t.fileSong == s.fileSong
            && t.decoder == (if Ends(f) then None else s.decoder)
            && t.songEof == (s.songEof && !(Ends(f) && s.decoder.Some?))
            && t.pAt == (if s.pAt == WaitingData && s.frames == [] && f.Some? then Top else s.pAt)
  {
    if s.inFlight.Some? {
      var f := s.inFlight.value;
      var s1 :=
        if !f.Terminal() then s.(pcmSize := s.pcmSize + f.size)
        else if s.decoder.Some? then s.(decoder := None, songEof := false) else s;
      var s2 := if s1.frames == [] then WakePlayer(s1) else s1;
      assert Deposit(s) == s2.(frames := s2.frames + [f], inFlight := None);
      assert s2 == s1.(pAt := if s.pAt == WaitingData && s.frames == [] then Top else s.pAt);
      hide Deposit, WakePlayer;
    }
  }

  lemma SleepDelivers(s: State)
    ensures var t := SleepUnlessReady(PickUpFile(s));
            && t.frames == s.frames && t.inFlight == s.inFlight && t.pcmSize == s.pcmSize && !t.newFile
            && t.decoder == (if s.newFile then Some(s.fileSong) else s.decoder)
            && t.songEof == s.songEof && t.pAt == s.pAt
  {
  }

  /**
   The decoder's section appends the frame in hand, counts its data, closes the decoder after a skip or a last
   frame, and then installs a new song's whether the old one is closed or not. It wakes a waiting player with
   the first frame of an empty buffer.
   */
  lemma SectionDelivers(s: State)
    requires Enabled(s, DecoderSection)
    ensures var t, f := Apply(s, DecoderSection), s.inFlight;
            var ends := f.Some? && (f.value.size == 0 || f.value.size <= -2);
            && t.frames == s.frames + (if f.Some? then [f.value] else []) && t.inFlight == None
            && t.pcmSize == s.pcmSize + (if f.Some? && !ends then f.value.size else 0)
            && !t.newFile
            && t.decoder == (if s.newFile then Some(s.fileSong) else if s.songEof || ends then None else s.decoder)
            && t.songEof == (s.songEof && s.decoder.None?)
            && t.pAt == (if s.pAt == WaitingData && s.frames == [] && f.Some? then Top else s.pAt)
  {
    hide Deposit, SleepUnlessReady, PickUpFile;
    DepositDelivers(CloseIfEof(s));
    SleepDelivers(Deposit(CloseIfEof(s)));
  }
}
