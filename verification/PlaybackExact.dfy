/**
 Why the order theorem asks for clean moments: a song start or a stop keeps order in every continuation
 exactly when it is clean. Otherwise a frame of the past is played, or the song is left without an end.
 */
module PlaybackExact {
  import opened Common
  import opened Playback
  import opened PlaybackOrder

  // ---- What a continuation must keep ----

  /** What was taken since `c` and what is buffered are one history from the song's first frame on. */
  ghost predicate OrderKept(t: State, song: nat, c: nat) {
    Chain(Since(t.consumed, c) + t.frames, song)
  }

  /** The song being played still has a source, or its terminal frame in the buffer. */
  ghost predicate NotStranded(t: State) {
    t.play == InSong && !Done(t) ==>
      t.newFile || t.decoder.Some? || t.inFlight.Some? || exists k :: 0 <= k < |t.frames| && t.frames[k].Terminal()
  }

  /** `t` is reached from `s` by steps that obey PLAY and PAUSE alone. */
  ghost predicate Reaches(s: State, t: State) {
    exists steps :: Run(s, steps, t) && PlayPauseOnly(steps)
  }

  /** In every continuation without SKIP and STOP, order is kept and no song is left without an end. */
  ghost predicate StaysInOrder(s: State, song: nat, c: nat) {
    forall t :: Reaches(s, t) ==> OrderKept(t, song, c) && NotStranded(t)
  }

  lemma InvKeepsOrder(t: State, m: Mark)
    requires Inv(t, m)
    ensures OrderKept(t, m.song, m.consumed) && NotStranded(t)
  {
    hide NextOf;
    var c := Since(t.consumed, m.consumed);
    ChainSplits(c + t.frames, Flight(t), m.song);
    if t.play == InSong && !Done(t) && !t.newFile && t.decoder.None? {
      assert c + t.frames + [] == c + t.frames;
      EndIsBuffered(c, t.frames, m.song, t.started);
    }
    hide Chain, Since;
  }

  lemma EndIsBuffered(c: seq<Frame>, frames: seq<Frame>, first: nat, started: nat)
    requires started >= 1 && NextOf(c, first).0 == started - 1 && NextOf(c + frames, first) == (started, 0)
    ensures exists k :: 0 <= k < |frames| && frames[k].Terminal()
  {
    assert frames == [] ==> c + frames == c;
    if frames != [] {
      assert (c + frames)[|c + frames| - 1] == frames[|frames| - 1];
      assert frames[|frames| - 1].Terminal();
    }
  }

  lemma InvStaysInOrder(s: State, m: Mark)
    requires Inv(s, m)
    ensures StaysInOrder(s, m.song, m.consumed)
  {
    forall t | Reaches(s, t) ensures OrderKept(t, m.song, m.consumed) && NotStranded(t) {
      var steps :| Run(s, steps, t) && PlayPauseOnly(steps);
      PlayPauseRunKeepsInv(s, m, steps, t);
      InvKeepsOrder(t, m);
    }
  }

  // ---- Continuations built step by step ----

  lemma {:induction false} RunExtends(s: State, steps: seq<Step>, t: State, a: Step)
    requires Run(s, steps, t) && Enabled(t, a)
    ensures Run(s, steps + [a], Apply(t, a))
    ensures PlayPauseOnly(steps) && PlayPauseStep(a) ==> PlayPauseOnly(steps + [a])
    decreases |steps|
  {
    hide Enabled, Apply, PlayPauseStep;
    if steps == [] {
      assert [a][1..] == [];
      assert t == s && Run(Apply(s, a), [], Apply(t, a));
    } else {
      assert (steps + [a])[1..] == steps[1..] + [a];
      RunExtends(Apply(s, steps[0]), steps[1..], t, a);
    }
  }

  lemma ReachesItself(s: State)
    ensures Reaches(s, s)
  {
    assert Run(s, [], s) && PlayPauseOnly([]);
  }

  lemma ThenStep(s: State, t: State, a: Step)
    requires Reaches(s, t) && Enabled(t, a) && PlayPauseStep(a)
    ensures Reaches(s, Apply(t, a))
  {
    var steps :| Run(s, steps, t) && PlayPauseOnly(steps);
    RunExtends(s, steps, t, a);
    hide *;
  }

  /** One continuation that breaks order, or strands the song, is enough. */
  lemma Breaks(s: State, t: State, song: nat, c: nat)
    requires Reaches(s, t) && !(OrderKept(t, song, c) && NotStranded(t))
    ensures !StaysInOrder(s, song, c)
  {
    hide OrderKept, NotStranded, Reaches;
  }

  /** An awake decoder with room decodes one frame of its song and delivers it. */
  lemma DecodesOne(s: State, t: State) returns (u: State)
    requires Reaches(s, t) && t.frames == [] && t.pcmSize == 0 && t.inFlight.None? && t.decoder.Some?
    requires !t.crashed && (t.dAt == Unlocked || t.dAt == Rechecking)
    ensures Reaches(s, u) && u.consumed == t.consumed && u.play == t.play && u.started == t.started && u.inFlight.None?
    ensures u.frames == [Frame(t.decoder.value, Position(t, t.decoder.value), 4)]
    ensures t.songEof && !t.newFile ==> u.decoder.None? && !u.newFile && u.dAt == Asleep && !u.songEof
    ensures u.pAt == if t.pAt == WaitingData then Top else t.pAt
    ensures u.info == t.info && u.fileSong == t.fileSong && !u.crashed
  {
    hide Reaches;
    var awake := t.(dAt := Unlocked);
    if t.dAt == Rechecking {
      assert Apply(t, DecoderRechecks) == awake;
      ThenStep(s, t, DecoderRechecks);
    }
    ThenStep(s, awake, Decode(4));
    var d := Apply(awake, Decode(4));
    ThenStep(s, d, DecoderSection);
    u := Apply(d, DecoderSection);
  }

  // ---- Song starts ----

  /** A frame in flight at the start is delivered into the new song. */
  lemma LateFrameArrives(s: State)
    requires Idle(s) && Enabled(s, StartSong) && s.inFlight.Some?
    ensures !StaysInOrder(Apply(s, StartSong), s.started, |s.consumed|)
  {
    var t := Apply(s, StartSong);
    ReachesItself(t);
    ThenStep(t, t, DecoderSection);
    var u := Apply(t, DecoderSection);
    assert u.frames == [s.inFlight.value] && u.consumed == s.consumed;
    assert (Since(u.consumed, |s.consumed|) + u.frames)[0] == s.inFlight.value;
    assert !OrderKept(u, s.started, |s.consumed|);
    Breaks(t, u, s.started, |s.consumed|);
    hide *;
  }

  /** A decoder left open at the start decodes one more frame of the old song. */
  lemma OldDecoderGoesOn(s: State)
    requires Idle(s) && Enabled(s, StartSong) && s.inFlight.None? && s.decoder.Some?
    ensures !StaysInOrder(Apply(s, StartSong), s.started, |s.consumed|)
  {
    var t := Apply(s, StartSong);
    ReachesItself(t);
    var u := DecodesOne(t, t);
    assert (Since(u.consumed, |s.consumed|) + u.frames)[0].song == s.decoder.value;
    assert !OrderKept(u, s.started, |s.consumed|);
    Breaks(t, u, s.started, |s.consumed|);
    hide *;
  }

  /** A skip not yet seen by the decoder closes the new song's decoder after one frame. */
  lemma NewSongIsClosed(s: State) returns (u: State)
    requires Idle(s) && Enabled(s, StartSong) && s.inFlight.None? && s.decoder.None? && s.songEof
    ensures Reaches(Apply(s, StartSong), u) && Stranded(u)
    ensures u.consumed == s.consumed && u.frames == [Frame(s.started, 0, 4)]
    ensures u.dAt == Asleep && u.pAt == Top && u.info == s.info && !u.crashed
  {
    var t := Apply(s, StartSong);
    ReachesItself(t);
    var v := t.(dAt := Unlocked);
    if t.dAt == Rechecking {
      assert Apply(t, DecoderRechecks) == v;
      ThenStep(t, t, DecoderRechecks);
    }
    ThenStep(t, v, DecoderSection);
    u := DecodesOne(t, Apply(v, DecoderSection));
    hide Reaches;
  }

  /**
   A start after any good past keeps order, and its song keeps a source, in every continuation without
   SKIP and STOP exactly when it is clean: no skip unseen, no decoder open and no frame in flight.
   */
  lemma CleanStartExactly(s: State, m: Mark)
    requires Good(s, m) && Enabled(s, StartSong)
    ensures CleanStart(s) <==> StaysInOrder(Apply(s, StartSong), s.started, |s.consumed|)
  {
    if CleanStart(s) {
      StartBeginsHistory(s, m);
      InvStaysInOrder(Apply(s, StartSong), Here(s, s.started));
    } else if Inv(s, m) {
      assert false by { hide Chain, NextOf, Since; }
    } else if s.inFlight.Some? {
      LateFrameArrives(s);
    } else if s.decoder.Some? {
      OldDecoderGoesOn(s);
    } else {
      var u := NewSongIsClosed(s);
      Breaks(Apply(s, StartSong), u, s.started, |s.consumed|);
    }
    hide *;
  }

  // ---- A song left without an end ----

  /** The song can neither go on nor end: no source, nothing on its way, no terminal frame. */
  ghost predicate Stranded(s: State) {
    && s.play == InSong && !s.newFile && s.decoder.None? && s.inFlight.None? && s.dAt != AtLock
    && !(s.pAt.Handling? && s.pAt.f.Terminal())
    && forall k | 0 <= k < |s.frames| :: !s.frames[k].Terminal()
  }

  lemma {:induction false} BatchKeepsStranded(s: State, batch: seq<Command>)
    requires Stranded(s) && Harmless(batch)
    ensures Stranded(ObeyAll(s, batch))
    ensures ObeyAll(s, batch).decoded == s.decoded && ObeyAll(s, batch).started == s.started
    decreases |batch|
  {
    if batch != [] { BatchKeepsStranded(Obey(s, batch[0]), batch[1..]); }
  }

  lemma StepKeepsStranded(s: State, a: Step)
    requires Stranded(s) && Enabled(s, a) && PlayPauseStep(a)
    ensures Stranded(Apply(s, a)) && Apply(s, a).decoded == s.decoded && Apply(s, a).started == s.started
  {
    if a.Commands? {
      BatchKeepsStranded(s, a.batch);
      hide ObeyAll;
    }
  }

  /** Without SKIP and STOP a stranded song stays the current one for good, and nothing more is decoded. */
  lemma {:induction false} StrandedForGood(s: State, steps: seq<Step>, t: State)
    requires Stranded(s) && Run(s, steps, t) && PlayPauseOnly(steps)
    ensures Stranded(t) && t.decoded == s.decoded && t.started == s.started
    decreases |steps|
  {
    hide Stranded, Enabled, Apply, PlayPauseStep;
    if steps != [] {
      StepKeepsStranded(s, steps[0]);
      StrandedForGood(Apply(s, steps[0]), steps[1..], t);
    }
  }

  // ---- Stops ----

  /**
   The song's terminal frame, already buffered, is thrown away: nothing is left to end it. The seek back to
   the song's start uses decoder data that the decoder's close has freed.
   */
  lemma EndIsThrownAway(s: State, m: Mark)
    requires Inv(s, m) && s.pAt == Top && s.play == InSong && !s.newFile && s.decoder.None?
    ensures Stranded(Apply(s, Commands([STOP])))
  {
    hide Chain, NextOf, Since, CountedBytes;
    StopAlone(s);
  }

  lemma StopAlone(s: State)
    requires s.pAt == Top && !s.crashed
    ensures Apply(s, Commands([STOP])) == PauseOrAct(Obey(s, STOP))
  {
    var c := [STOP];
    assert c[1..] == [];
    assert ObeyAll(Obey(s, STOP), c[1..]) == Obey(s, STOP);
    assert ObeyAll(s, c) == ObeyAll(Obey(s, c[0]), c[1..]);
    hide Obey, PauseOrAct;
  }

  /** A frame in flight from further on arrives first. */
  lemma LaterFrameArrives(s: State, m: Mark)
    requires Inv(s, m) && s.pAt == Top && s.play == InSong && s.inFlight.Some? && s.inFlight.value.index != 0
    ensures !StaysInOrder(Apply(s, Commands([STOP])), s.fileSong, |s.consumed|)
  {
    hide Chain, NextOf, Since, CountedBytes;
    StopAlone(s);
    var t := PauseOrAct(Obey(s, STOP));
    ReachesItself(t);
    ThenStep(t, t, DecoderSection);
    var u := Apply(t, DecoderSection);
    assert u.frames == [s.inFlight.value] && u.consumed == s.consumed;
    NotFromStart(u, s.fileSong, |s.consumed|);
    Breaks(t, u, s.fileSong, |s.consumed|);
    hide *;
  }

  lemma NotFromStart(u: State, song: nat, c: nat)
    requires c == |u.consumed| && u.frames != [] && u.frames[0].index != 0
    ensures !OrderKept(u, song, c)
  {
    assert (Since(u.consumed, c) + u.frames)[0] == u.frames[0];
  }

  /** A first frame in flight is delivered, played, and then decoded again. */
  lemma FirstFrameTwice(s: State, m: Mark)
    requires Inv(s, m) && s.pAt == Top && s.play == InSong && s.decoder.Some?
    requires s.inFlight.Some? && s.inFlight.value.index == 0 && !s.inFlight.value.Terminal()
    ensures !StaysInOrder(Apply(s, Commands([STOP])), s.fileSong, |s.consumed|)
  {
    hide Chain, NextOf, Since, CountedBytes;
    StopAlone(s);
    var t, f := PauseOrAct(Obey(s, STOP)), s.inFlight.value;
    ReachesItself(t);
    ThenStep(t, t, DecoderSection);
    var u := Apply(t, DecoderSection);
    var v := PlaysOne(t, u);
    var w := DecodesOne(t, v);
    assert w.consumed == s.consumed + [f] && w.frames == [Frame(s.decoder.value, 0, 4)];
    FrameTwice(w, s.consumed, f);
    Breaks(t, w, s.fileSong, |s.consumed|);
    hide *;
  }

  lemma FrameTwice(w: State, c: seq<Frame>, f: Frame)
    requires w.consumed == c + [f] && w.frames != [] && !f.Terminal() && w.frames[0].index == 0
    ensures !OrderKept(w, f.song, |c|)
  {
    var h := Since(w.consumed, |c|) + w.frames;
    assert h[0] == f && h[1] == w.frames[0];
    assert !Follows(h[1 - 1], h[1]);
  }

  /** The player resumes, plays the one frame there is and wakes the decoder. */
  lemma PlaysOne(s: State, t: State) returns (u: State)
    requires Reaches(s, t) && t.pAt == Paused && t.play == InSong && t.dAt != AtLock && |t.frames| == 1
    requires !t.frames[0].Terminal() && t.pcmSize == t.frames[0].size && !t.crashed
    ensures Reaches(s, u) && u.frames == [] && u.pcmSize == 0 && u.dAt in {Unlocked, Rechecking}
    ensures u.consumed == t.consumed + t.frames && u.inFlight == t.inFlight && u.decoder == t.decoder
    ensures u.positions == t.positions && !u.crashed
  {
    ThenStep(s, t, PlayerResumes);
    var play := t.(pAt := Top);
    PlayAlone(play);
    ThenStep(s, play, Commands([PLAY]));
    var take := PauseOrAct(Obey(play, PLAY));
    assert take == WakeDecoder(t.(info := StatePlay)).(pAt := Acting);
    u := TakesOne(s, take);
    hide Reaches;
  }

  lemma TakesOne(s: State, t: State) returns (u: State)
    requires Reaches(s, t) && t.pAt == Acting && t.play == InSong && t.dAt != AtLock && |t.frames| == 1
    requires !t.frames[0].Terminal() && t.pcmSize == t.frames[0].size && !t.crashed
    ensures Reaches(s, u) && u.frames == [] && u.pcmSize == 0 && u.dAt in {Unlocked, Rechecking}
    ensures u.consumed == t.consumed + t.frames && u.inFlight == t.inFlight && u.decoder == t.decoder
    ensures u.positions == t.positions && !u.crashed
  {
    ThenStep(s, t, TakeFrame);
    var handle := Apply(t, TakeFrame);
    ThenStep(s, handle, HandleFrame);
    u := Apply(handle, HandleFrame);
    hide Reaches;
  }

  lemma PlayAlone(s: State)
    requires s.pAt == Top && !s.crashed
    ensures Apply(s, Commands([PLAY])) == PauseOrAct(Obey(s, PLAY)) && PlayPauseStep(Commands([PLAY]))
  {
    var c := [PLAY];
    assert c[1..] == [];
    assert ObeyAll(Obey(s, PLAY), c[1..]) == Obey(s, PLAY);
    assert ObeyAll(s, c) == ObeyAll(Obey(s, c[0]), c[1..]);
    hide Obey, PauseOrAct;
  }

  /**
   A stop inside a song starts it over, in order and with a source, in every continuation without SKIP
   and STOP exactly when it is clean: the song's decoder is open or about to be, and no frame of it is in
   flight, unless that frame is all there is of the song.
   */
  lemma CleanStopExactly(s: State, m: Mark)
    requires Inv(s, m) && s.pAt == Top && s.play == InSong
    ensures CleanStop(s) <==> StaysInOrder(Apply(s, Commands([STOP])), s.fileSong, |s.consumed|)
  {
    var t := Apply(s, Commands([STOP]));
    if CleanStop(s) {
      StopAlone(s);
      StopKeepsInv(s, m);
      PauseOrActKeepsGood(Obey(s, STOP), Here(s, s.fileSong));
      InvStaysInOrder(t, Here(s, s.fileSong));
    } else if s.decoder.None? {
      EndIsThrownAway(s, m);
      ReachesItself(t);
      Breaks(t, t, s.fileSong, |s.consumed|);
    } else if s.inFlight.value.index != 0 {
      LaterFrameArrives(s, m);
    } else {
      FirstFrameTwice(s, m);
    }
    hide *;
  }

  // ---- Reached from the start ----

  /** `t` is reached from the start by some run, commands of every kind included. */
  ghost predicate Reachable(t: State) {
    exists steps :: Run(Init(), steps, t)
  }

  lemma ThenAny(t: State, a: Step)
    requires Reachable(t) && Enabled(t, a)
    ensures Reachable(Apply(t, a))
  {
    var steps :| Run(Init(), steps, t);
    RunExtends(Init(), steps, t, a);
    hide *;
  }

  lemma {:induction false} ThenRun(s: State, steps: seq<Step>, t: State)
    requires Reachable(s) && Run(s, steps, t)
    ensures Reachable(t)
    decreases |steps|
  {
    hide Reachable, Enabled, Apply;
    if steps != [] {
      ThenAny(s, steps[0]);
      ThenRun(Apply(s, steps[0]), steps[1..], t);
    }
  }

  lemma OneCommand(s: State, c: Command)
    requires s.pAt == Top && !s.crashed && Reachable(s)
    ensures Reachable(PauseOrAct(Obey(s, c)))
  {
    ThenAny(s, Commands([c]));
    var batch := [c];
    assert batch[1..] == [];
    assert ObeyAll(Obey(s, c), batch[1..]) == Obey(s, c);
    assert ObeyAll(s, batch) == ObeyAll(Obey(s, batch[0]), batch[1..]);
    hide Obey, PauseOrAct, Reachable;
  }

  /** The first song has begun to play; its decoder is open. */
  lemma FirstSongOpen() returns (s: State)
    ensures Reachable(s) && Inv(s, START) && s.play == InSong && s.pAt == Top && s.info == StatePlay
    ensures s.decoder == Some(0) && s.inFlight.None? && s.started == 1 && s.frames == [] && s.pcmSize == 0
    ensures Position(s, 0) == 0 && s.dAt == Unlocked
  {
    assert Run(Init(), [], Init());
    OneCommand(Init(), PLAY);
    var s1 := PauseOrAct(Obey(Init(), PLAY));
    ThenAny(s1, StartSong);
    var s2 := Apply(s1, StartSong);
    ThenAny(s2, DecoderSection);
    s := Apply(s2, DecoderSection);
    hide Reachable;
  }

  /** Its first frame is in flight. */
  lemma DecodingFirstSong() returns (s: State)
    ensures Reachable(s) && Inv(s, START) && s.play == InSong && s.pAt == Top && s.info == StatePlay
    ensures s.decoder == Some(0) && s.inFlight == Some(Frame(0, 0, 4)) && s.started == 1 && s.frames == []
    ensures s.pcmSize == 0
  {
    var open := FirstSongOpen();
    DecodeKeepsInv(open, START, 4);
    ThenAny(open, Decode(4));
    s := Apply(open, Decode(4));
    hide Inv, Reachable;
  }

  /** A skip while a frame is in flight lets that frame into the next song. */
  lemma SkipCanMixSongs()
    ensures exists s :: Reachable(s) && Enabled(s, StartSong) && Idle(s)
                        && !StaysInOrder(Apply(s, StartSong), s.started, |s.consumed|)
  {
    var s := DecodingFirstSong();
    OneCommand(s, SKIP);
    var skipped := PauseOrAct(Obey(s, SKIP));
    assert Idle(skipped) && skipped.pAt == Acting by { hide Chain, NextOf, Since; }
    hide Inv, StaysInOrder, Reachable;
    var next := NextSongComes(skipped);
    LateFrameArrives(next);
    hide Idle, Enabled;
  }

  lemma NextSongComes(s: State) returns (t: State)
    requires Reachable(s) && Idle(s) && !s.crashed && s.pAt == Acting && s.play == AfterSong && s.info == StatePlay
    ensures Reachable(t) && Idle(t) && Enabled(t, StartSong) && t.info == StatePlay
    ensures t.inFlight == s.inFlight && t.decoder == s.decoder && t.songEof == s.songEof
  {
    ThenAny(s, FinishSong);
    var top := Apply(s, FinishSong);
    OneCommand(top, NOOP);
    t := PauseOrAct(Obey(top, NOOP));
    hide Reachable;
  }

  /** A stop while the second frame is in flight plays the second frame first. */
  lemma StopCanDisorderASong()
    ensures exists s :: Reachable(s) && Inv(s, START) && s.pAt == Top && s.play == InSong
                        && !StaysInOrder(Apply(s, Commands([STOP])), s.fileSong, |s.consumed|)
  {
    var s := DecodingFirstSong();
    SectionKeepsInv(s, START);
    ThenAny(s, DecoderSection);
    var s1 := Apply(s, DecoderSection);
    assert s1.inFlight.None? && s1.decoder == Some(0) && s1.dAt == Unlocked && s1.pAt == Top && s1.play == InSong
           && Position(s1, 0) == 1 by { hide Chain, NextOf, Since; }
    DecodeKeepsInv(s1, START, 4);
    ThenAny(s1, Decode(4));
    LaterFrameArrives(Apply(s1, Decode(4)), START);
    hide Inv, StaysInOrder, Reachable;
  }

  /** The first song's decoder has delivered its end and closed. */
  lemma FirstSongDecoded() returns (s: State)
    ensures Reachable(s) && !s.crashed && s.play == InSong && s.pAt == Top && s.info == StatePlay && s.started == 1
    ensures s.decoder.None? && s.inFlight.None? && !s.newFile && !s.songEof && s.fileSong == 0 && s.dAt != AtLock
  {
    var open := FirstSongOpen();
    hide Reachable;
    assert !open.crashed && !open.newFile && !open.songEof && open.fileSong == 0 by { hide Chain, NextOf, Since; }
    hide Inv;
    ThenAny(open, Decode(0));
    var ended := Apply(open, Decode(0));
    ThenAny(ended, DecoderSection);
    s := Apply(ended, DecoderSection);
  }

  /**
   A skip after the decoder has finished the song hangs playback: the next song's decoder is closed after
   one frame, and once that is played both threads sleep on each other.
   */
  lemma SkipHangsPlayback()
    ensures exists s :: Reachable(s) && Stranded(s) && s.dAt == Asleep && s.pAt == WaitingData && s.frames == []
  {
    var s := FirstSongDecoded();
    OneCommand(s, SKIP);
    var skipped := PauseOrAct(Obey(s, SKIP));
    assert Idle(skipped) && skipped.pAt == Acting;
    var next := NextSongComes(skipped);
    var closed := NewSongIsClosed(next);
    hide Idle, Stranded, Reachable;
    var steps :| Run(Apply(next, StartSong), steps, closed);
    ThenAny(next, StartSong);
    ThenRun(Apply(next, StartSong), steps, closed);
    PlaysOutAndWaits(closed);
  }

  lemma PlaysOutAndWaits(s: State)
    requires Reachable(s) && Stranded(s) && !s.crashed && |s.frames| == 1
    requires s.dAt == Asleep && s.pAt == Top && s.info == StatePlay
    ensures exists t :: Reachable(t) && Stranded(t) && t.dAt == Asleep && t.pAt == WaitingData && t.frames == []
  {
    OneCommand(s, NOOP);
    var s1 := PauseOrAct(Obey(s, NOOP));
    ThenAny(s1, TakeFrame);
    var s2 := Apply(s1, TakeFrame);
    ThenAny(s2, HandleFrame);
    var s3 := Apply(s2, HandleFrame);
    assert s3.frames == [] && s3.pAt == Top && s3.dAt == Rechecking && s3.info == StatePlay;
    StepKeepsStranded(s1, TakeFrame);
    StepKeepsStranded(s2, HandleFrame);
    WaitsForGood(s3);
    hide *;
  }

  lemma WaitsForGood(s: State)
    requires Reachable(s) && Stranded(s) && !s.crashed && s.frames == [] && s.dAt == Rechecking && s.pAt == Top
    requires s.info == StatePlay
    ensures exists t :: Reachable(t) && Stranded(t) && t.dAt == Asleep && t.pAt == WaitingData && t.frames == []
  {
    OneCommand(s, NOOP);
    var s1 := PauseOrAct(Obey(s, NOOP));
    ThenAny(s1, WaitForData);
    var s2 := Apply(s1, WaitForData);
    ThenAny(s2, DecoderRechecks);
    var s3 := Apply(s2, DecoderRechecks);
    assert Stranded(s3) && s3.dAt == Asleep && s3.pAt == WaitingData && s3.frames == [];
    hide *;
  }
}
