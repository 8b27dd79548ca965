/**
 What the handshake guarantees: frames reach the player once each and in order, songs do not mix, the
 byte count is exact, and the two threads never wait for each other. It holds in every run whose songs
 start, and whose stops come, at a clean moment; runs without SKIP and STOP always do.
 */
module PlaybackOrder {
  import opened Common
  import opened Playback

  // ---- Well-formed histories ----

  /** `g` may come right after `f`: the next frame of the song, or the first of the next song. */
  ghost predicate Follows(f: Frame, g: Frame) {
    if f.Terminal() then g.song == f.song + 1 && g.index == 0
    else g.song == f.song && g.index == f.index + 1
  }

  /** Songs in order from `first` on, frames of a song in order, each closed by its terminal frame alone. */
  ghost predicate Chain(h: seq<Frame>, first: nat) {
    && (h != [] ==> h[0].song == first && h[0].index == 0)
    && forall i {:trigger h[i]} | 0 < i < |h| :: Follows(h[i - 1], h[i])
  }

  /** The song and index of the frame a history expects next. */
  ghost function NextOf(h: seq<Frame>, first: nat): (nat, nat) {
    if h == [] then (first, 0)
    else if h[|h| - 1].Terminal() then (h[|h| - 1].song + 1, 0)
    else (h[|h| - 1].song, h[|h| - 1].index + 1)
  }

  lemma ChainExtends(h: seq<Frame>, first: nat, f: Frame)
    requires Chain(h, first) && NextOf(h, first) == (f.song, f.index)
    ensures Chain(h + [f], first)
  {
    var g := h + [f];
    forall i {:trigger g[i]} | 0 < i < |g| ensures Follows(g[i - 1], g[i]) {
      if i < |h| { assert Follows(h[i - 1], h[i]); }
    }
  }

  lemma NextAfter(h: seq<Frame>, first: nat, f: Frame)
    ensures NextOf(h + [f], first) == if f.Terminal() then (f.song + 1, 0) else (f.song, f.index + 1)
  {
  }

  /** A cut through a well-formed history: both sides agree on what comes next. */
  lemma ChainSplits(a: seq<Frame>, b: seq<Frame>, first: nat)
    requires Chain(a + b, first)
    ensures Chain(a, first)
    ensures b != [] ==> NextOf(a, first) == (b[0].song, b[0].index)
  {
    hide Follows;
    var h := a + b;
    forall i {:trigger a[i]} | 0 < i < |a| ensures Follows(a[i - 1], a[i]) {
      assert h[i] == a[i] && h[i - 1] == a[i - 1];
    }
    if b != [] {
      assert h[|a|] == b[0];
      if a != [] {
        assert h[|a| - 1] == a[|a| - 1];
        NextFollows(a[|a| - 1], b[0]);
      }
    }
  }

  lemma NextFollows(f: Frame, g: Frame)
    requires Follows(f, g)
    ensures (g.song, g.index) == if f.Terminal() then (f.song + 1, 0) else (f.song, f.index + 1)
  {
  }

  lemma {:induction false} SongsNeverGoBack(h: seq<Frame>, first: nat, i: nat, j: nat)
    requires Chain(h, first) && i <= j < |h|
    ensures h[i].song <= h[j].song
    ensures i < j && h[i].Terminal() ==> h[i].song < h[j].song
    decreases j - i
  {
    if i < j {
      assert Follows(h[i + 1 - 1], h[i + 1]);
      SongsNeverGoBack(h, first, i + 1, j);
    }
  }

  /** A song has one terminal frame, and it is the song's last frame. */
  lemma OneTerminalPerSong(h: seq<Frame>, first: nat, i: nat, j: nat)
    requires Chain(h, first) && i < |h| && j < |h|
    requires h[i].Terminal() && h[j].song == h[i].song
    ensures j <= i && (h[j].Terminal() ==> j == i)
  {
    if i < j { SongsNeverGoBack(h, first, i, j); }
    if j < i && h[j].Terminal() { SongsNeverGoBack(h, first, j, i); }
  }

  /** Every song from the first up to the one expected next has been closed. */
  lemma {:induction false} EarlierSongsAreClosed(h: seq<Frame>, first: nat, song: nat)
    requires Chain(h, first) && first <= song < NextOf(h, first).0
    ensures exists i :: 0 <= i < |h| && h[i].song == song && h[i].Terminal()
    decreases |h|
  {
    var front, last := h[..|h| - 1], h[|h| - 1];
    assert h == front + [last];
    ChainSplits(front, [last], first);
    if !(last.Terminal() && last.song == song) {
      EarlierSongsAreClosed(front, first, song);
      var i :| 0 <= i < |front| && front[i].song == song && front[i].Terminal();
      assert h[i] == front[i];
    }
  }

  // ---- The invariant ----

  /** Where the history in force begins: the first song in it, and how much was decoded and taken before. */
  datatype Mark = Mark(song: nat, decoded: nat, consumed: nat)

  const START := Mark(0, 0, 0)

  ghost function Since(h: seq<Frame>, from: nat): seq<Frame> {
    if from <= |h| then h[from..] else []
  }

  ghost function DecodedSince(s: State, m: Mark): seq<Frame> {
    Since(s.decoded, m.decoded)
  }

  ghost function ConsumedSince(s: State, m: Mark): seq<Frame> {
    Since(s.consumed, m.consumed)
  }

  ghost function Flight(s: State): seq<Frame> {
    if s.inFlight.Some? then [s.inFlight.value] else []
  }

  /** The player has taken the current song's terminal frame, or has no current song. */
  ghost predicate Done(s: State) {
    s.play != InSong || (s.pAt.Handling? && s.pAt.f.Terminal())
  }

  /** The byte count kept in pcm_size: data bytes, less one for each recoverable error. */
  ghost function CountedBytes(frames: seq<Frame>): int {
    if frames == [] then 0
    else (if frames[0].Terminal() then 0 else frames[0].size) + CountedBytes(frames[1..])
  }

  /** Who owns the rest of the current song: the hand-over, the decoder, or nobody. */
  ghost predicate SourceOk(s: State, m: Mark) {
    var next := NextOf(DecodedSince(s, m), m.song);
    if s.newFile then
      && s.decoder.None? && s.inFlight.None? && s.frames == []
      && s.started >= 1 && Position(s, s.fileSong) == 0 && next == (s.fileSong, 0)
    else if s.decoder.Some? then
      && s.started >= 1 && s.decoder.value == s.started - 1
      && (s.inFlight.None? ==> next == (s.decoder.value, Position(s, s.decoder.value)))
      && (s.inFlight.Some? ==> s.inFlight.value.song == s.decoder.value)
      && (s.inFlight.Some? && !s.inFlight.value.Terminal()
          ==> Position(s, s.decoder.value) == s.inFlight.value.index + 1)
    else s.inFlight.None? && next == (s.started, 0)
  }

  ghost predicate PlayerOk(s: State, m: Mark) {
    if Done(s) then s.frames == [] && !s.newFile && s.decoder.None?
    else s.started >= 1 && NextOf(ConsumedSince(s, m), m.song).0 == s.started - 1 && s.pcmSize == CountedBytes(s.frames)
  }

  ghost predicate Inv(s: State, m: Mark) {
    && m.decoded <= |s.decoded| && m.consumed <= |s.consumed|
    && !s.songEof && !s.crashed
    && DecodedSince(s, m) == ConsumedSince(s, m) + s.frames + Flight(s)
    && Chain(DecodedSince(s, m), m.song)
    && (s.dAt == AtLock <==> s.inFlight.Some?)
    && (s.started >= 1 ==> s.fileSong == s.started - 1) && (s.play == InSong ==> s.started >= 1)
    && SourceOk(s, m)
    && PlayerOk(s, m)
    && (s.pAt == WaitingData ==> s.frames == [] && s.play == InSong && s.dAt != Asleep)
    && (s.pAt.Handling? ==> s.play == InSong)
  }

  /** After a skip: no song is playing, and whatever the decoder still does belongs to an earlier song. */
  ghost predicate Idle(s: State) {
    && s.play != InSong && (s.pAt == Top || s.pAt == Paused || s.pAt == Acting)
    && (s.dAt == AtLock <==> s.inFlight.Some?)
    && (s.started >= 1 ==> s.fileSong == s.started - 1)
    && (s.newFile ==> s.started >= 1)
    && (s.decoder.Some? ==> s.decoder.value < s.started)
    && (s.inFlight.Some? ==> s.inFlight.value.song < s.started)
  }

  ghost predicate Good(s: State, m: Mark) {
    Inv(s, m) || Idle(s)
  }

  // ---- Clean moments ----

  /** The last song's decoder is closed, its last frame has landed, and no skip is still to be seen. */
  predicate CleanStart(s: State) {
    !s.songEof && s.decoder.None? && s.inFlight.None?
  }

  /**
   A stop finds a decoder that can begin again, and no frame of the old position in flight; a song's
   only frame, its terminal one, may be.
   */
  predicate CleanStop(s: State) {
    s.play == InSong ==>
      || s.newFile
      || (s.decoder.Some?
          && (s.inFlight.Some? ==> s.inFlight.value.Terminal() && s.inFlight.value.index == 0))
  }

  ghost predicate CleanBatch(s: State, batch: seq<Command>)
    decreases |batch|
  {
    batch == [] || s.crashed || ((batch[0] == STOP ==> CleanStop(s)) && CleanBatch(Obey(s, batch[0]), batch[1..]))
  }

  ghost predicate CleanStep(s: State, a: Step) {
    match a
    case StartSong => CleanStart(s)
    case Commands(batch) => CleanBatch(s, batch)
    case _ => true
  }

  ghost predicate CleanRun(s: State, steps: seq<Step>, t: State)
    decreases |steps|
  {
    if steps == [] then s == t
    else Enabled(s, steps[0]) && CleanStep(s, steps[0]) && CleanRun(Apply(s, steps[0]), steps[1..], t)
  }

  /** History begins anew now, with the current song. A frame in flight belongs to it. */
  function Here(s: State, song: nat): Mark {
    Mark(song, if s.inFlight.Some? && s.decoded != [] then |s.decoded| - 1 else |s.decoded|, |s.consumed|)
  }

  ghost function MarkObey(s: State, m: Mark, c: Command): Mark {
    if c == STOP && s.play == InSong then Here(s, s.fileSong) else m
  }

  ghost function MarkBatch(s: State, m: Mark, batch: seq<Command>): Mark
    decreases |batch|
  {
    if batch == [] || s.crashed then m else MarkBatch(Obey(s, batch[0]), MarkObey(s, m, batch[0]), batch[1..])
  }

  /** Only a stop inside a song and the start after a skip discard what came before. */
  ghost function MarkStep(s: State, m: Mark, a: Step): Mark {
    match a
    case StartSong => if Inv(s, m) then m else Here(s, s.started)
    case Commands(batch) => MarkBatch(s, m, batch)
    case _ => m
  }

  ghost function MarkAfter(s: State, m: Mark, steps: seq<Step>, t: State): Mark
    requires CleanRun(s, steps, t)
    decreases |steps|
  {
    if steps == [] then m else MarkAfter(Apply(s, steps[0]), MarkStep(s, m, steps[0]), steps[1..], t)
  }

  // ---- Every step keeps it ----

  lemma InitInv()
    ensures Inv(Init(), START)
  {
  }

  lemma SinceAppend(h: seq<Frame>, k: nat, f: Frame)
    requires k <= |h|
    ensures Since(h + [f], k) == Since(h, k) + [f]
  {
  }

  lemma DecodeKeepsInv(s: State, m: Mark, size: int)
    requires Inv(s, m) && Enabled(s, Decode(size))
    ensures Inv(Apply(s, Decode(size)), m)
  {
    hide Chain, NextOf, Since, CountedBytes;
    var t := Apply(s, Decode(size));
    var f := t.inFlight.value;
    ChainExtends(DecodedSince(s, m), m.song, f);
    SinceAppend(s.decoded, m.decoded, f);
    assert DecodedSince(t, m) == ConsumedSince(s, m) + s.frames + [f];
  }

  lemma {:induction false} CountedAppend(frames: seq<Frame>, f: Frame)
    ensures CountedBytes(frames + [f]) == CountedBytes(frames) + if f.Terminal() then 0 else f.size
  {
    if frames == [] {
      assert [f][1..] == [];
    } else {
      assert (frames + [f])[1..] == frames[1..] + [f];
      CountedAppend(frames[1..], f);
    }
  }

  lemma DepositKeepsInv(s: State, m: Mark)
    requires Inv(s, m) && s.inFlight.Some?
    ensures var t := Deposit(s).(dAt := Unlocked);
            Inv(t, m) && t.inFlight.None? && t.pAt != WaitingData && t.newFile == s.newFile
  {
    hide Chain, NextOf, Since;
    var f := s.inFlight.value;
    CountedAppend(s.frames, f);
    NextAfter(ConsumedSince(s, m) + s.frames, m.song, f);
    assert ConsumedSince(s, m) + (s.frames + [f]) + [] == ConsumedSince(s, m) + s.frames + [f];
    hide CountedBytes;
  }

  lemma PickUpKeepsInv(s: State, m: Mark)
    requires Inv(s, m) && s.inFlight.None?
    ensures Inv(PickUpFile(s), m)
  {
    hide Chain, NextOf, Since, CountedBytes;
  }

  lemma SleepKeepsInv(s: State, m: Mark)
    requires Inv(s, m) && s.inFlight.None? && s.dAt != AtLock
    ensures Inv(SleepUnlessReady(s), m)
  {
    if s.pAt == WaitingData { WaiterIsServed(s, m); }
    hide Chain, NextOf, Since, CountedBytes, Ready;
  }

  lemma SectionKeepsInv(s: State, m: Mark)
    requires Inv(s, m) && Enabled(s, DecoderSection)
    ensures Inv(Apply(s, DecoderSection), m)
  {
    assert CloseIfEof(s) == s && (s.inFlight.None? ==> s.dAt == Unlocked);
    var t := Deposit(s).(dAt := Unlocked);
    if s.inFlight.Some? {
      DepositKeepsInv(s, m);
    } else {
      assert t == s;
    }
    PickUpKeepsInv(t, m);
    SleepKeepsInv(PickUpFile(t), m);
    assert Apply(s, DecoderSection) == SleepUnlessReady(PickUpFile(t)) by { hide Inv; }
  }

  /** While the player waits for data, the decoder's wait condition is false. */
  lemma WaiterIsServed(s: State, m: Mark)
    requires Inv(s, m) && s.pAt == WaitingData
    ensures s.decoder.Some? || s.newFile
    ensures s.inFlight.None? ==> Ready(s)
  {
    hide Chain;
    assert ConsumedSince(s, m) + [] == ConsumedSince(s, m);
  }

  lemma HeadMoves(c: seq<Frame>, f: Frame, rest: seq<Frame>, flight: seq<Frame>)
    ensures c + ([f] + rest) + flight == c + ([f] + (rest + flight)) == (c + [f]) + rest + flight
  {
  }

  lemma TakeKeepsInv(s: State, m: Mark)
    requires Inv(s, m) && Enabled(s, TakeFrame)
    ensures Inv(Apply(s, TakeFrame), m)
  {
    hide Chain, NextOf, Since;
    var t, f, rest, c := Apply(s, TakeFrame), s.frames[0], s.frames[1..], ConsumedSince(s, m);
    assert s.frames == [f] + rest;
    HeadMoves(c, f, rest, Flight(s));
    ChainSplits(c, [f] + (rest + Flight(s)), m.song);
    NextAfter(c, m.song, f);
    SinceAppend(s.consumed, m.consumed, f);
    assert CountedBytes(s.frames) == (if f.Terminal() then 0 else f.size) + CountedBytes(rest);
    if f.Terminal() { TerminalIsLast(s, m); }
    hide CountedBytes;
  }

  lemma LastSongIsCurrent(s: State, m: Mark)
    requires Inv(s, m) && DecodedSince(s, m) != []
    ensures var h := DecodedSince(s, m); h[|h| - 1].song < s.started
  {
    hide Chain;
    var h := DecodedSince(s, m);
    if s.inFlight.Some? { assert h[|h| - 1] == s.inFlight.value; }
  }

  /** Nothing follows the current song's terminal frame until the next song starts. */
  lemma TerminalIsLast(s: State, m: Mark)
    requires Inv(s, m) && !Done(s) && s.frames != [] && s.frames[0].Terminal()
    ensures |s.frames| == 1 && s.inFlight.None? && s.decoder.None? && !s.newFile
  {
    hide Chain;
    var f, rest, c, h := s.frames[0], s.frames[1..] + Flight(s), ConsumedSince(s, m), DecodedSince(s, m);
    assert h == c + ([f] + rest);
    ChainSplits(c, [f] + rest, m.song);
    assert h[|c|] == f;
    SongsNeverGoBack(h, m.song, |c|, |h| - 1);
    LastSongIsCurrent(s, m);
    if rest == [] {
      assert h == c + [f];
      NextAfter(c, m.song, f);
    }
  }

  /** A clean start begins a well-formed history of its own... */
  lemma StartBeginsHistory(s: State, m: Mark)
    requires Good(s, m) && Enabled(s, StartSong) && CleanStart(s)
    ensures Inv(Apply(s, StartSong), Here(s, s.started))
  {
    var t, h := Apply(s, StartSong), Here(s, s.started);
    assert DecodedSince(t, h) == [] && ConsumedSince(t, h) == [];
    assert s.dAt != AtLock && t.dAt != AtLock && t.fileSong == s.started == t.started - 1;
    assert NextOf([], s.started) == (s.started, 0) && Chain([], s.started);
    hide Good, Chain, NextOf, Since;
  }

  /** ... and continues one that is in force. */
  lemma StartKeepsInv(s: State, m: Mark)
    requires Inv(s, m) && Enabled(s, StartSong) && CleanStart(s)
    ensures Inv(Apply(s, StartSong), m)
  {
    hide Chain, NextOf, Since;
    assert DecodedSince(s, m) == ConsumedSince(s, m);
  }

  /** A history that holds only the frame in flight. */
  lemma LastOnly(h: seq<Frame>, d: nat, f: Frame, rest: seq<Frame>)
    requires d <= |h| && Since(h, d) == rest + [f]
    ensures h != [] && Since(h, |h| - 1) == [f]
  {
    assert h[d..][|rest|] == f;
  }

  lemma EmptyHistory(h: seq<Frame>, f: Frame)
    ensures Since(h, |h|) == []
    ensures Chain([], f.song) && NextOf([], f.song) == (f.song, 0)
    ensures f.index == 0 ==> Chain([f], f.song)
  {
  }

  /** A clean stop inside a song begins a history with the song's first frame. */
  lemma StopKeepsInv(s: State, m: Mark)
    requires Inv(s, m) && s.play == InSong && s.pAt == Top && CleanStop(s)
    ensures Inv(Obey(s, STOP), Here(s, s.fileSong)) && Obey(s, STOP).pAt == Top
  {
    hide Chain, NextOf, Since;
    EmptyHistory(s.consumed, Frame(s.fileSong, 0, 0));
    EmptyHistory(s.decoded, Frame(s.fileSong, 0, 0));
    if s.inFlight.Some? {
      LastOnly(s.decoded, m.decoded, s.inFlight.value, ConsumedSince(s, m) + s.frames);
      EmptyHistory(s.decoded, s.inFlight.value);
    }
  }

  lemma ObeyKeepsGood(s: State, m: Mark, c: Command)
    requires Good(s, m) && s.pAt == Top && (c == STOP ==> CleanStop(s))
    ensures Good(Obey(s, c), MarkObey(s, m, c)) && Obey(s, c).pAt == Top
    ensures Inv(s, m) && c != SKIP ==> Inv(Obey(s, c), MarkObey(s, m, c))
  {
    hide Chain, NextOf, Since, CountedBytes;
    if Inv(s, m) {
      if c == STOP && s.play == InSong {
        StopKeepsInv(s, m);
      } else if c == SKIP {
        assert Idle(Obey(s, c));
      } else {
        assert Inv(Obey(s, c), m);
      }
    } else {
      assert Idle(Obey(s, c));
    }
  }

  lemma {:induction false} BatchKeepsGood(s: State, m: Mark, batch: seq<Command>)
    requires Good(s, m) && s.pAt == Top && CleanBatch(s, batch)
    ensures Good(ObeyAll(s, batch), MarkBatch(s, m, batch)) && ObeyAll(s, batch).pAt == Top
    ensures Inv(s, m) && (forall i | 0 <= i < |batch| :: batch[i] != SKIP)
            ==> Inv(ObeyAll(s, batch), MarkBatch(s, m, batch))
    decreases |batch|
  {
    hide Good, Inv, Obey, CleanStop;
    if batch != [] && !s.crashed {
      ObeyKeepsGood(s, m, batch[0]);
      BatchKeepsGood(Obey(s, batch[0]), MarkObey(s, m, batch[0]), batch[1..]);
    }
  }

  lemma PauseOrActKeepsGood(s: State, m: Mark)
    requires Good(s, m) && s.pAt == Top
    ensures Good(PauseOrAct(s), m) && (Inv(s, m) ==> Inv(PauseOrAct(s), m))
  {
    hide Chain, NextOf, Since, CountedBytes;
  }

  /** The remaining steps change neither history nor buffer. */
  lemma QuietStepKeepsInv(s: State, m: Mark, a: Step)
    requires Inv(s, m) && Enabled(s, a)
    requires a.DecoderWakes? || a.DecoderRechecks? || a.PlayerResumes? || a.HandleFrame? || a.WaitForData?
             || a.DataWaitEnds? || a.FinishSong?
    ensures Inv(Apply(s, a), m)
  {
    hide Chain, NextOf, Since, CountedBytes;
    if a.DecoderRechecks? && s.pAt == WaitingData { WaiterIsServed(s, m); }
    hide Ready;
  }

  lemma StepKeepsInv(s: State, m: Mark, a: Step)
    requires Inv(s, m) && Enabled(s, a) && !a.Commands? && CleanStep(s, a)
    ensures Inv(Apply(s, a), m)
  {
    hide Inv, Apply;
    match a
    case Decode(size) => DecodeKeepsInv(s, m, size);
    case DecoderSection => SectionKeepsInv(s, m);
    case StartSong => StartKeepsInv(s, m);
    case TakeFrame => TakeKeepsInv(s, m);
    case _ => QuietStepKeepsInv(s, m, a);
  }

  lemma IdleStays(s: State, a: Step)
    requires Idle(s) && Enabled(s, a) && !a.Commands? && !a.StartSong?
    ensures Idle(Apply(s, a))
  {
    if a.DecoderSection? {
      IdleDeposit(CloseIfEof(s));
      IdlePickUp(Deposit(CloseIfEof(s)).(dAt := Unlocked));
      hide CloseIfEof, Deposit;
    }
  }

  lemma DepositFrame(s: State)
    requires s.pAt != WaitingData
    ensures var t := Deposit(s);
            && t.play == s.play && t.pAt == s.pAt && t.started == s.started && t.fileSong == s.fileSong
            && t.newFile == s.newFile && t.inFlight.None? && (t.decoder == s.decoder || t.decoder.None?)
  {
  }

  lemma IdleDeposit(s: State)
    requires Idle(s)
    ensures Deposit(s).inFlight.None? && Idle(Deposit(s).(dAt := Unlocked))
  {
    DepositFrame(s);
    hide Deposit;
  }

  lemma IdlePickUp(s: State)
    requires Idle(s) && s.inFlight.None?
    ensures var t := PickUpFile(s); t.inFlight.None? && Idle(t.(dAt := Unlocked)) && Idle(t.(dAt := Asleep))
  {
  }

  /** Every clean step keeps a good state good, with the history it leaves in force. */
  lemma StepKeepsGood(s: State, m: Mark, a: Step)
    requires Good(s, m) && Enabled(s, a) && CleanStep(s, a)
    ensures Good(Apply(s, a), MarkStep(s, m, a))
  {
    if a.Commands? {
      BatchKeepsGood(s, m, a.batch);
      PauseOrActKeepsGood(ObeyAll(s, a.batch), MarkBatch(s, m, a.batch));
    } else if a.StartSong? {
      if Inv(s, m) { StartKeepsInv(s, m); } else { StartBeginsHistory(s, m); }
    } else if Inv(s, m) {
      StepKeepsInv(s, m, a);
    } else {
      IdleStays(s, a);
    }
    hide Inv, Idle;
  }

  lemma {:induction false} RunKeepsGood(s: State, m: Mark, steps: seq<Step>, t: State)
    requires Good(s, m) && CleanRun(s, steps, t)
    ensures Good(t, MarkAfter(s, m, steps, t))
    decreases |steps|
  {
    hide Good, Apply, Enabled, CleanStep, MarkStep;
    if steps != [] {
      StepKeepsGood(s, m, steps[0]);
      RunKeepsGood(Apply(s, steps[0]), MarkStep(s, m, steps[0]), steps[1..], t);
    }
  }

  // ---- Runs without SKIP and STOP ----

  lemma {:induction false} HarmlessIsClean(s: State, m: Mark, batch: seq<Command>)
    requires Harmless(batch)
    ensures CleanBatch(s, batch) && MarkBatch(s, m, batch) == m
    decreases |batch|
  {
    hide Obey;
    if batch != [] { HarmlessIsClean(Obey(s, batch[0]), m, batch[1..]); }
  }

  lemma PlayPauseStepKeepsInv(s: State, m: Mark, a: Step)
    requires Inv(s, m) && Enabled(s, a) && PlayPauseStep(a)
    ensures CleanStep(s, a) && MarkStep(s, m, a) == m && Inv(Apply(s, a), m)
  {
    if a.Commands? {
      HarmlessIsClean(s, m, a.batch);
      BatchKeepsGood(s, m, a.batch);
      PauseOrActKeepsGood(ObeyAll(s, a.batch), m);
    } else {
      assert CleanStep(s, a) by { hide Chain, NextOf; }
      StepKeepsInv(s, m, a);
    }
    hide Inv;
  }

  /** They are clean throughout, and one history stays in force. */
  lemma {:induction false} PlayPauseRunKeepsInv(s: State, m: Mark, steps: seq<Step>, t: State)
    requires Inv(s, m) && Run(s, steps, t) && PlayPauseOnly(steps)
    ensures CleanRun(s, steps, t) && MarkAfter(s, m, steps, t) == m && Inv(t, m)
    decreases |steps|
  {
    hide Inv, Apply, Enabled, CleanStep, MarkStep, PlayPauseStep;
    if steps != [] {
      PlayPauseStepKeepsInv(s, m, steps[0]);
      PlayPauseRunKeepsInv(Apply(s, steps[0]), m, steps[1..], t);
    }
  }

  // ---- The theorems ----

  /**
   In every clean interleaving, while a song plays, what the player has taken, what is buffered and the
   frame in flight are together exactly what was decoded, in order, since the last command that
   discarded frames; and the frames taken are complete up to the current song.
   */
  lemma {:induction false} FramesArriveInOrder(steps: seq<Step>, t: State)
    requires CleanRun(Init(), steps, t) && t.play == InSong
    ensures var m := MarkAfter(Init(), START, steps, t);
            && ConsumedSince(t, m) + t.frames + Flight(t) == DecodedSince(t, m)
            && Chain(DecodedSince(t, m), m.song)
            && t.started >= 1
            && NextOf(ConsumedSince(t, m), m.song).0 == if Done(t) then t.started else t.started - 1
  {
    InitInv();
    RunKeepsGood(Init(), START, steps, t);
    var m := MarkAfter(Init(), START, steps, t);
    if Done(t) { assert DecodedSince(t, m) == ConsumedSince(t, m); }
    hide Chain, NextOf, MarkAfter, CleanRun;
  }

  /** Without SKIP and STOP every run is clean, and the history in force is the whole one. */
  lemma {:induction false} NothingIsDiscarded(steps: seq<Step>, t: State)
    requires Run(Init(), steps, t) && PlayPauseOnly(steps)
    ensures CleanRun(Init(), steps, t) && MarkAfter(Init(), START, steps, t) == START
    ensures t.consumed + t.frames + Flight(t) == t.decoded && Chain(t.decoded, 0)
    ensures Done(t) ==> t.consumed == t.decoded && NextOf(t.consumed, 0) == (t.started, 0)
  {
    InitInv();
    PlayPauseRunKeepsInv(Init(), START, steps, t);
    assert t.decoded[0..] == t.decoded && t.consumed[0..] == t.consumed;
    if Done(t) { assert t.decoded == t.consumed; }
    hide Chain, NextOf, MarkAfter, CleanRun;
  }

  /**
   In clean runs the threads never sleep on each other. A player waiting for data faces a decoder that
   is awake, with a song to decode and room for it.
   */
  lemma {:induction false} NeverBothAsleep(steps: seq<Step>, t: State)
    requires CleanRun(Init(), steps, t)
    ensures !(t.dAt == Asleep && t.pAt == WaitingData)
    ensures t.pAt == WaitingData ==> t.frames == [] && t.pcmSize == 0 && (t.decoder.Some? || t.newFile)
  {
    InitInv();
    RunKeepsGood(Init(), START, steps, t);
    var m := MarkAfter(Init(), START, steps, t);
    if t.pAt == WaitingData { WaiterIsServed(t, m); }
    hide Chain, NextOf, MarkAfter, CleanRun;
  }

  /** In clean runs, pcm_size is exact until a song's terminal frame is taken. */
  lemma {:induction false} ByteCountIsExact(steps: seq<Step>, t: State)
    requires CleanRun(Init(), steps, t) && !Done(t)
    ensures t.pcmSize == CountedBytes(t.frames)
  {
    InitInv();
    RunKeepsGood(Init(), START, steps, t);
    hide Chain, NextOf, MarkAfter, CleanRun;
  }

  // ---- The wait for data ends ----

  /** How many decoder steps stand between a waiting player and its data. */
  ghost function Rank(s: State): nat {
    match s.dAt
    case Asleep => 6
    case Rechecking => 5
    case Unlocked => if s.decoder.Some? then 2 else 4
    case AtLock => 1
  }

  ghost predicate DecoderStep(a: Step) {
    a.Decode? || a.DecoderSection? || a.DecoderRechecks?
  }

  /** While the player waits, some decoder step is enabled, and each one taken brings the data closer. */
  lemma WaitMakesProgress(s: State, m: Mark, a: Step)
    requires Inv(s, m) && s.pAt == WaitingData
    ensures Enabled(s, Decode(0)) || Enabled(s, DecoderSection) || Enabled(s, DecoderRechecks)
    ensures Enabled(s, a) && DecoderStep(a) ==>
              || Apply(s, a).pAt != WaitingData
              || Rank(Apply(s, a)) < Rank(s)
  {
    WaiterIsServed(s, m);
    hide Chain, NextOf;
  }
}
