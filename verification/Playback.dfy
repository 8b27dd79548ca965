/**
 The handshake between the decoder thread and the player thread as a state machine. Each critical
 section under frame_buffer.lock is one step, each condition wait a blocked program counter, and the
 decoder produces an arbitrary stream of frame sizes. Waits may also end without a signal.
 */
module Playback {
  import opened Common

  const MAX_FRAMES := 2048
  const MAX_PCM := 1024 * 1024

  /** A decoded frame: which song it came from, its place in that song, and its pcm_size. */
  datatype Frame = Frame(song: nat, index: nat, size: int) {

    /** End of song or unrecoverable error; -1 is a recoverable error and carries no data. */
    predicate Terminal() {
      size == 0 || size <= -2
    }
  }

  datatype Command = PLAY | PAUSE | STOP | SKIP | NOOP
  datatype PlayerState = StatePlay | StatePause | StateStop | StateBigStop
  datatype PlayState = BeforeSong | InSong | AfterSong

  datatype DecoderAt =
    | Unlocked   // about to decode, if a decoder is installed
    | AtLock     // about to enter the critical section
    | Asleep     // waiting on restart
    | Rechecking // woken, about to test the wait condition again

  datatype PlayerAt =
    | Top                              // about to process commands
    | Paused                           // waiting on player_command.changed
    | Acting                           // about to act on play_state
    | Handling(f: Frame, needMore: bool) // has taken a frame, lock released
    | WaitingData                      // waiting on new_data

  /** `decoded` and `consumed` record the history; everything else is the program's own state. */
  datatype State = State(
    frames: seq<Frame>, pcmSize: int, songEof: bool, newFile: bool, fileSong: nat,
    decoder: Option<nat>, positions: map<nat, nat>, inFlight: Option<Frame>, dAt: DecoderAt,
    info: PlayerState, play: PlayState, pAt: PlayerAt, started: nat, crashed: bool,
    decoded: seq<Frame>, consumed: seq<Frame>)

  function Init(): State {
    State([], 0, false, false, 0, None, map[], None, Unlocked, StateBigStop, BeforeSong, Top, 0, false, [], [])
  }

  // ---- Steps ----

  datatype Step =
    | Decode(size: int)             // decoder_function(), outside the lock
    | DecoderSection                // the decoder's critical section, up to unlock or wait
    | DecoderWakes                  // a wait on restart ends without a signal
    | DecoderRechecks               // the wait loop tests its condition
    | Commands(batch: seq<Command>) // the player drains the command list and decides to pause or act
    | PlayerResumes                 // the wait on player_command.changed ends
    | StartSong                     // take the next song and hand its decoder over
    | TakeFrame                     // pop the first frame
    | HandleFrame                   // play it, or note the end of the song
    | WaitForData                   // the buffer was empty
    | DataWaitEnds                  // a wait on new_data ends without a signal
    | FinishSong                    // STATE_AFTER_SONG

  /** Whether the step can be taken; a program that has crashed takes none. */
  ghost predicate Enabled(s: State, a: Step) {
    !s.crashed && match a
    case Decode(size) => s.dAt == Unlocked && s.decoder.Some?
    case DecoderSection => s.dAt == AtLock || (s.dAt == Unlocked && s.decoder.None?)
    case DecoderWakes => s.dAt == Asleep
    case DecoderRechecks => s.dAt == Rechecking
    case Commands(batch) => s.pAt == Top
    case PlayerResumes => s.pAt == Paused
    case StartSong => s.pAt == Acting && s.play == BeforeSong
    case TakeFrame => s.pAt == Acting && s.play == InSong && s.frames != []
    case HandleFrame => s.pAt.Handling?
    case WaitForData => s.pAt == Acting && s.play == InSong && s.frames == []
    case DataWaitEnds => s.pAt == WaitingData
    case FinishSong => s.pAt == Acting && s.play == AfterSong
  }

  /** squash_broadcast( frame_buffer.restart ) */
  function WakeDecoder(s: State): State {
    if s.dAt == Asleep then s.(dAt := Rechecking) else s
  }

  /** squash_broadcast( frame_buffer.new_data ) */
  function WakePlayer(s: State): State {
    if s.pAt == WaitingData then s.(pAt := Top) else s
  }

  /** The condition under which the decoder leaves the lock to decode more. */
  predicate Ready(s: State) {
    |s.frames| < MAX_FRAMES && s.pcmSize < MAX_PCM && (s.decoder.Some? || s.newFile)
  }

  function Position(s: State, song: nat): nat {
    if song in s.positions then s.positions[song] else 0
  }

  function DoDecode(s: State, size: int): State
    requires s.decoder.Some?
  {
    var song := s.decoder.value;
    var f := Frame(song, Position(s, song), size);
    s.(inFlight := Some(f), dAt := AtLock, decoded := s.decoded + [f], positions := s.positions[song := f.index + 1])
  }

  /** A skipped song's decoder is closed here. */
  function CloseIfEof(s: State): State {
    if s.songEof && s.decoder.Some? then s.(decoder := None, songEof := false) else s
  }

  function Deposit(s: State): State {
    if s.inFlight.None? then s else
      var f := s.inFlight.value;
      var s1 :=
        if !f.Terminal() then s.(pcmSize := s.pcmSize + f.size)
        else if s.decoder.Some? then s.(decoder := None, songEof := false) else s;
      var s2 := if s1.frames == [] then WakePlayer(s1) else s1;
      s2.(frames := s2.frames + [f], inFlight := None)
  }

  function PickUpFile(s: State): State {
    if s.newFile then s.(newFile := false, decoder := Some(s.fileSong)) else s
  }

  function SleepUnlessReady(s: State): State {
    s.(dAt := if Ready(s) then Unlocked else Asleep)
  }

  /** One command. A skip credits the current song, and follows a null pointer when there has been none. */
  function Obey(s: State, c: Command): State {
    match c
    case PLAY => WakeDecoder(s.(info := StatePlay))
    case PAUSE => s.(info := StatePause)
    case SKIP =>
      s.(songEof := true, frames := [], pcmSize := 0, play := if s.play == InSong then AfterSong else s.play,
         crashed := s.started == 0)
    case STOP =>
      var s1 := WakeDecoder(s.(info := StateStop, frames := [], pcmSize := 0));
      if s.play == InSong then s1.(positions := s.positions[s.fileSong := 0]) else s1
    case NOOP => s
  }

  function ObeyAll(s: State, batch: seq<Command>): State
    decreases |batch|
  {
    if batch == [] || s.crashed then s else ObeyAll(Obey(s, batch[0]), batch[1..])
  }

  function PauseOrAct(s: State): State {
    if s.crashed then s
    else s.(pAt := if s.info == StateBigStop || (s.play == InSong && s.info != StatePlay) then Paused else Acting)
  }

  function DoStartSong(s: State): State {
    WakeDecoder(s.(fileSong := s.started, started := s.started + 1, newFile := true,
                   positions := s.positions[s.started := 0],
                   frames := [], pcmSize := 0, play := InSong, pAt := Top))
  }

  function DoTakeFrame(s: State): State
    requires s.frames != []
  {
    var f, rest, pcm := s.frames[0], s.frames[1..], s.pcmSize - s.frames[0].size;
    var needMore := |rest| * 10 < MAX_FRAMES * 9 || pcm * 10 < MAX_PCM * 9;
    s.(frames := rest, pcmSize := pcm, consumed := s.consumed + [f], pAt := Handling(f, needMore))
  }

  function DoHandleFrame(s: State): State
    requires s.pAt.Handling?
  {
    var s1 := if s.pAt.f.Terminal() then s.(play := AfterSong) else s;
    var s2 := if s.pAt.needMore then WakeDecoder(s1) else s1;
    s2.(pAt := Top)
  }

  function Apply(s: State, a: Step): State
    requires Enabled(s, a)
  {
    match a
    case Decode(size) => DoDecode(s, size)
    case DecoderSection => SleepUnlessReady(PickUpFile(Deposit(CloseIfEof(s))))
    case DecoderWakes => s.(dAt := Rechecking)
    case DecoderRechecks => SleepUnlessReady(s)
    case Commands(batch) => PauseOrAct(ObeyAll(s, batch))
    case PlayerResumes => s.(pAt := Top)
    case StartSong => DoStartSong(s)
    case TakeFrame => DoTakeFrame(s)
    case HandleFrame => DoHandleFrame(s)
    case WaitForData => WakeDecoder(s).(pAt := WaitingData)
    case DataWaitEnds => s.(pAt := Top)
    case FinishSong => s.(play := BeforeSong, pAt := Top)
  }

  /** `t` is reached from `s` by the given steps, each enabled in turn. */
  ghost predicate Run(s: State, steps: seq<Step>, t: State)
    decreases |steps|
  {
    if steps == [] then s == t
    else Enabled(s, steps[0]) && Run(Apply(s, steps[0]), steps[1..], t)
  }

  /** Only PLAY and PAUSE commands (and unknown ones, which are ignored) arrive. */
  ghost predicate PlayPauseStep(a: Step) {
    a.Commands? ==> Harmless(a.batch)
  }

  ghost predicate Harmless(batch: seq<Command>) {
    forall i | 0 <= i < |batch| :: batch[i] == PLAY || batch[i] == PAUSE || batch[i] == NOOP
  }

  ghost predicate PlayPauseOnly(steps: seq<Step>) {
    forall i | 0 <= i < |steps| :: PlayPauseStep(steps[i])
  }

  // ---- The program survives every run that skips no song before the first ----

  lemma {:induction false} BatchCrashes(s: State, batch: seq<Command>)
    requires !s.crashed
    ensures ObeyAll(s, batch).crashed <==> s.started == 0 && SKIP in batch
    ensures ObeyAll(s, batch).started == s.started
    decreases |batch|
  {
    if batch != [] {
      assert batch == [batch[0]] + batch[1..];
      var next := Obey(s, batch[0]);
      assert next.started == s.started && (next.crashed <==> s.started == 0 && batch[0] == SKIP);
      hide Obey;
      if !next.crashed { BatchCrashes(next, batch[1..]); }
    }
  }

  lemma SectionSurvives(s: State)
    ensures CloseIfEof(s).crashed == s.crashed && CloseIfEof(s).started == s.started
    ensures var t := Deposit(CloseIfEof(s)); t.crashed == s.crashed && t.started == s.started
  {
    assert CloseIfEof(s).crashed == s.crashed && CloseIfEof(s).started == s.started;
    hide CloseIfEof;
  }

  /** A step crashes the program exactly when it obeys a skip before any song has started. */
  lemma StepCrashes(s: State, a: Step)
    requires Enabled(s, a)
    ensures Apply(s, a).crashed <==> a.Commands? && s.started == 0 && SKIP in a.batch
    ensures Apply(s, a).started == if a.StartSong? then s.started + 1 else s.started
  {
    hide ObeyAll, CloseIfEof, Deposit;
    if a.Commands? { BatchCrashes(s, a.batch); }
    SectionSurvives(s);
  }

  /** Step k obeys a skip, and no step before it starts a song. */
  ghost predicate EarlySkip(steps: seq<Step>, k: nat) {
    k < |steps| && steps[k].Commands? && SKIP in steps[k].batch && forall j | 0 <= j < k :: !steps[j].StartSong?
  }

  lemma {:induction false} RunCrashes(s: State, steps: seq<Step>, t: State)
    requires Run(s, steps, t) && !s.crashed
    ensures t.crashed <==> s.started == 0 && exists k: nat :: EarlySkip(steps, k)
    decreases |steps|
  {
    hide Enabled, Apply;
    if steps != [] {
      var a, rest, next := steps[0], steps[1..], Apply(s, steps[0]);
      StepCrashes(s, a);
      if next.crashed {
        assert rest == [] by { NoStepAfterCrash(next, rest, t); }
        assert EarlySkip(steps, 0);
      } else {
        RunCrashes(next, rest, t);
        if s.started == 0 { EarlySkipShifts(steps); }
      }
    }
  }

  lemma {:induction false} NoStepAfterCrash(s: State, steps: seq<Step>, t: State)
    requires Run(s, steps, t) && s.crashed
    ensures steps == [] && t == s
  {
  }

  lemma {:induction false} EarlySkipShifts(steps: seq<Step>)
    requires steps != [] && !(steps[0].Commands? && SKIP in steps[0].batch)
    ensures (exists k: nat :: EarlySkip(steps, k))
            <==> !steps[0].StartSong? && exists k: nat :: EarlySkip(steps[1..], k)
  {
    if exists k: nat :: EarlySkip(steps, k) {
      var k: nat :| EarlySkip(steps, k);
      assert EarlySkip(steps[1..], k - 1);
    }
    if !steps[0].StartSong? && exists k: nat :: EarlySkip(steps[1..], k) {
      var k: nat :| EarlySkip(steps[1..], k);
      assert EarlySkip(steps, k + 1);
    }
  }

  /** From its start the program crashes in exactly the runs that obey a skip before the first song starts. */
  lemma CrashesExactly(steps: seq<Step>, t: State)
    requires Run(Init(), steps, t)
    ensures t.crashed <==> exists k: nat :: EarlySkip(steps, k)
  {
    RunCrashes(Init(), steps, t);
  }

  // ---- The buffer never overflows, whatever the commands ----

  ghost predicate WithinBuffer(s: State) {
    |s.frames| <= MAX_FRAMES && (s.dAt == Unlocked || s.dAt == AtLock ==> |s.frames| < MAX_FRAMES)
  }

  lemma {:induction false} ObeyKeepsBounds(s: State, batch: seq<Command>)
    requires WithinBuffer(s)
    ensures WithinBuffer(ObeyAll(s, batch))
    decreases |batch|
  {
    if batch != [] { ObeyKeepsBounds(Obey(s, batch[0]), batch[1..]); }
  }

  lemma StepKeepsBounds(s: State, a: Step)
    requires WithinBuffer(s) && Enabled(s, a)
    ensures WithinBuffer(Apply(s, a))
    ensures a.DecoderSection? ==> |CloseIfEof(s).frames| < MAX_FRAMES
  {
    if a.Commands? { ObeyKeepsBounds(s, a.batch); }
  }

  /** In every run, with skips and stops, every append index is in range and 2048 is never passed. */
  lemma {:induction false} BufferNeverOverflows(s: State, steps: seq<Step>, t: State)
    requires WithinBuffer(s) && Run(s, steps, t)
    ensures WithinBuffer(t) && |t.frames| <= 2048
    decreases |steps|
  {
    if steps != [] {
      StepKeepsBounds(s, steps[0]);
      BufferNeverOverflows(Apply(s, steps[0]), steps[1..], t);
    }
  }
}
