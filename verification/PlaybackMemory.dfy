/**
 How much PCM the frame buffer can hold, in every run, skips and stops included. The decoder tests pcm_size
 before it decodes; a terminal frame's code makes it count too much, a recoverable error one byte too little.
 */
module PlaybackMemory {
  import opened Playback
  import opened PlaybackOrder

  /** The bytes of data buffered. */
  ghost function RealBytes(frames: seq<Frame>): nat {
    if frames == [] then 0 else (if frames[0].size > 0 then frames[0].size else 0) + RealBytes(frames[1..])
  }

  lemma {:induction false} RealAppend(frames: seq<Frame>, f: Frame)
    ensures RealBytes(frames + [f]) == RealBytes(frames) + if f.size > 0 then f.size else 0
  {
    if frames == [] {
      assert [f][1..] == [];
    } else {
      assert (frames + [f])[1..] == frames[1..] + [f];
      RealAppend(frames[1..], f);
    }
  }

  /** The data bytes less one for each recoverable error undercount by at most one byte a frame. */
  lemma {:induction false} CountedNearReal(frames: seq<Frame>)
    ensures RealBytes(frames) <= CountedBytes(frames) + |frames|
  {
    if frames != [] { CountedNearReal(frames[1..]); }
  }

  ghost predicate SizeBounded(a: Step, largest: nat) {
    a.Decode? ==> a.size <= largest
  }

  /** `frames` fit although the decoder may be about to add one more. */
  ghost predicate Fits(frames: seq<Frame>, adding: bool, largest: nat) {
    RealBytes(frames) < MAX_PCM + MAX_FRAMES + if adding then 0 else largest
  }

  ghost predicate MemoryInv(s: State, largest: nat) {
    && WithinBuffer(s)
    && s.pcmSize >= CountedBytes(s.frames)
    && Fits(s.frames, s.dAt == Unlocked || s.dAt == AtLock, largest)
    && (s.inFlight.Some? ==> s.inFlight.value.size <= largest && s.dAt == AtLock)
  }

  lemma CommandKeepsMemory(s: State, c: Command, largest: nat)
    requires MemoryInv(s, largest)
    ensures MemoryInv(Obey(s, c), largest)
  {
    assert RealBytes([]) == 0 && CountedBytes([]) == 0;
    hide RealBytes, CountedBytes;
  }

  lemma {:induction false} ObeyKeepsMemory(s: State, batch: seq<Command>, largest: nat)
    requires MemoryInv(s, largest)
    ensures MemoryInv(ObeyAll(s, batch), largest)
    decreases |batch|
  {
    hide MemoryInv, Obey;
    if batch != [] {
      CommandKeepsMemory(s, batch[0], largest);
      ObeyKeepsMemory(Obey(s, batch[0]), batch[1..], largest);
    }
  }

  lemma DepositKeepsCount(s: State, largest: nat)
    requires MemoryInv(s, largest) && (s.dAt == Unlocked || s.dAt == AtLock)
    ensures var t := Deposit(s);
            && t.pcmSize >= CountedBytes(t.frames) && |t.frames| <= MAX_FRAMES
            && Fits(t.frames, false, largest) && t.inFlight.None?
  {
    if s.inFlight.Some? {
      CountedAppend(s.frames, s.inFlight.value);
      RealAppend(s.frames, s.inFlight.value);
    }
    hide RealBytes, CountedBytes;
  }

  /** The wait condition is tested against pcm_size. */
  lemma SleepBoundsMemory(s: State, largest: nat)
    requires s.pcmSize >= CountedBytes(s.frames) && |s.frames| <= MAX_FRAMES
    requires Fits(s.frames, false, largest) && s.inFlight.None?
    ensures MemoryInv(SleepUnlessReady(s), largest)
  {
    CountedNearReal(s.frames);
    hide RealBytes, CountedBytes;
  }

  lemma SectionKeepsMemory(s: State, largest: nat)
    requires MemoryInv(s, largest) && Enabled(s, DecoderSection)
    ensures MemoryInv(Apply(s, DecoderSection), largest)
  {
    assert MemoryInv(CloseIfEof(s), largest);
    DepositKeepsCount(CloseIfEof(s), largest);
    SleepBoundsMemory(PickUpFile(Deposit(CloseIfEof(s))), largest);
    hide Deposit, CloseIfEof, RealBytes, CountedBytes, SleepUnlessReady;
  }

  lemma TakeKeepsMemory(s: State, largest: nat)
    requires MemoryInv(s, largest) && Enabled(s, TakeFrame)
    ensures MemoryInv(Apply(s, TakeFrame), largest)
  {
    assert RealBytes(s.frames[1..]) <= RealBytes(s.frames);
  }

  lemma StepKeepsMemory(s: State, a: Step, largest: nat)
    requires MemoryInv(s, largest) && Enabled(s, a) && SizeBounded(a, largest)
    ensures MemoryInv(Apply(s, a), largest)
  {
    match a
    case DecoderSection => SectionKeepsMemory(s, largest);
    case Commands(batch) => ObeyKeepsMemory(s, batch, largest);
    case TakeFrame => TakeKeepsMemory(s, largest);
    case DecoderRechecks => SleepBoundsMemory(s, largest);
    case _ => hide RealBytes, CountedBytes;
  }

  lemma {:induction false} RunKeepsMemory(s: State, steps: seq<Step>, t: State, largest: nat)
    requires MemoryInv(s, largest) && Run(s, steps, t)
    requires forall i | 0 <= i < |steps| :: SizeBounded(steps[i], largest)
    ensures MemoryInv(t, largest)
    decreases |steps|
  {
    hide MemoryInv, Enabled, Apply;
    if steps != [] {
      StepKeepsMemory(s, steps[0], largest);
      RunKeepsMemory(Apply(s, steps[0]), steps[1..], t, largest);
    }
  }

  /** Buffered PCM stays below a megabyte, plus a byte a frame, plus the largest frame, in every run. */
  lemma {:induction false} BufferMemoryIsBounded(steps: seq<Step>, t: State, largest: nat)
    requires Run(Init(), steps, t)
    requires forall i | 0 <= i < |steps| :: SizeBounded(steps[i], largest)
    ensures |t.frames| <= 2048
    ensures RealBytes(t.frames) < 1048576 + 2048 + largest
    ensures t.pcmSize >= CountedBytes(t.frames)
  {
    RunKeepsMemory(Init(), steps, t, largest);
  }
}
