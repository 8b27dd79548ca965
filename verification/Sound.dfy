/**
 Re-blocking of audio for a device that takes whole blocks of 4608 bytes, and the early-exit silence
 test that decides which frames are played at all.
 */
module Sound {

  const BLOCK := 4608

  ghost predicate Zeros(s: seq<bv8>) {
    forall i | 0 <= i < |s| :: s[i] == 0
  }

  class SoundDevice {
    const buffer: array<bv8>
    var bufferSize: int
    var written: seq<bv8> // what the device has been given

    /** Between calls there is always room for a byte, and only whole blocks have been written. */
    ghost predicate Valid()
      reads this, buffer
    {
      buffer.Length == BLOCK && 0 <= bufferSize < BLOCK && |written| % BLOCK == 0
    }

    /** Everything accepted so far: written, then still buffered. */
    ghost function Stream(): seq<bv8>
      requires Valid()
      reads this, buffer
    {
      written + buffer[..bufferSize]
    }

    constructor ()
      ensures Valid() && fresh(buffer) && Stream() == [] && written == []
    {
      buffer := new bv8[BLOCK];
      bufferSize, written := 0, [];
    }

    /** memcpy into the device buffer. */
    method Fill(data: seq<bv8>)
      requires buffer.Length == BLOCK && 0 <= bufferSize && bufferSize + |data| <= BLOCK
      modifies buffer, `bufferSize
      ensures bufferSize == old(bufferSize) + |data|
      ensures buffer[..bufferSize] == old(buffer[..bufferSize]) + data
    {
      var i := 0;
      while i < |data|
        invariant 0 <= i <= |data| && bufferSize == old(bufferSize)
        invariant buffer[..bufferSize + i] == old(buffer[..bufferSize]) + data[..i]
      {
        buffer[bufferSize + i] := data[i];
        assert data[..i + 1] == data[..i] + [data[i]];
        i := i + 1;
      }
      assert data[..i] == data;
      bufferSize := bufferSize + |data|;
    }

    method WriteBlock()
      requires buffer.Length == BLOCK && bufferSize == BLOCK && |written| % BLOCK == 0
      modifies `bufferSize, `written
      ensures Valid() && bufferSize == 0 && written == old(written) + buffer[..]
    {
      written := written + buffer[..];
      bufferSize := 0;
    }

    /** One pass of the copy loop: store a chunk that fits, and write the block if that filled it. */
    method Put(chunk: seq<bv8>)
      requires Valid() && bufferSize + |chunk| <= BLOCK
      modifies this, buffer
      ensures Valid() && Stream() == old(Stream()) + chunk && old(written) <= written
    {
      ghost var stored := buffer[..bufferSize];
      Fill(chunk);
      assert written + (stored + chunk) == written + stored + chunk;
      if bufferSize == BLOCK {
        assert buffer[..] == buffer[..bufferSize];
        WriteBlock();
        assert Stream() == written;
      }
    }

    /** Adds the frame to the stream, in whole blocks, keeping the remainder. */
    method SoundPlay(frame: seq<bv8>)
      requires Valid()
      modifies this, buffer
      ensures Valid()
      ensures Stream() == old(Stream()) + frame
      ensures old(written) <= written
    {
      ghost var before := Stream();
      var i := 0;
      assert before == before + frame[..0];
      while i < |frame|
        invariant 0 <= i <= |frame| && Valid()
        invariant Stream() == before + frame[..i]
        invariant old(written) <= written
      {
        var bufferRemain := BLOCK - bufferSize;
        var pcmRemain := |frame| - i;
        var copyAmount := if pcmRemain > bufferRemain then bufferRemain else pcmRemain;
        Put(frame[i..i + copyAmount]);
        assert frame[..i + copyAmount] == frame[..i] + frame[i..i + copyAmount];
        i := i + copyAmount;
      }
      assert frame[..i] == frame;
    }

    /** Fills up the last block with zeros, if there is one, and writes it. */
    method SoundClose()
      requires Valid()
      modifies this, buffer
      ensures Valid() && bufferSize == 0
      ensures old(Stream()) <= written && |written| - |old(Stream())| < BLOCK
      ensures Zeros(written[|old(Stream())|..])
    {
      if bufferSize != 0 {
        ghost var before := Stream();
        var zeros: seq<bv8> := seq(BLOCK - bufferSize, _ => 0);
        Fill(zeros);
        assert buffer[..] == buffer[..bufferSize];
        WriteBlock();
        assert written == before + zeros;
      }
    }
  }

  ghost function Concat(frames: seq<seq<bv8>>): seq<bv8> {
    if frames == [] then [] else Concat(frames[..|frames| - 1]) + frames[|frames| - 1]
  }

  /** For any frames, the device receives exactly their bytes, padded with zeros to whole blocks. */
  method PlayAll(frames: seq<seq<bv8>>) returns (written: seq<bv8>)
    ensures |written| % 4608 == 0
    ensures Concat(frames) <= written && |written| - |Concat(frames)| < 4608
    ensures Zeros(written[|Concat(frames)|..])
  {
    var device := new SoundDevice();
    var i := 0;
    while i < |frames|
      invariant 0 <= i <= |frames|
      invariant device.Valid() && fresh(device) && fresh(device.buffer)
      invariant device.Stream() == Concat(frames[..i])
    {
      assert frames[..i + 1][..i] == frames[..i];
      device.SoundPlay(frames[i]);
      i := i + 1;
    }
    assert frames[..i] == frames;
    device.SoundClose();
    written := device.written;
  }

  // ---- Silence ----

  const ONE_SECOND := 176400

  function CountZeros(pcm: seq<bv8>): nat {
    if pcm == [] then 0
    else CountZeros(pcm[..|pcm| - 1]) + if pcm[|pcm| - 1] == 0 then 1 else 0
  }

  function Threshold(size: nat): nat {
    size * 30 / 100
  }

  /** How many bytes are zero. */
  lemma {:induction false} CountZerosCounts(pcm: seq<bv8>)
    ensures CountZeros(pcm) == |set i | 0 <= i < |pcm| && pcm[i] == 0|
  {
    if pcm != [] {
      var n := |pcm| - 1;
      var before, all := set i | 0 <= i < n && pcm[..n][i] == 0, set i | 0 <= i < |pcm| && pcm[i] == 0;
      CountZerosCounts(pcm[..n]);
      assert before == set i | 0 <= i < |pcm[..n]| && pcm[..n][i] == 0;
      if pcm[n] == 0 { assert all == before + {n}; } else { assert all == before; }
    }
  }

  lemma {:induction false} ZerosInTail(pcm: seq<bv8>, i: nat)
    requires i <= |pcm|
    ensures CountZeros(pcm[..i]) <= CountZeros(pcm) <= CountZeros(pcm[..i]) + (|pcm| - i)
    decreases |pcm| - i
  {
    if i < |pcm| {
      assert pcm[..i + 1][..i] == pcm[..i];
      ZerosInTail(pcm, i + 1);
    } else {
      assert pcm[..i] == pcm;
    }
  }

  /**
   A frame of at least four bytes is always decided, and exactly: silent when three tenths of its
   bytes are zero. Shorter frames, whose threshold is nothing, are never found loud.
   */
  function Silence(pcm: seq<bv8>, duration: nat): nat {
    if |pcm| >= 4 then
      if CountZeros(pcm) >= Threshold(|pcm|) then duration + |pcm| else 0
    else if CountZeros(pcm) > 0 then duration + |pcm| else duration
  }

  method DetectSilence(pcm: seq<bv8>, duration: nat) returns (skip: bool, duration': nat)
    ensures duration' == Silence(pcm, duration)
    ensures |pcm| >= 4 && 100 * (CountZeros(pcm) + 1) > 30 * |pcm| ==> duration' == duration + |pcm|
    ensures |pcm| >= 4 && 100 * (CountZeros(pcm) + 1) <= 30 * |pcm| ==> duration' == 0
    ensures skip <==> duration' > 176400
  {
    var threshold := Threshold(|pcm|);
    var zeroCount, i := 0, 0;
    var decided := false;
    duration' := duration;
    assert pcm[..0] == [];
    while i < |pcm| && !decided
      invariant 0 <= i <= |pcm|
      invariant decided ==> duration' == Silence(pcm, duration)
      invariant !decided ==> zeroCount == CountZeros(pcm[..i]) && duration' == duration
      invariant !decided && threshold >= 1 ==> zeroCount < threshold
      invariant !decided && threshold >= 1 ==> threshold - zeroCount <= |pcm| - i
      invariant !decided && threshold == 0 ==> zeroCount == 0
    {
      assert pcm[..i + 1][..i] == pcm[..i];
      ZerosInTail(pcm, i + 1);
      if pcm[i] == 0 {
        zeroCount := zeroCount + 1;
        if zeroCount >= threshold {
          duration' := duration' + |pcm|;
          decided := true;
        }
      } else if threshold - zeroCount >= |pcm| - i {
        duration' := 0;
        decided := true;
      }
      i := i + 1;
    }
    assert !decided ==> pcm[..i] == pcm;
    skip := duration' > ONE_SECOND;
  }

  /** The duration kept while the frames of a song go by. */
  function SongSilence(frames: seq<seq<bv8>>): nat {
    if frames == [] then 0 else Silence(frames[|frames| - 1], SongSilence(frames[..|frames| - 1]))
  }

  ghost predicate IsSilent(pcm: seq<bv8>) {
    CountZeros(pcm) >= Threshold(|pcm|)
  }

  ghost function TotalSize(frames: seq<seq<bv8>>): nat {
    if frames == [] then 0 else TotalSize(frames[..|frames| - 1]) + |frames[|frames| - 1]|
  }

  /** The kept duration is the total size of the unbroken run of silent frames that ends now. */
  lemma {:induction false} DurationIsCurrentRun(frames: seq<seq<bv8>>, k: nat)
    requires k <= |frames| && forall i | 0 <= i < |frames| :: |frames[i]| >= 4
    requires forall i | k <= i < |frames| :: IsSilent(frames[i])
    requires k > 0 ==> !IsSilent(frames[k - 1])
    ensures SongSilence(frames) == TotalSize(frames[k..])
    decreases |frames|
  {
    if k < |frames| {
      var front := frames[..|frames| - 1];
      DurationIsCurrentRun(front, k);
      assert frames[k..][..|frames| - 1 - k] == front[k..];
    } else {
      assert frames[k..] == [];
    }
  }
}
