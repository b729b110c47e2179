/**
 * The producer loop of ImageFileStreamer (producerStream), run
 * sequentially: each iteration renders the filename of frame i, asks the
 * importer for it, and then appends the image, stops, rewinds or fails.
 *
 * The importer is an oracle `disk` from filename to outcome. Since distinct
 * indices render to distinct filenames (FilenameFormats.FilenameInjective),
 * the loop is specified over `files`, the outcome per frame index, with
 * FilesOf(cfg, disk) joining the two. Whether the output buffer is still
 * alive at the k-th iteration is an oracle `alive`.
 */
module ProducerLoop {
  import opened FilenameFormats

  const Modulus: int := 0x1_0000_0000

  /** C++ `uint`. */
  newtype u32 = x: int | 0 <= x < 0x1_0000_0000

  /** `x++` on a uint: wraps from 2^32 - 1 to 0. */
  function Inc(x: u32): (r: u32)
    ensures r as int == (x as int + 1) % Modulus
  {
    if x == 0xFFFF_FFFF then 0 else x + 1
  }

  /** A decoded frame; its contents are opaque to the streamer. */
  datatype Image = Image(payload: seq<bv8>)

  /** What ImageFileImporter does with one filename. */
  datatype Load = Loaded(image: Image) | NotFound | OtherError

  /**
   * The output buffer at an append attempt: still alive, no longer valid
   * (ptr.isValid() is false), or alive but addFrame throws.
   */
  datatype Buffer = Live | Released | AddFrameThrows

  /** The exception that escapes producerStream. */
  datatype Failure = FileNotFound | ImportFailed

  datatype StopReason = BufferGone | EndOfStream | Threw(failure: Failure)

  /** What one iteration does next: go round again or leave the loop. */
  datatype Control = Continue | Stop(reason: StopReason)

  /** How a bounded run ends: still inside the loop, or out of it. */
  datatype Exit = StillRunning | Stopped(reason: StopReason)

  /** The configuration fields the loop reads. */
  datatype Settings = Settings(format: string, startNumber: u32, zeroFill: u32, loop: bool)

  /**
   * The loop index i, the fields mNrOfFrames, mFirstFrameIsInserted and
   * mHasReachedEnd, and the frames held by the output buffer.
   */
  datatype State = State(i: u32, nrOfFrames: u32, firstFrameIsInserted: bool, hasReachedEnd: bool, frames: seq<Image>)

  /** The state in which producerStream enters its loop, over a buffer holding `frames`. */
  function Start(cfg: Settings, nrOfFrames: u32, firstFrameIsInserted: bool, hasReachedEnd: bool, frames: seq<Image>): (s: State) {
    State(cfg.startNumber, nrOfFrames, firstFrameIsInserted, hasReachedEnd, frames)
  }

  /** The filename tried when the loop index is i. */
  function FileOf(cfg: Settings, i: nat): (filename: string)
    requires '#' in cfg.format
  {
    Filename(cfg.format, i, cfg.zeroFill as nat)
  }

  /** The importer's outcome for each frame index, given its outcome for each filename. */
  function FilesOf(cfg: Settings, disk: string -> Load): (files: nat -> Load)
    requires '#' in cfg.format
  {
    (i: nat) => disk(FileOf(cfg, i))
  }

  /** The importer's answer for index i, asked for by the filename rendered as the loop renders it. */
  method LoadFrame(cfg: Settings, disk: string -> Load, i: u32) returns (load: Load)
    requires '#' in cfg.format
    ensures load == FilesOf(cfg, disk)(i as nat)
  {
    var filename := RenderFilename(cfg.format, i as nat, cfg.zeroFill as nat);
    assert filename == FileOf(cfg, i as nat);
    load := disk(filename);
  }

  /** mNrOfFrames counts, modulo 2^32, the frames the buffer holds. */
  predicate FramesCounted(s: State) {
    s.nrOfFrames as int == |s.frames| % Modulus
  }

  /** One iteration of the producer loop, once the importer has answered `load` for the file of index i. */
  function Step(cfg: Settings, s: State, load: Load, buffer: Buffer): (r: (State, Control))
    // a frame is appended exactly when it loads and the buffer takes it
    ensures r.0.frames == (if load.Loaded? && buffer.Live? then s.frames + [load.image] else s.frames)
    // an appended frame advances the index and the frame count by one and releases execute()
    ensures load.Loaded? && buffer.Live? ==>
      && r.1 == Continue && r.0.firstFrameIsInserted && r.0.hasReachedEnd == s.hasReachedEnd
      && r.0.i == Inc(s.i) && r.0.nrOfFrames == Inc(s.nrOfFrames)
    // a missing file after index 0 is the end of the stream: rewind when looping, else finish
    ensures load.NotFound? && s.i > 0 ==>
      && r.0.firstFrameIsInserted && r.0.nrOfFrames == s.nrOfFrames
      && (cfg.loop ==> r.1 == Continue && r.0.i == cfg.startNumber && r.0.hasReachedEnd == s.hasReachedEnd)
      && (!cfg.loop ==> r.1 == Stop(EndOfStream) && r.0.i == s.i && r.0.hasReachedEnd)
    // every other way out of the loop changes nothing
    ensures r.1.Stop? && r.1.reason != EndOfStream ==> r.0 == s
    ensures r.1 == Stop(BufferGone) <==> load.Loaded? && !buffer.Live?
    ensures r.1 == Stop(Threw(FileNotFound)) <==> load.NotFound? && s.i == 0
    ensures r.1 == Stop(Threw(ImportFailed)) <==> load.OtherError?
  {
    match load
    case Loaded(image) =>
      if buffer.Live? then
        (s.(frames := s.frames + [image], firstFrameIsInserted := true,
            nrOfFrames := Inc(s.nrOfFrames), i := Inc(s.i)), Continue)
      else
        (s, Stop(BufferGone))
    case NotFound =>
      if s.i > 0 then
        if cfg.loop then (s.(firstFrameIsInserted := true, i := cfg.startNumber), Continue)
        else (s.(firstFrameIsInserted := true, hasReachedEnd := true), Stop(EndOfStream))
      else
        (s, Stop(Threw(FileNotFound)))
    case OtherError =>
      (s, Stop(Threw(ImportFailed)))
  }

  /** At most `fuel` iterations of the loop, the k-th of them seeing buffer state alive(step + k). */
  function Run(cfg: Settings, s: State, files: nat -> Load, alive: nat -> Buffer, step: nat, fuel: nat): (r: (State, Exit))
    // each iteration appends at most one frame, at the end of the buffer
    ensures |s.frames| <= |r.0.frames| <= |s.frames| + fuel && r.0.frames[..|s.frames|] == s.frames
    decreases fuel
  {
    if fuel == 0 then (s, StillRunning)
    else
      var (t, control) := Step(cfg, s, files(s.i as nat), alive(step));
      if control.Stop? then (t, Stopped(control.reason))
      else Run(cfg, t, files, alive, step + 1, fuel - 1)
  }

  /** The frame counter keeps counting the buffer's frames, whatever the files and the buffer do. */
  lemma {:induction false} RunKeepsFramesCounted(cfg: Settings, s: State, files: nat -> Load, alive: nat -> Buffer, step: nat, fuel: nat)
    requires FramesCounted(s)
    ensures FramesCounted(Run(cfg, s, files, alive, step, fuel).0)
    decreases fuel
  {
    if fuel > 0 {
      var (t, control) := Step(cfg, s, files(s.i as nat), alive(step));
      assert FramesCounted(t);
      if control.Continue? {
        RunKeepsFramesCounted(cfg, t, files, alive, step + 1, fuel - 1);
      }
    }
  }

  /**
   * Frames are only ever appended, the first-frame flag and the end flag are
   * never cleared, and the end flag is raised only by the end of a
   * non-looping stream.
   */
  lemma {:induction false} RunOnlyGrows(cfg: Settings, s: State, files: nat -> Load, alive: nat -> Buffer, step: nat, fuel: nat)
    ensures var (t, e) := Run(cfg, s, files, alive, step, fuel);
      && |s.frames| <= |t.frames| && t.frames[..|s.frames|] == s.frames
      && (s.firstFrameIsInserted ==> t.firstFrameIsInserted)
      && (s.hasReachedEnd ==> t.hasReachedEnd)
      && (t.hasReachedEnd && !s.hasReachedEnd ==> !cfg.loop && e == Stopped(EndOfStream))
    decreases fuel
  {
    if fuel > 0 {
      var (t, control) := Step(cfg, s, files(s.i as nat), alive(step));
      if control.Continue? {
        RunOnlyGrows(cfg, t, files, alive, step + 1, fuel - 1);
        var u := Run(cfg, t, files, alive, step + 1, fuel - 1).0;
        assert u.frames[..|s.frames|] == u.frames[..|t.frames|][..|s.frames|];
      }
    }
  }

  /** With looping on, the stream never reaches its end, however long it runs. */
  lemma {:induction false} LoopingNeverEnds(cfg: Settings, s: State, files: nat -> Load, alive: nat -> Buffer, step: nat, fuel: nat)
    requires cfg.loop
    ensures var (t, e) := Run(cfg, s, files, alive, step, fuel);
      t.hasReachedEnd == s.hasReachedEnd && e != Stopped(EndOfStream)
    decreases fuel
  {
    if fuel > 0 {
      var (t, control) := Step(cfg, s, files(s.i as nat), alive(step));
      if control.Continue? {
        LoopingNeverEnds(cfg, t, files, alive, step + 1, fuel - 1);
      }
    }
  }

  /** The files for indices from, ..., from + n - 1 all load. */
  predicate FilesPresent(files: nat -> Load, from: nat, n: nat)
  {
    forall j: nat :: from <= j < from + n ==> files(j).Loaded?
  }

  /** The buffer is alive at iterations from, ..., from + n - 1. */
  predicate BufferLive(alive: nat -> Buffer, from: nat, n: nat) {
    forall k: nat :: from <= k < from + n ==> alive(k).Live?
  }

  /**
   * Without looping, when the files for the next n indices load and the one
   * after is missing, n + 1 iterations append exactly those n images, in
   * order, and then end the stream.
   */
  lemma {:induction false} NumberedFilesThenEnd(cfg: Settings, s: State, files: nat -> Load, alive: nat -> Buffer, step: nat, n: nat)
    requires !cfg.loop
    requires 0 < s.i as int + n < Modulus
    requires FilesPresent(files, s.i as nat, n)
    requires files(s.i as nat + n).NotFound?
    requires BufferLive(alive, step, n)
    ensures var (t, e) := Run(cfg, s, files, alive, step, n + 1);
      && e == Stopped(EndOfStream)
      && t.hasReachedEnd
      && t.firstFrameIsInserted
      && t.i as int == s.i as int + n
      && t.nrOfFrames as int == (s.nrOfFrames as int + n) % Modulus
      && |t.frames| == |s.frames| + n
      && t.frames[..|s.frames|] == s.frames
      && forall j: nat :: s.i as int <= j < s.i as int + n ==>
           files(j) == Loaded(t.frames[|s.frames| + j - s.i as int])
    decreases n
  {
    if n > 0 {
      var (s1, control) := Step(cfg, s, files(s.i as nat), alive(step));
      assert s1.i as int == s.i as int + 1;
      assert FilesPresent(files, s1.i as nat, n - 1);
      assert BufferLive(alive, step + 1, n - 1);
      NumberedFilesThenEnd(cfg, s1, files, alive, step + 1, n - 1);
      var t := Run(cfg, s1, files, alive, step + 1, n).0;
      assert t.frames[..|s.frames|] == t.frames[..|s1.frames|][..|s.frames|];
      assert t.frames[|s.frames|] == t.frames[..|s1.frames|][|s.frames|];
    }
  }

  /**
   * With looping on, when the files for the next n indices load and the one
   * after is missing, n + 1 iterations append exactly those n images, in
   * order, and then rewind the index to the start number without leaving
   * the loop.
   */
  lemma {:induction false} NumberedFilesThenRestart(cfg: Settings, s: State, files: nat -> Load, alive: nat -> Buffer, step: nat, n: nat)
    requires cfg.loop
    requires 0 < s.i as int + n < Modulus
    requires FilesPresent(files, s.i as nat, n)
    requires files(s.i as nat + n).NotFound?
    requires BufferLive(alive, step, n)
    ensures var (t, e) := Run(cfg, s, files, alive, step, n + 1);
      && e == StillRunning
      && t.i == cfg.startNumber
      && t.firstFrameIsInserted
      && t.hasReachedEnd == s.hasReachedEnd
      && t.nrOfFrames as int == (s.nrOfFrames as int + n) % Modulus
      && |t.frames| == |s.frames| + n
      && t.frames[..|s.frames|] == s.frames
      && forall j: nat :: s.i as int <= j < s.i as int + n ==>
           files(j) == Loaded(t.frames[|s.frames| + j - s.i as int])
    decreases n
  {
    if n > 0 {
      var (s1, control) := Step(cfg, s, files(s.i as nat), alive(step));
      assert s1.i as int == s.i as int + 1;
      assert FilesPresent(files, s1.i as nat, n - 1);
      assert BufferLive(alive, step + 1, n - 1);
      NumberedFilesThenRestart(cfg, s1, files, alive, step + 1, n - 1);
      var t := Run(cfg, s1, files, alive, step + 1, n).0;
      assert t.frames[..|s.frames|] == t.frames[..|s1.frames|][..|s.frames|];
      assert t.frames[|s.frames|] == t.frames[..|s1.frames|][|s.frames|];
    }
  }

  /**
   * With looping on and a non-zero start number whose file is missing, the
   * loop rewinds to that same missing file for ever: it releases execute()
   * after the first iteration, but appends nothing and never ends the stream.
   */
  lemma {:induction false} MissingFirstFileAtLaterStartSpins(cfg: Settings, s: State, files: nat -> Load, alive: nat -> Buffer, step: nat, fuel: nat)
    requires cfg.loop
    requires cfg.startNumber > 0 && files(cfg.startNumber as nat).NotFound?
    requires s.i == cfg.startNumber
    ensures Run(cfg, s, files, alive, step, fuel)
      == (if fuel == 0 then s else s.(firstFrameIsInserted := true), StillRunning)
    decreases fuel
  {
    if fuel > 0 {
      var t := s.(firstFrameIsInserted := true);
      assert Step(cfg, s, files(s.i as nat), alive(step)) == (t, Continue);
      MissingFirstFileAtLaterStartSpins(cfg, t, files, alive, step + 1, fuel - 1);
    }
  }

  /** The loop index stays within the present files and the first missing one. */
  predicate InLoop(cfg: Settings, s: State, n: nat) {
    cfg.startNumber <= s.i && s.i as int <= cfg.startNumber as int + n && !s.hasReachedEnd
  }

  /**
   * With looping on, files start, ..., start + n - 1 present, the next one
   * missing, and a buffer that stays alive, the loop never stops: it keeps
   * appending frames and rewinding to the start number.
   */
  lemma {:induction false} LoopingRunsForever(cfg: Settings, s: State, files: nat -> Load, alive: nat -> Buffer, step: nat, n: nat, fuel: nat)
    requires cfg.loop
    requires 0 < cfg.startNumber as int + n < Modulus
    requires FilesPresent(files, cfg.startNumber as nat, n)
    requires files(cfg.startNumber as nat + n).NotFound?
    requires forall k: nat :: step <= k ==> alive(k).Live?
    requires InLoop(cfg, s, n)
    ensures var (t, e) := Run(cfg, s, files, alive, step, fuel);
      e == StillRunning && InLoop(cfg, t, n)
    decreases fuel
  {
    if fuel > 0 {
      var (t, control) := Step(cfg, s, files(s.i as nat), alive(step));
      if s.i as int < cfg.startNumber as int + n {
        assert files(s.i as nat).Loaded?;
      }
      assert control == Continue && InLoop(cfg, t, n);
      LoopingRunsForever(cfg, t, files, alive, step + 1, n, fuel - 1);
    }
  }

  /**
   * A missing file at index 0 escapes the loop as an exception: nothing is
   * appended, the end flag stays down and execute() is never released.
   */
  lemma MissingFileAtIndexZeroThrows(cfg: Settings, s: State, files: nat -> Load, alive: nat -> Buffer, step: nat, fuel: nat)
    requires fuel > 0
    requires s.i == 0 && files(0).NotFound?
    ensures Run(cfg, s, files, alive, step, fuel) == (s, Stopped(Threw(FileNotFound)))
  {
  }

  /**
   * The end-of-stream test is i > 0, not i > start number: with a non-zero
   * start number a missing first file ends the stream (non-looping) with no
   * frames at all, and releases execute().
   */
  lemma MissingFirstFileAtLaterStartEnds(cfg: Settings, files: nat -> Load, alive: nat -> Buffer, fuel: nat)
    requires !cfg.loop && fuel > 0
    requires cfg.startNumber > 0 && files(cfg.startNumber as nat).NotFound?
    ensures var (t, e) := Run(cfg, Start(cfg, 0, false, false, []), files, alive, 0, fuel);
      && e == Stopped(EndOfStream) && t.frames == [] && t.hasReachedEnd && t.firstFrameIsInserted
  {
  }

  /** Three frames present and the fourth missing: four iterations append the three and end the stream. */
  lemma ThreeFramesThenEnd(cfg: Settings, files: nat -> Load, alive: nat -> Buffer)
    requires cfg.startNumber == 0 && !cfg.loop
    requires files(0).Loaded? && files(1).Loaded? && files(2).Loaded? && files(3).NotFound?
    requires alive(0).Live? && alive(1).Live? && alive(2).Live?
    ensures var (t, e) := Run(cfg, Start(cfg, 0, false, false, []), files, alive, 0, 4);
      && e == Stopped(EndOfStream) && t.hasReachedEnd && t.nrOfFrames == 3
      && t.frames == [files(0).image, files(1).image, files(2).image]
  {
    forall j: nat | j < 3
      ensures files(j).Loaded?
    {
      assert j == 0 || j == 1 || j == 2;
    }
    forall k: nat | k < 3
      ensures alive(k).Live?
    {
      assert k == 0 || k == 1 || k == 2;
    }
    NumberedFilesThenEnd(cfg, Start(cfg, 0, false, false, []), files, alive, 0, 3);
    var t := Run(cfg, Start(cfg, 0, false, false, []), files, alive, 0, 4).0;
    assert t.frames == [t.frames[0], t.frames[1], t.frames[2]];
  }

  /**
   * The "frame_#.img" stream with three-digit zero fill and files for
   * frames 0, 1 and 2 only: four iterations load frame_000.img,
   * frame_001.img and frame_002.img into the buffer and end the stream.
   */
  lemma ExampleStream(disk: string -> Load, alive: nat -> Buffer)
    requires disk("frame_" + "000" + ".img").Loaded?
    requires disk("frame_" + "001" + ".img").Loaded?
    requires disk("frame_" + "002" + ".img").Loaded?
    requires disk("frame_" + "003" + ".img").NotFound?
    requires alive(0).Live? && alive(1).Live? && alive(2).Live?
    ensures var cfg := Settings("frame_#.img", 0, 3, false);
      var (t, e) := Run(cfg, Start(cfg, 0, false, false, []), FilesOf(cfg, disk), alive, 0, 4);
      && e == Stopped(EndOfStream) && t.hasReachedEnd && t.nrOfFrames == 3
      && t.frames == [disk("frame_" + "000" + ".img").image, disk("frame_" + "001" + ".img").image,
                      disk("frame_" + "002" + ".img").image]
  {
    var cfg := Settings("frame_#.img", 0, 3, false);
    var files := FilesOf(cfg, disk);
    assert files(0) == disk(FileOf(cfg, 0)) && FileOf(cfg, 0) == Filename("frame_#.img", 0, 3);
    assert files(1) == disk(FileOf(cfg, 1)) && FileOf(cfg, 1) == Filename("frame_#.img", 1, 3);
    assert files(2) == disk(FileOf(cfg, 2)) && FileOf(cfg, 2) == Filename("frame_#.img", 2, 3);
    assert files(3) == disk(FileOf(cfg, 3)) && FileOf(cfg, 3) == Filename("frame_#.img", 3, 3);
    ExampleFilenames();
    ThreeFramesThenEnd(cfg, files, alive);
  }
}
