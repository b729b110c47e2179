/**
 * The ImageFileStreamer object: its configuration fields and setters, the
 * start-once logic of execute(), and the producer loop run in place on the
 * object's fields and its DynamicImage output buffer.
 */
module Streamers {
  import opened FilenameFormats
  import opened ProducerLoop

  /** The configuration exceptions ImageFileStreamer throws to its caller. */
  datatype ConfigError = FormatWithoutHash | NoFilenameFormat

  datatype Status = Ok | Failed(error: ConfigError)

  /** The streamer's output: an ordered, growing list of frames. */
  class DynamicImage {
    var frames: seq<Image>

    constructor ()
      ensures frames == []
    {
      frames := [];
    }

    method AddFrame(image: Image)
      modifies this
      ensures frames == old(frames) + [image]
    {
      frames := frames + [image];
    }
  }

  class ImageFileStreamer {
    const output: DynamicImage
    var filenameFormat: string
    var streamIsStarted: bool
    var isModified: bool
    var loop: bool
    var startNumber: u32
    var zeroFillDigits: u32
    var firstFrameIsInserted: bool
    var hasReachedEnd: bool
    var nrOfFrames: u32

    /**
     * The format is empty or holds a '#'; the producer is only started with
     * a format; the frame counter counts the output's frames; and the end of
     * the stream is only reported once execute() has been released.
     */
    ghost predicate Valid()
      reads this, output
    {
      && (filenameFormat == [] || '#' in filenameFormat)
      && (streamIsStarted ==> filenameFormat != [])
      && nrOfFrames as int == |output.frames| % Modulus
      && (hasReachedEnd ==> firstFrameIsInserted)
    }

    /** The configuration the producer loop reads. */
    function CurrentSettings(): (cfg: Settings)
      reads this
    {
      Settings(filenameFormat, startNumber, zeroFillDigits, loop)
    }

    /** The loop's state when its index is i. */
    function ProducerState(i: u32): (s: State)
      reads this, output
    {
      State(i, nrOfFrames, firstFrameIsInserted, hasReachedEnd, output.frames)
    }

    constructor ()
      ensures Valid() && fresh(output) && output.frames == []
      ensures filenameFormat == [] && !streamIsStarted && isModified && !loop
      ensures startNumber == 0 && zeroFillDigits == 0
      ensures !firstFrameIsInserted && !hasReachedEnd && nrOfFrames == 0
    {
      output := new DynamicImage();
      streamIsStarted := false;
      isModified := true;
      loop := false;
      startNumber := 0;
      zeroFillDigits := 0;
      firstFrameIsInserted := false;
      hasReachedEnd := false;
      filenameFormat := "";
      nrOfFrames := 0;
    }

    /** getNrOfFrames: the number of frames appended so far, as a uint. */
    function NrOfFrames(): (n: u32)
      reads this, output
      requires Valid()
      ensures n as int == |output.frames| % Modulus
    {
      nrOfFrames
    }

    /** hasReachedEnd: never true before execute() has been released. */
    function HasReachedEnd(): (ended: bool)
      reads this, output
      requires Valid()
      ensures ended ==> firstFrameIsInserted
    {
      hasReachedEnd
    }

    /** A format without '#' is refused and the old one kept; any other is stored as given. */
    method SetFilenameFormat(str: string) returns (status: Status)
      requires Valid()
      modifies this`filenameFormat
      ensures Valid()
      ensures '#' !in str ==> status == Failed(FormatWithoutHash) && filenameFormat == old(filenameFormat)
      ensures '#' in str ==> status == Ok && filenameFormat == str
    {
      if FirstHash(str).None? {
        return Failed(FormatWithoutHash);
      }
      filenameFormat := str;
      status := Ok;
    }

    method SetStartNumber(n: u32)
      requires Valid()
      modifies this`startNumber
      ensures Valid() && startNumber == n
    {
      startNumber := n;
    }

    method SetZeroFilling(digits: u32)
      requires Valid()
      modifies this`zeroFillDigits
      ensures Valid() && zeroFillDigits == digits
    {
      zeroFillDigits := digits;
    }

    method EnableLooping()
      requires Valid()
      modifies this`loop
      ensures Valid() && loop
    {
      loop := true;
    }

    method DisableLooping()
      requires Valid()
      modifies this`loop
      ensures Valid() && !loop
    {
      loop := false;
    }

    /**
     * execute() up to the wait for the first frame: refused without a
     * format; otherwise the producer is launched on the first call only.
     */
    method Execute() returns (status: Status, launched: bool)
      requires Valid()
      modifies this`streamIsStarted
      ensures Valid()
      ensures filenameFormat == [] ==>
        status == Failed(NoFilenameFormat) && !launched && streamIsStarted == old(streamIsStarted)
      ensures filenameFormat != [] ==>
        status == Ok && streamIsStarted && launched == !old(streamIsStarted)
    {
      if filenameFormat == "" {
        return Failed(NoFilenameFormat), false;
      }
      launched := false;
      if !streamIsStarted {
        streamIsStarted := true;
        launched := true;
      }
      status := Ok;
    }

    /** The body of producerStream's loop once the importer has answered `load` for index i. */
    method Advance(i: u32, load: Load, buffer: Buffer) returns (next: u32, control: Control)
      requires Valid() && streamIsStarted
      modifies this`firstFrameIsInserted, this`hasReachedEnd, this`nrOfFrames, output
      ensures Valid()
      ensures (ProducerState(next), control) == Step(CurrentSettings(), old(ProducerState(i)), load, buffer)
    {
      match load {
        case Loaded(image) =>
          if buffer.Live? {
            output.AddFrame(image);
            firstFrameIsInserted := true;
            nrOfFrames := Inc(nrOfFrames);
            next, control := Inc(i), Continue;
          } else {
            next, control := i, Stop(BufferGone);
          }
        case NotFound =>
          if i > 0 {
            firstFrameIsInserted := true;
            if loop {
              next, control := startNumber, Continue;
            } else {
              hasReachedEnd := true;
              next, control := i, Stop(EndOfStream);
            }
          } else {
            next, control := i, Stop(Threw(FileNotFound));
          }
        case OtherError =>
          next, control := i, Stop(Threw(ImportFailed));
      }
    }

    /** One iteration of producerStream's loop, with index i: render the filename, import it, advance. */
    method ProducerStep(i: u32, disk: string -> Load, buffer: Buffer) returns (next: u32, control: Control)
      requires Valid() && streamIsStarted
      modifies this`firstFrameIsInserted, this`hasReachedEnd, this`nrOfFrames, output
      ensures Valid()
      ensures (ProducerState(next), control)
        == Step(CurrentSettings(), old(ProducerState(i)), FilesOf(CurrentSettings(), disk)(i as nat), buffer)
    {
      var load := LoadFrame(CurrentSettings(), disk, i);
      next, control := Advance(i, load, buffer);
    }

    /**
     * producerStream, for at most `fuel` iterations: the index starts at the
     * start number, and the k-th iteration sees buffer state alive(k).
     */
    method ProducerStream(disk: string -> Load, alive: nat -> Buffer, fuel: nat) returns (i: u32, exit: Exit)
      requires Valid() && streamIsStarted
      modifies this`firstFrameIsInserted, this`hasReachedEnd, this`nrOfFrames, output
      ensures Valid()
      ensures (ProducerState(i), exit)
        == Run(CurrentSettings(), old(ProducerState(startNumber)), FilesOf(CurrentSettings(), disk), alive, 0, fuel)
    {
      var cfg := CurrentSettings();
      ghost var files := FilesOf(cfg, disk);
      ghost var total := Run(cfg, ProducerState(startNumber), files, alive, 0, fuel);
      i := startNumber;
      exit := StillRunning;
      var k := 0;
      while k < fuel && exit.StillRunning?
        invariant 0 <= k <= fuel
        invariant Valid() && streamIsStarted && CurrentSettings() == cfg
        invariant exit.StillRunning? ==> total == Run(cfg, ProducerState(i), files, alive, k, fuel - k)
        invariant exit.Stopped? ==> total == (ProducerState(i), exit)
      {
        ghost var before := ProducerState(i);
        var control;
        i, control := ProducerStep(i, disk, alive(k));
        ghost var after := ProducerState(i);
        assert Step(cfg, before, files(before.i as nat), alive(k)) == (after, control);
        assert Run(cfg, before, files, alive, k, fuel - k)
          == if control.Stop? then (after, Stopped(control.reason)) else Run(cfg, after, files, alive, k + 1, fuel - k - 1);
        if control.Stop? {
          exit := Stopped(control.reason);
        }
        k := k + 1;
      }
    }
  }

  /** A call a client makes on the streamer. */
  datatype Call =
    | SetFormat(format: string)
    | SetStart(startNumber: u32)
    | SetZeroFill(digits: u32)
    | Loop(on: bool)
    | Execute

  /**
   * Any sequence of configuration calls and execute() calls launches the
   * producer at most once, and once launched it stays started.
   */
  method Drive(s: ImageFileStreamer, calls: seq<Call>) returns (launches: nat)
    requires s.Valid()
    modifies s
    ensures s.Valid()
    ensures launches <= 1
    ensures launches == 1 <==> !old(s.streamIsStarted) && s.streamIsStarted
    ensures old(s.streamIsStarted) ==> s.streamIsStarted
  {
    launches := 0;
    for n := 0 to |calls|
      invariant s.Valid()
      invariant old(s.streamIsStarted) ==> s.streamIsStarted
      invariant launches == if !old(s.streamIsStarted) && s.streamIsStarted then 1 else 0
    {
      match calls[n]
      case SetFormat(format) =>
        var _ := s.SetFilenameFormat(format);
      case SetStart(startNumber) =>
        s.SetStartNumber(startNumber);
      case SetZeroFill(digits) =>
        s.SetZeroFilling(digits);
      case Loop(on) =>
        if on { s.EnableLooping(); } else { s.DisableLooping(); }
      case Execute =>
        var _, launched := s.Execute();
        if launched {
          launches := launches + 1;
        }
    }
  }
}
