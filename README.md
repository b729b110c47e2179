# ImageFileStreamer: a Dafny model

This project models FAST's `ImageFileStreamer`. The streamer loads a numbered
sequence of image files (`frame_000.img`, `frame_001.img`, ...) one after
another into a growing `DynamicImage` buffer. Four parts are modelled:

- **frame_numbers.dfy** (`FrameNumbers`): the frame number written into a
  filename. It is the index in decimal, left-padded with `'0'` up to the
  zero-fill width when it is shorter. The file also has a reader (`Value`) that
  turns digits back into the index.
- **filename_format.dfy** (`FilenameFormats`): `std::string::find("#")` and the
  replacement of the first `#` of the format by the frame number. It also has
  the inverse (`FrameIndex`), which reads the index back out of a filename, and
  the imperative rendering with its zero-fill loop, proved equal to the
  function.
- **producer.dfy** (`ProducerLoop`): the producer loop (`producerStream`) as a
  sequential state machine.
  - State: the index `i`, `mNrOfFrames`, `mFirstFrameIsInserted`,
    `mHasReachedEnd` and the frames in the output buffer.
  - `Step` is one iteration; `Run` is at most `fuel` iterations.
  - The importer is an oracle that gives, for each filename, one of: an image,
    file-not-found, or another failure.
  - Whether the output buffer is still alive at each iteration is a second
    oracle.
  - Because distinct indices give distinct filenames (`FilenameInjective`),
    `Run` is stated over the importer's answer per frame index.
    `FilesOf(cfg, disk)` joins the two views.
- **streamer.dfy** (`Streamers`): the `ImageFileStreamer` object as a class.
  - Its fields: the format, start number, zero fill, loop flag, start-once
    flag, first-frame flag, end flag and frame counter.
  - Its output is a `DynamicImage` class holding the frame list.
  - It has the constructor, the setters, `execute()`'s format check and
    start-once logic, and one loop iteration (`Advance`, `ProducerStep`). The
    fuel-bounded loop (`ProducerStream`) runs in place on the fields and is
    proved equal to `Run`.
  - `Drive` runs any sequence of client calls and launches the producer at most
    once.

`uint` is the newtype `u32`. Both `i++` and `mNrOfFrames++` wrap from
2^32 - 1 to 0 (`Inc`), so the frame counter is the number of frames modulo
2^32.

Where the code and the design notes differ, the model follows the code:

- **End-of-stream test.** The code tests `i > 0`, not `i > mStartNumber`
  (`source/Streamers/ImageFileStreamer.cpp:113`). Suppose the start number is
  not zero and its file is missing. Without looping, the stream then ends
  normally with no frames and releases `execute()`
  (`MissingFirstFileAtLaterStartEnds`); it is not treated as a failure. With
  looping on, the loop releases `execute()`, rewinds to that same missing file
  and spins for ever, appending nothing and never raising the end flag
  (`MissingFirstFileAtLaterStartSpins`).
- **Missing file at index 0.** This is not reported to the caller of
  `execute()`. The exception is rethrown inside the producer thread
  (`source/Streamers/ImageFileStreamer.cpp:129-131`) and the first-frame flag
  is never set. The model reports it as the loop's exit `Stopped(Threw(FileNotFound))`
  with the state unchanged (`MissingFileAtIndexZeroThrows`).

## Model

| member | source | states |
|---|---|---|
| FrameNumbers.Decimal | source/Streamers/ImageFileStreamer.cpp:74 | the lexical cast of the index is a non-empty run of digits, with a leading '0' exactly when the index is 0 |
| FrameNumbers.ValueOfDecimal | source/Streamers/ImageFileStreamer.cpp:74 | reading the decimal text back gives the index (the cast is faithful) |
| FrameNumbers.FrameNumber | source/Streamers/ImageFileStreamer.cpp:74-81 | the frame number is max(digits(i), zero fill) long, is all digits, ends with the decimal text of i and has only '0' before it; it is the plain decimal text when the zero fill is 0 or not wider than the index |
| FrameNumbers.LeadingZerosKeepValue | source/Streamers/ImageFileStreamer.cpp:75-80 | prefixing zeros keeps a digit string's value |
| FrameNumbers.FrameNumberValue | source/Streamers/ImageFileStreamer.cpp:74-81 | reading a zero-filled frame number back gives the index, for every width |
| FrameNumbers.FrameNumberInjective | source/Streamers/ImageFileStreamer.cpp:74-81 | distinct indices get distinct frame numbers under the same zero fill |
| FilenameFormats.FindHash | source/Streamers/ImageFileStreamer.cpp:60 | find("#", from) answers npos exactly when no '#' lies at or after `from`; otherwise it gives the first '#' there |
| FilenameFormats.FirstHash | source/Streamers/ImageFileStreamer.cpp:83 | find("#") answers npos exactly when the string holds no '#'; otherwise it gives the position of the first '#' |
| FilenameFormats.ReplaceFirstHash | source/Streamers/ImageFileStreamer.cpp:82-86 | replacing the first '#' keeps the text before it (which has no '#'), puts the number in its place and keeps everything after it, later '#' included; the length grows by the length of the number, less one |
| FilenameFormats.Filename | source/Streamers/ImageFileStreamer.cpp:73-86 | the filename of index i is the format with its first '#' replaced by max(digits(i), zero fill) digits that read back as i; the text before and after that '#' is kept |
| FilenameFormats.FrameIndexOfFilename | source/Streamers/ImageFileStreamer.cpp:73-86 | the index can be read back from every rendered filename |
| FilenameFormats.FilenameInjective | source/Streamers/ImageFileStreamer.cpp:73-86 | distinct indices load distinct files |
| FilenameFormats.RenderFilename | source/Streamers/ImageFileStreamer.cpp:73-86 | the rendering with its zero-fill loop and in-place replace gives the format with the first '#' replaced by the frame number |
| FilenameFormats.ExampleFormatSplit | source/Streamers/ImageFileStreamer.cpp:82-86 | with the format "frame_#.img", the frame number lands between "frame_" and ".img" |
| FilenameFormats.ExampleFilenames | source/Streamers/ImageFileStreamer.cpp:73-86 | with zero fill 3, indices 0 to 3 give frame_000.img up to frame_003.img |
| FilenameFormats.ExampleWideIndex | source/Streamers/ImageFileStreamer.cpp:75 | an index wider than the zero fill is not padded or cut: 1234 gives frame_1234.img |
| ProducerLoop.Inc | source/Streamers/ImageFileStreamer.cpp:110-111 | `++` on a uint is +1 modulo 2^32 |
| ProducerLoop.Step | source/Streamers/ImageFileStreamer.cpp:87-132 | an iteration appends a frame exactly when the file loads and the buffer is live; the append sets the first-frame flag and adds 1 to the counter and to i. A missing file with i > 0 sets the first-frame flag and then either rewinds to the start number (looping) or raises the end flag and stops. A dead buffer stops the loop, and so does a missing file at i == 0 or any other import failure (each iff); these stops change nothing |
| ProducerLoop.Run | source/Streamers/ImageFileStreamer.cpp:70-134 | the loop: `Step` again and again from the given state until an iteration stops it or the fuel runs out; each iteration appends at most one frame, at the end of the buffer |
| ProducerLoop.LoadFrame | source/Streamers/ImageFileStreamer.cpp:73-91 | renders the filename of index i (zero-fill loop and replace) and hands it to the importer; the answer is the importer's answer for frame index i |
| ProducerLoop.RunKeepsFramesCounted | source/Streamers/ImageFileStreamer.cpp:70-134 | through any run, mNrOfFrames equals the buffer's frame count modulo 2^32 |
| ProducerLoop.RunOnlyGrows | source/Streamers/ImageFileStreamer.cpp:70-134 | the buffer only grows at its end; the first-frame and end flags are never cleared; the end flag is raised only by a non-looping end of stream |
| ProducerLoop.LoopingNeverEnds | source/Streamers/ImageFileStreamer.cpp:121-126 | with looping on, the end flag is never raised and the loop never exits through end of stream |
| ProducerLoop.NumberedFilesThenEnd | source/Streamers/ImageFileStreamer.cpp:70-134 | without looping, when n files load and the next is missing, n + 1 iterations append exactly those n images in index order, count n frames, raise the end flag and stop |
| ProducerLoop.NumberedFilesThenRestart | source/Streamers/ImageFileStreamer.cpp:70-125 | with looping on, when n files load and the next is missing, n + 1 iterations append exactly those n images in index order, count n frames, leave the end flag as it was, and rewind the index to the start number without leaving the loop |
| ProducerLoop.LoopingRunsForever | source/Streamers/ImageFileStreamer.cpp:112-125 | with looping on, files start..start+n-1 present, the next one missing and the buffer live, the loop never stops and its index stays between the start number and the first missing file |
| ProducerLoop.MissingFileAtIndexZeroThrows | source/Streamers/ImageFileStreamer.cpp:129-131 | a missing file at index 0 leaves the loop as an exception, with nothing appended and no flag changed |
| ProducerLoop.MissingFirstFileAtLaterStartEnds | source/Streamers/ImageFileStreamer.cpp:113-128 | with a non-zero start number whose file is missing, the non-looping stream ends with an empty buffer, raises the end flag and releases execute() |
| ProducerLoop.MissingFirstFileAtLaterStartSpins | source/Streamers/ImageFileStreamer.cpp:113-124 | with looping on and a non-zero start number whose file is missing, every run stays in the loop with nothing appended, the index at the start number and the end flag unchanged; only the first-frame flag is set, after the first iteration |
| ProducerLoop.ThreeFramesThenEnd | source/Streamers/ImageFileStreamer.cpp:70-134 | starting from 0 with files 0..2 present and 3 missing, four iterations buffer the three images in order and end the stream |
| ProducerLoop.ExampleStream | source/Streamers/ImageFileStreamer.cpp:70-134 | with "frame_#.img" and zero fill 3, the buffer ends up holding frame_000.img, frame_001.img and frame_002.img, and the stream ends at the missing frame_003.img |
| Streamers.DynamicImage.constructor | source/Streamers/ImageFileStreamer.cpp:22 | a new output buffer holds no frames |
| Streamers.DynamicImage.AddFrame | source/Streamers/ImageFileStreamer.cpp:96 | addFrame puts the image at the end of the buffer |
| Streamers.ImageFileStreamer.constructor | source/Streamers/ImageFileStreamer.cpp:21-34 | the defaults: empty format, not started, modified, no looping, start number 0, no zero fill, no frame inserted, end not reached, 0 frames, an empty fresh output |
| Streamers.ImageFileStreamer.NrOfFrames | source/Streamers/ImageFileStreamer.cpp:36-38 | getNrOfFrames is the number of frames in the output modulo 2^32 |
| Streamers.ImageFileStreamer.HasReachedEnd | source/Streamers/ImageFileStreamer.cpp:145-147 | hasReachedEnd is never true while execute() would still wait for a first frame |
| Streamers.ImageFileStreamer.SetFilenameFormat | source/Streamers/ImageFileStreamer.cpp:59-63 | a format without '#' is refused and the old format is kept; otherwise the format is stored exactly as given |
| Streamers.ImageFileStreamer.SetStartNumber | source/Streamers/ImageFileStreamer.cpp:149-151 | sets the start number and nothing else |
| Streamers.ImageFileStreamer.SetZeroFilling | source/Streamers/ImageFileStreamer.cpp:153-155 | sets the zero-fill width and nothing else |
| Streamers.ImageFileStreamer.EnableLooping | source/Streamers/ImageFileStreamer.cpp:157-159 | turns looping on and changes nothing else |
| Streamers.ImageFileStreamer.DisableLooping | source/Streamers/ImageFileStreamer.cpp:161-163 | turns looping off and changes nothing else |
| Streamers.ImageFileStreamer.Execute | source/Streamers/ImageFileStreamer.cpp:43-50 | an empty format is refused and nothing changes; otherwise the stream is marked started, and the producer is launched exactly when it was not started before |
| Streamers.ImageFileStreamer.Advance | source/Streamers/ImageFileStreamer.cpp:87-132 | the loop body, run in place on the fields and the output buffer, does exactly what `Step` says |
| Streamers.ImageFileStreamer.ProducerStep | source/Streamers/ImageFileStreamer.cpp:73-132 | one iteration renders the filename of index i, asks the importer for it and then does exactly what `Step` says with the answer |
| Streamers.ImageFileStreamer.ProducerStream | source/Streamers/ImageFileStreamer.cpp:70-134 | the loop, starting at the start number and run in place for up to `fuel` iterations, ends in exactly the state and exit that `Run` gives |
| Streamers.Drive | source/Streamers/ImageFileStreamer.cpp:43-50 | across any sequence of configuration and execute() calls, the producer is launched at most once, and exactly when the stream goes from not started to started; once started it stays started |

## Left out

- Threads and synchronisation are not modelled: the `boost::thread` launch, the mutex and condition variable, the wait for the first frame in `execute()`, and the destructor's join with its self-join check. The producer loop is modelled as sequential code that runs after `execute()` has marked the stream started. `mFirstFrameIsInserted` is a plain flag.
- Streamers.ImageFileStreamer.Execute: the model stops before the wait for the first frame. Its `launched` result stands for the thread start.
- Streamers.ImageFileStreamer.ProducerStream: runs at most `fuel` iterations, because with looping on the source loop need not terminate. `StillRunning` means the fuel ran out. The configuration is fixed while it runs.
- The importer (`ImageFileImporter`, `Image::update`) is an oracle `disk` from filename to outcome. Whether the buffer is valid and whether `addFrame` throws is an oracle `alive` per iteration. `DynamicImage`'s internals are not part of this model beyond its frame list.
- The `disk` oracle gives the same answer for a filename on every iteration, so the model cannot express files that appear or disappear while the stream runs (for instance file 0 removed after the first looping pass, which the source would meet at `i == 0` and rethrow). No proved property depends on this.
- `setDevice`, `mDevice` and the `DeviceManager` query in the constructor are not modelled. The device is only handed to the importer, which is an oracle.
- Console logging is not modelled. Neither is `getOutput()`'s and `execute()`'s `setSource`/`setStreamer` wiring through `mPtr.lock()`, which is smart-pointer plumbing.
- An exception that escapes `producerStream` is the loop exit `Stopped(Threw(..))`. What the C++ runtime then does to the process is not modelled.
- `isModified` is kept as a field with its default. No modelled operation reads or changes it.
- main.cpp (a GPU, VTK and ITK demo driver) is not part of this model. Neither is the thin wrapper source/FAST/Streamers/ImageFileStreamer.cpp, which only delegates to the importer.
