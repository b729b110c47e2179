/**
 * Filename formats of ImageFileStreamer: a format is accepted only when it
 * holds a '#', and the filename of frame i is the format with its FIRST '#'
 * replaced by the frame number of i.
 */
module FilenameFormats {
  import opened FrameNumbers

  datatype Option<T> = None | Some(value: T)

  /** std::string::find("#", from): the first '#' at or after `from`, or None (npos). */
  function FindHash(s: string, from: nat): (r: Option<nat>)
    requires from <= |s|
    ensures r.None? <==> forall k :: from <= k < |s| ==> s[k] != '#'
    ensures r.Some? ==> from <= r.value < |s| && s[r.value] == '#' && forall k :: from <= k < r.value ==> s[k] != '#'
    decreases |s| - from
  {
    if from == |s| then None
    else if s[from] == '#' then Some(from)
    else FindHash(s, from + 1)
  }

  /** std::string::find("#"): the position of the first '#', or None (npos). */
  function FirstHash(s: string): (r: Option<nat>)
    ensures r.None? <==> '#' !in s
    ensures r.Some? ==> r.value < |s| && s[r.value] == '#' && '#' !in s[..r.value]
  {
    var r := FindHash(s, 0);
    assert r.Some? ==> forall k :: 0 <= k < r.value ==> s[..r.value][k] != '#';
    r
  }

  /**
   * std::string::replace(find("#"), 1, number): the text before the first
   * '#' is kept (and holds no '#'), the '#' becomes `number`, and everything
   * after it, later '#' included, is kept.
   */
  function ReplaceFirstHash(format: string, number: string): (r: string)
    requires '#' in format
    ensures var k := FirstHash(format).value;
      && |r| == |format| - 1 + |number|
      && r[..k] == format[..k] && '#' !in r[..k]
      && r[k..k + |number|] == number
      && r[k + |number|..] == format[k + 1..]
  {
    var k := FirstHash(format).value;
    format[..k] + number + format[k + 1..]
  }

  /** The filename the streamer loads for frame index i. */
  function Filename(format: string, i: nat, zeroFill: nat): (r: string)
    requires '#' in format
    // the first '#' gives way to max(digits(i), zeroFill) digits that read back as i
    ensures var k := FirstHash(format).value; var w := Max(|Decimal(i)|, zeroFill);
      && |r| == |format| - 1 + w
      && r[..k] == format[..k]
      && AllDigits(r[k..k + w]) && Value(r[k..k + w]) == i
      && r[k + w..] == format[k + 1..]
  {
    FrameNumberValue(i, zeroFill);
    ReplaceFirstHash(format, FrameNumber(i, zeroFill))
  }

  /**
   * Reads the frame index back out of a filename made from `format`: the
   * text around the first '#' must match the format's, and what stands in
   * its place must be a non-empty run of digits.
   */
  function FrameIndex(format: string, filename: string): (index: Option<nat>)
    requires '#' in format
  {
    var k := FirstHash(format).value;
    var tail := |format| - k - 1;
    if |filename| > k + tail
       && filename[..k] == format[..k]
       && filename[|filename| - tail..] == format[k + 1..]
       && AllDigits(filename[k..|filename| - tail])
    then Some(Value(filename[k..|filename| - tail]))
    else None
  }

  /** Every rendered filename names the frame it was rendered for. */
  lemma FrameIndexOfFilename(format: string, i: nat, zeroFill: nat)
    requires '#' in format
    ensures FrameIndex(format, Filename(format, i, zeroFill)) == Some(i)
  {
    var k := FirstHash(format).value;
    var number := FrameNumber(i, zeroFill);
    var r := Filename(format, i, zeroFill);
    var tail := |format| - k - 1;
    assert r[k..|r| - tail] == number;
    FrameNumberValue(i, zeroFill);
  }

  /** Distinct frame indices are loaded from distinct files. */
  lemma FilenameInjective(format: string, i: nat, j: nat, zeroFill: nat)
    requires '#' in format
    requires Filename(format, i, zeroFill) == Filename(format, j, zeroFill)
    ensures i == j
  {
    FrameIndexOfFilename(format, i, zeroFill);
    FrameIndexOfFilename(format, j, zeroFill);
  }

  /** The filename of frame i computed as the streamer does, with its zero-fill loop. */
  method RenderFilename(format: string, i: nat, zeroFill: nat) returns (filename: string)
    requires '#' in format
    ensures filename == Filename(format, i, zeroFill)
  {
    filename := format;
    var frameNumber := Decimal(i);
    if zeroFill > 0 && |frameNumber| < zeroFill {
      var zeroFilling := "";
      var z := 0;
      while z < zeroFill - |frameNumber|
        invariant 0 <= z <= zeroFill - |frameNumber|
        invariant zeroFilling == Zeros(z)
      {
        zeroFilling := zeroFilling + "0";
        z := z + 1;
      }
      frameNumber := zeroFilling + frameNumber;
    }
    var pos := FirstHash(filename).value;
    filename := filename[..pos] + frameNumber + filename[pos + 1..];
  }

  /** In "frame_#.img" the frame number lands between "frame_" and ".img". */
  lemma ExampleFormatSplit(i: nat, zeroFill: nat)
    ensures Filename("frame_#.img", i, zeroFill) == "frame_" + FrameNumber(i, zeroFill) + ".img"
  {
    var format := "frame_#.img";
    assert FirstHash(format) == Some(6);
    assert format[..6] == "frame_" && format[7..] == ".img";
  }

  /** The first four frame files of the "frame_#.img" pattern with three-digit zero fill. */
  lemma ExampleFilenames()
    ensures Filename("frame_#.img", 0, 3) == "frame_" + "000" + ".img"
    ensures Filename("frame_#.img", 1, 3) == "frame_" + "001" + ".img"
    ensures Filename("frame_#.img", 2, 3) == "frame_" + "002" + ".img"
    ensures Filename("frame_#.img", 3, 3) == "frame_" + "003" + ".img"
  {
    assert Zeros(2) == "00";
    ExampleFormatSplit(0, 3);
    assert FrameNumber(0, 3) == "000";
    ExampleFormatSplit(1, 3);
    assert FrameNumber(1, 3) == "001";
    ExampleFormatSplit(2, 3);
    assert FrameNumber(2, 3) == "002";
    ExampleFormatSplit(3, 3);
    assert FrameNumber(3, 3) == "003";
  }

  /** An index wider than the zero fill is written out in full. */
  lemma ExampleWideIndex()
    ensures Filename("frame_#.img", 1234, 3) == "frame_" + "1234" + ".img"
  {
    assert Decimal(1234) == "1234" by {
      assert Decimal(12) == "12";
      assert Decimal(123) == "123";
    }
    ExampleFormatSplit(1234, 3);
  }
}
