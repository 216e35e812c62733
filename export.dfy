/**
  The export step after a render: nothing is written for zero frames; GIF and WEBP get
  one animated file; PNG gets one file per frame, numbered from zero and zero-padded to
  the digit count of the frame count.
*/
module Export {
  import opened Outcomes
  import opened Strings
  import opened Decimal
  import opened RenderParams

  datatype ExportError = NoFrames

  /** One file the export writes. */
  datatype Artifact<I> =
    | Animation(path: string, frames: seq<I>, duration: real)
    | Still(path: string, frame: I)

  predicate MultiFrame(format: Format)
  {
    format == GIF || format == WEBP
  }

  /** `int(math.log10(frames)) + 1`: the number of decimal digits of the frame count. */
  function PadWidth(count: nat): (w: nat)
    requires count >= 1
    ensures w == |Digits(count)|
  {
    DigitCount(count);
    Log10Floor(count) + 1
  }

  /** `f"{filename}-{i:0W}{ext}"` with `filename = output[:-4]` and `ext = output[-4:]`. */
  function FrameFileName(output: string, index: nat, count: nat): string
    requires count >= 1
  {
    DropBack(output, 4) + "-" + ZeroPad(index, PadWidth(count)) + TakeBack(output, 4)
  }

  /** The per-frame files, in frame order. */
  function Stills<I>(output: string, images: seq<I>): (r: seq<Artifact<I>>)
    requires |images| >= 1
  {
    seq(|images|, i requires 0 <= i < |images| => Still(FrameFileName(output, i, |images|), images[i]))
  }

  /** What the export writes for the rendered frames, or why it writes nothing. */
  function PlanExport<I>(format: Format, output: string, images: seq<I>, duration: real)
    : Result<seq<Artifact<I>>, ExportError>
  {
    if |images| == 0 then Err(NoFrames)
    else if MultiFrame(format) then Ok([Animation(output, images, duration)])
    else Ok(Stills(output, images))
  }

  /** Every index below the frame count is written with exactly the padding width. */
  lemma IndexWidth(index: nat, count: nat)
    requires index < count
    ensures |ZeroPad(index, PadWidth(count))| == PadWidth(count)
  {
    DigitsMonotone(index, count);
  }

  /** The index can be read back from a frame's file name: the characters after the
      base name and the dash are the index, zero-padded. */
  lemma IndexInName(output: string, index: nat, count: nat)
    requires index < count
    ensures var name, start := FrameFileName(output, index, count), |DropBack(output, 4)| + 1;
      && start + PadWidth(count) <= |name|
      && AllDigits(name[start..start + PadWidth(count)])
      && Value(name[start..start + PadWidth(count)]) == index
  {
    IndexWidth(index, count);
    ValueOfZeroPad(index, PadWidth(count));
    var prefix, pad := DropBack(output, 4) + "-", ZeroPad(index, PadWidth(count));
    var name := prefix + pad + TakeBack(output, 4);
    assert name[|prefix|..|prefix| + |pad|] == pad;
  }

  /** Two different frames never share a file name, so no frame overwrites another. */
  lemma FrameNamesDistinct(output: string, i: nat, j: nat, count: nat)
    requires i < count && j < count && i != j
    ensures FrameFileName(output, i, count) != FrameFileName(output, j, count)
  {
    IndexInName(output, i, count);
    IndexInName(output, j, count);
  }

  /** Nothing is exported for zero frames; a multi-frame format gets one animation of
      all frames; otherwise one file per frame, in frame order, under distinct names. */
  lemma PlanExportShape<I>(format: Format, output: string, images: seq<I>, duration: real)
    ensures PlanExport(format, output, images, duration).Err? <==> |images| == 0
    ensures |images| > 0 && MultiFrame(format) ==>
      PlanExport(format, output, images, duration) == Ok([Animation(output, images, duration)])
    ensures |images| > 0 && !MultiFrame(format) ==>
      var files := PlanExport(format, output, images, duration).value;
      && |files| == |images|
      && (forall i :: 0 <= i < |files| ==> files[i].Still? && files[i].frame == images[i])
      && (forall i, j :: 0 <= i < j < |files| ==> files[i].path != files[j].path)
  {
    if |images| > 0 && !MultiFrame(format) {
      forall i, j | 0 <= i < j < |images|
        ensures FrameFileName(output, i, |images|) != FrameFileName(output, j, |images|)
      {
        FrameNamesDistinct(output, i, j, |images|);
      }
    }
  }

  /** The export loop of the source: each frame written under its own name, in order. */
  method ExportFrames<I>(format: Format, output: string, images: seq<I>, duration: real)
    returns (r: Result<seq<Artifact<I>>, ExportError>)
    ensures r == PlanExport(format, output, images, duration)
  {
    if |images| == 0 {
      return Err(NoFrames);
    }
    if MultiFrame(format) {
      return Ok([Animation(output, images, duration)]);
    }
    var written: seq<Artifact<I>> := [];
    var width := PadWidth(|images|);
    for i := 0 to |images|
      invariant |written| == i
      invariant forall k :: 0 <= k < i ==> written[k] == Still(FrameFileName(output, k, |images|), images[k])
    {
      var name := DropBack(output, 4) + "-" + ZeroPad(i, width) + TakeBack(output, 4);
      written := written + [Still(name, images[i])];
    }
    assert written == Stills(output, images);
    r := Ok(written);
  }

  lemma SplitOutputName()
    ensures DropBack("out.png", 4) == "out" && TakeBack("out.png", 4) == ".png"
  {
    assert "out.png"[..3] == "out";
    assert "out.png"[3..] == ".png";
  }

  /** Twelve frames are numbered `-00` to `-11`. */
  lemma TwelveFrameNames()
    ensures FrameFileName("out.png", 0, 12) == "out-00.png"
    ensures FrameFileName("out.png", 11, 12) == "out-11.png"
  {
    SplitOutputName();
    assert Digits(1) == "1" && Digits(12) == "12" && Digits(11) == "11" && Digits(0) == "0";
    assert PadWidth(12) == 2;
    assert Zeros(1) == "0";
    assert ZeroPad(0, 2) == "00" && ZeroPad(11, 2) == "11";
  }

  /** Five frames are numbered `-0` to `-4`, with no padding. */
  lemma FiveFrameNames()
    ensures FrameFileName("out.png", 0, 5) == "out-0.png"
    ensures FrameFileName("out.png", 4, 5) == "out-4.png"
  {
    SplitOutputName();
    assert Digits(5) == "5" && Digits(4) == "4" && Digits(0) == "0";
    assert PadWidth(5) == 1;
    assert ZeroPad(0, 1) == "0" && ZeroPad(4, 1) == "4";
  }
}
