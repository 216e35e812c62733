/**
  The checks and the view transform `main` computes before a render: the output format
  from the file extension, the background colour, the depth filter, the forced aspect
  ratio, and the matrix that scales the movie's natural size to the requested one.
  Numbers are real numbers rather than IEEE doubles. `int()` and `float()` on the
  stripped text of one part are the parameters `parseInt` and `parseFloat`; the script's
  `int()` on decimal text is `Decimal.ParseInt`.
*/
module RenderParams {
  import opened Outcomes
  import opened Strings
  import Decimal

  datatype Format = GIF | WEBP | PNG

  /** Why the render parameters were refused (an exception in the source). */
  datatype ConfigError =
    | UnrecognizedExtension
    | InvalidColor
    | ColorOutOfRange
    | InvalidAspectRatio
    | NonPositiveRatio
    | ImpossibleAspectRatio
    | NotANumber(text: string)
    | ZeroDivision

  /** An RGBA colour, each channel in 0.0 .. 1.0. */
  datatype Color = Color(r: real, g: real, b: real, a: real)

  /** A 2x3 affine matrix as the renderer takes it. */
  datatype Matrix = Matrix(a: real, b: real, c: real, d: real, tx: real, ty: real)

  // ---------------------------------------------------------------------------
  // Output format
  // ---------------------------------------------------------------------------

  function Extension(f: Format): string
  {
    match f
    case GIF => ".gif"
    case WEBP => ".webp"
    case PNG => ".png"
  }

  /** The format is chosen by the lower-cased output name's suffix. */
  function SelectFormat(output: string): Result<Format, ConfigError>
  {
    var lower := Lower(output);
    if EndsWith(lower, ".gif") then Ok(GIF)
    else if EndsWith(lower, ".webp") then Ok(WEBP)
    else if EndsWith(lower, ".png") then Ok(PNG)
    else Err(UnrecognizedExtension)
  }

  /** A format is selected exactly when the output name ends, ignoring case, in its
      extension; a name with none of the three extensions is refused. */
  lemma SelectFormatByExtension(output: string, f: Format)
    ensures SelectFormat(output) == Ok(f) <==> EndsWith(Lower(output), Extension(f))
    ensures SelectFormat(output) == Err(UnrecognizedExtension)
        <==> forall g: Format :: !EndsWith(Lower(output), Extension(g))
  {
    var lower := Lower(output);
    ExtensionsExclusive(lower);
    if SelectFormat(output).Err? {
      assert !EndsWith(lower, ".gif") && !EndsWith(lower, ".webp") && !EndsWith(lower, ".png");
      forall g: Format ensures !EndsWith(lower, Extension(g)) {
        match g
        case GIF =>
        case WEBP =>
        case PNG =>
      }
    } else {
      var g := SelectFormat(output).value;
      assert EndsWith(lower, Extension(g));
    }
  }

  /** No name ends in two of the three extensions. */
  lemma ExtensionsExclusive(s: string)
    ensures forall f: Format, g: Format :: EndsWith(s, Extension(f)) && EndsWith(s, Extension(g)) ==> f == g
  {
    var n := |s|;
    if EndsWith(s, ".webp") {
      assert s[n - 4..] == s[n - 5..][1..];
      assert s[n - 4] == 'w';
    }
    if EndsWith(s, ".gif") {
      assert s[n - 3] == 'g';
    }
    if EndsWith(s, ".png") {
      assert s[n - 3] == 'p';
    }
    forall f: Format, g: Format | EndsWith(s, Extension(f)) && EndsWith(s, Extension(g)) ensures f == g {
      match f
      case GIF =>
      case WEBP =>
      case PNG =>
    }
  }

  /** Upper-case letters in the output name do not change the format. */
  lemma SelectFormatIgnoresCase(output: string)
    ensures SelectFormat(output) == SelectFormat(Lower(output))
  {
    LowerIdempotent(output);
  }

  // ---------------------------------------------------------------------------
  // Background colour
  // ---------------------------------------------------------------------------

  predicate InByteRange(v: int)
  {
    0 <= v <= 255
  }

  predicate AllInByteRange(v: seq<int>)
  {
    forall i :: 0 <= i < |v| ==> InByteRange(v[i])
  }

  /** `[int(c.strip()) for c in parts]`: every part read as an integer, in order; the
      first part that is not an integer aborts. */
  function ParseInts(parts: seq<string>, parseInt: string -> Option<int>): (r: Result<seq<int>, ConfigError>)
    ensures r.Ok? ==> |r.value| == |parts|
    ensures r.Ok? ==> forall i :: 0 <= i < |parts| ==> parseInt(Strip(parts[i])) == Some(r.value[i])
    ensures r.Err? <==> exists i :: 0 <= i < |parts| && parseInt(Strip(parts[i])).None?
    ensures r.Err? ==> r.error.NotANumber?
  {
    if |parts| == 0 then Ok([])
    else
      var k := |parts| - 1;
      assert forall i :: 0 <= i < k ==> parts[..k][i] == parts[i];
      match ParseInts(parts[..k], parseInt)
      case Err(e) => Err(e)
      case Ok(init) =>
        match parseInt(Strip(parts[k]))
        case None => Err(NotANumber(parts[|parts| - 1]))
        case Some(v) => Ok(init + [v])
  }

  /** `--background-color`: absent or empty means no colour; otherwise three or four
      comma-separated integers, alpha 255 when only three are given, each in 0..255. */
  function ParseColor(arg: Option<string>, parseInt: string -> Option<int>): Result<Option<Color>, ConfigError>
  {
    if arg.None? || arg.value == "" then Ok(None)
    else
      var parts := Split(arg.value, ',');
      if |parts| != 3 && |parts| != 4 then Err(InvalidColor)
      else
        match ColorFromParts(parts, parseInt)
        case Err(e) => Err(e)
        case Ok(c) => Ok(Some(c))
  }

  /** Three or four parts: alpha "255" appended to three, all read, then range-checked. */
  function ColorFromParts(parts: seq<string>, parseInt: string -> Option<int>): (r: Result<Color, ConfigError>)
    requires |parts| == 3 || |parts| == 4
    ensures r.Err? ==> r.error.NotANumber? || r.error == ColorOutOfRange
  {
    var full := if |parts| == 3 then parts + ["255"] else parts;
    match ParseInts(full, parseInt)
    case Err(e) => Err(e)
    case Ok(v) => ColorOfInts(v)
  }

  /** The range check and the scaling of four components to 0.0..1.0. */
  function ColorOfInts(v: seq<int>): Result<Color, ConfigError>
    requires |v| == 4
  {
    if !AllInByteRange(v) then Err(ColorOutOfRange)
    else Ok(Color(v[0] as real / 255.0, v[1] as real / 255.0, v[2] as real / 255.0, v[3] as real / 255.0))
  }

  /** The arity check: anything but three or four comma-separated parts is refused. */
  lemma ColorArity(s: string, parseInt: string -> Option<int>)
    requires s != ""
    ensures ParseColor(Some(s), parseInt) == Err(InvalidColor) <==> Count(s, ',') != 2 && Count(s, ',') != 3
  {
    SplitCount(s, ',');
  }

  /** An accepted colour: every part read as an integer in 0..255 and scaled to 0.0..1.0,
      with an opaque alpha when only red, green and blue are given. */
  lemma ColorAccepted(parts: seq<string>, parseInt: string -> Option<int>, c: Color)
    requires parseInt("255") == Some(255)
    requires |parts| == 3 || |parts| == 4
    requires ColorFromParts(parts, parseInt) == Ok(c)
    ensures forall i :: 0 <= i < |parts| ==> parseInt(Strip(parts[i])).Some?
    ensures 0.0 <= c.r <= 1.0 && 0.0 <= c.g <= 1.0 && 0.0 <= c.b <= 1.0 && 0.0 <= c.a <= 1.0
    ensures c.r == parseInt(Strip(parts[0])).value as real / 255.0
    ensures c.g == parseInt(Strip(parts[1])).value as real / 255.0
    ensures c.b == parseInt(Strip(parts[2])).value as real / 255.0
    ensures |parts| == 3 ==> c.a == 1.0
    ensures |parts| == 4 ==> c.a == parseInt(Strip(parts[3])).value as real / 255.0
  {
    var v;
    if |parts| == 3 {
      v := OpaqueColorParsed(parts, parseInt, c);
    } else {
      v := ColorParsed(parts, parseInt, c);
    }
    UnitScale(v[0]);
    UnitScale(v[1]);
    UnitScale(v[2]);
    UnitScale(v[3]);
  }

  /** The four components behind an accepted RGBA colour. */
  lemma ColorParsed(parts: seq<string>, parseInt: string -> Option<int>, c: Color) returns (v: seq<int>)
    requires |parts| == 4
    requires ColorFromParts(parts, parseInt) == Ok(c)
    ensures |v| == 4 && AllInByteRange(v)
    ensures forall i :: 0 <= i < 4 ==> parseInt(Strip(parts[i])) == Some(v[i])
    ensures c == Color(v[0] as real / 255.0, v[1] as real / 255.0, v[2] as real / 255.0, v[3] as real / 255.0)
  {
    v := ColorInts(parts, parseInt);
  }

  /** The values an accepted colour was read from, before the range check. */
  lemma ColorInts(parts: seq<string>, parseInt: string -> Option<int>) returns (v: seq<int>)
    requires |parts| == 3 || |parts| == 4
    requires ColorFromParts(parts, parseInt).Ok?
    ensures ParseInts(if |parts| == 3 then parts + ["255"] else parts, parseInt) == Ok(v)
    ensures |v| == 4 && ColorFromParts(parts, parseInt) == ColorOfInts(v)
  {
    v := ParseInts(if |parts| == 3 then parts + ["255"] else parts, parseInt).value;
  }

  /** The components behind an accepted RGB colour: the appended alpha reads as 255. */
  lemma OpaqueColorParsed(parts: seq<string>, parseInt: string -> Option<int>, c: Color) returns (v: seq<int>)
    requires parseInt("255") == Some(255)
    requires |parts| == 3
    requires ColorFromParts(parts, parseInt) == Ok(c)
    ensures |v| == 4 && AllInByteRange(v) && v[3] == 255
    ensures forall i :: 0 <= i < 3 ==> parseInt(Strip(parts[i])) == Some(v[i])
    ensures c == Color(v[0] as real / 255.0, v[1] as real / 255.0, v[2] as real / 255.0, v[3] as real / 255.0)
  {
    var full := parts + ["255"];
    v := ColorInts(parts, parseInt);
    assert forall i :: 0 <= i < 3 ==> full[i] == parts[i];
    assert full[3] == "255";
    StripDigits255();
  }

  lemma StripDigits255()
    ensures Strip("255") == "255"
  {
    assert !IsSpace('2') && !IsSpace('5');
  }

  /** The decimal text of a byte is not empty, has no surrounding space and no comma. */
  lemma ByteText(x: int)
    requires InByteRange(x)
    ensures var t := Decimal.IntToString(x);
      |t| > 0 && Strip(t) == t && ',' !in t
  {
    var t := Decimal.IntToString(x);
    assert t == Decimal.Digits(x);
    Decimal.DigitNotSpace(t[0]);
    Decimal.DigitNotSpace(t[|t| - 1]);
    assert forall i :: 0 <= i < |t| ==> t[i] != ',' by {
      forall i | 0 <= i < |t| ensures t[i] != ',' {
        assert Decimal.IsDigit(t[i]);
      }
    }
  }

  /** Writing three bytes as `"r,g,b"` and passing them as the background colour with
      Python's `int()` gives back exactly that opaque colour. */
  lemma ColorRoundTrip(r: int, g: int, b: int)
    requires InByteRange(r) && InByteRange(g) && InByteRange(b)
    ensures ParseColor(Some(Join([Decimal.IntToString(r), Decimal.IntToString(g), Decimal.IntToString(b)], ",")),
                       Decimal.ParseInt)
         == Ok(Some(Color(r as real / 255.0, g as real / 255.0, b as real / 255.0, 1.0)))
  {
    Decimal.ParseIntToString(r);
    Decimal.ParseIntToString(g);
    Decimal.ParseIntToString(b);
    ParseAlpha();
    ColorTextRead(Decimal.ParseInt, r, g, b);
  }

  /** The same round trip for any integer reader that reads decimal text back, as
      `int()` does. */
  lemma ColorTextRead(parseInt: string -> Option<int>, r: int, g: int, b: int)
    requires InByteRange(r) && InByteRange(g) && InByteRange(b)
    requires parseInt(Decimal.IntToString(r)) == Some(r)
    requires parseInt(Decimal.IntToString(g)) == Some(g)
    requires parseInt(Decimal.IntToString(b)) == Some(b)
    requires parseInt("255") == Some(255)
    ensures ParseColor(Some(Join([Decimal.IntToString(r), Decimal.IntToString(g), Decimal.IntToString(b)], ",")),
                       parseInt)
         == Ok(Some(Color(r as real / 255.0, g as real / 255.0, b as real / 255.0, 1.0)))
  {
    var parts := [Decimal.IntToString(r), Decimal.IntToString(g), Decimal.IntToString(b)];
    ByteText(r);
    ByteText(g);
    ByteText(b);
    ByteTextsSplit(parts);
    OpaqueColorText(parseInt, Join(parts, ","), parts, r, g, b);
  }

  /** Text that splits into three parts reading as bytes is that opaque colour. */
  lemma OpaqueColorText(parseInt: string -> Option<int>, s: string, parts: seq<string>, r: int, g: int, b: int)
    requires s != "" && Split(s, ',') == parts
    requires InByteRange(r) && InByteRange(g) && InByteRange(b)
    requires |parts| == 3 && Strip(parts[0]) == parts[0] && Strip(parts[1]) == parts[1] && Strip(parts[2]) == parts[2]
    requires parseInt(parts[0]) == Some(r) && parseInt(parts[1]) == Some(g) && parseInt(parts[2]) == Some(b)
    requires parseInt("255") == Some(255)
    ensures ParseColor(Some(s), parseInt)
         == Ok(Some(Color(r as real / 255.0, g as real / 255.0, b as real / 255.0, 1.0)))
  {
    OpaqueColorRead(parts, parseInt, r, g, b);
  }

  lemma ByteTextsSplit(parts: seq<string>)
    requires |parts| == 3
    requires forall i :: 0 <= i < 3 ==> |parts[i]| > 0 && ',' !in parts[i]
    ensures Join(parts, ",") != "" && Split(Join(parts, ","), ',') == parts
  {
    SplitJoin(parts, ',');
    assert Join(parts, ",") == parts[0] + "," + Join(parts[1..], ",");
  }

  lemma ParseAlpha()
    ensures Decimal.ParseInt("255") == Some(255)
  {
    var two, five := Decimal.DigitChar(2), Decimal.DigitChar(5);
    assert two == '2' && five == '5';
    assert Decimal.Digits(2) == [two];
    assert Decimal.Digits(25) == [two] + [five];
    assert Decimal.Digits(255) == [two, five] + [five] == "255";
    assert Decimal.IntToString(255) == "255";
    Decimal.ParseIntToString(255);
  }

  /** Three parts that read as bytes are accepted as that opaque colour. */
  lemma OpaqueColorRead(parts: seq<string>, parseInt: string -> Option<int>, r: int, g: int, b: int)
    requires |parts| == 3 && InByteRange(r) && InByteRange(g) && InByteRange(b)
    requires parseInt(Strip(parts[0])) == Some(r)
    requires parseInt(Strip(parts[1])) == Some(g)
    requires parseInt(Strip(parts[2])) == Some(b)
    requires parseInt("255") == Some(255)
    ensures ColorFromParts(parts, parseInt)
         == Ok(Color(r as real / 255.0, g as real / 255.0, b as real / 255.0, 1.0))
  {
    var full := parts + ["255"];
    StripDigits255();
    assert full[0] == parts[0] && full[1] == parts[1] && full[2] == parts[2] && full[3] == "255";
    FourRead(full, parseInt, r, g, b, 255);
    ColorFromInts(parts, parseInt, [r, g, b, 255]);
    ColorOfBytes(r, g, b, 255);
  }

  /** A byte scaled by 1/255 lies in the unit interval. */
  lemma UnitScale(x: int)
    requires InByteRange(x)
    ensures 0.0 <= x as real / 255.0 <= 1.0
  {
  }

  /** Parts that all read as integers, one of them (or the appended alpha) outside
      0..255, are refused. */
  lemma ColorRangeChecked(parts: seq<string>, parseInt: string -> Option<int>, v: seq<int>)
    requires |parts| == 3 || |parts| == 4
    requires ParseInts(if |parts| == 3 then parts + ["255"] else parts, parseInt) == Ok(v)
    requires exists i :: 0 <= i < |v| && !InByteRange(v[i])
    ensures ColorFromParts(parts, parseInt) == Err(ColorOutOfRange)
  {
  }

  /** Four parts that read as bytes are accepted as that colour. */
  lemma ColorRead(parts: seq<string>, parseInt: string -> Option<int>, r: int, g: int, b: int, a: int)
    requires |parts| == 4
    requires InByteRange(r) && InByteRange(g) && InByteRange(b) && InByteRange(a)
    requires parseInt(Strip(parts[0])) == Some(r)
    requires parseInt(Strip(parts[1])) == Some(g)
    requires parseInt(Strip(parts[2])) == Some(b)
    requires parseInt(Strip(parts[3])) == Some(a)
    ensures ColorFromParts(parts, parseInt)
         == Ok(Color(r as real / 255.0, g as real / 255.0, b as real / 255.0, a as real / 255.0))
  {
    var v := [r, g, b, a];
    FourRead(parts, parseInt, r, g, b, a);
    ColorFromInts(parts, parseInt, v);
    ColorOfBytes(r, g, b, a);
    assert ColorOfInts(v) == Ok(Color(r as real / 255.0, g as real / 255.0, b as real / 255.0, a as real / 255.0));
  }

  lemma ColorFromInts(parts: seq<string>, parseInt: string -> Option<int>, v: seq<int>)
    requires |parts| == 3 || |parts| == 4
    requires ParseInts(if |parts| == 3 then parts + ["255"] else parts, parseInt) == Ok(v)
    ensures |v| == 4 && ColorFromParts(parts, parseInt) == ColorOfInts(v)
  {
  }

  lemma ColorOfBytes(r: int, g: int, b: int, a: int)
    requires InByteRange(r) && InByteRange(g) && InByteRange(b) && InByteRange(a)
    ensures ColorOfInts([r, g, b, a])
         == Ok(Color(r as real / 255.0, g as real / 255.0, b as real / 255.0, a as real / 255.0))
  {
    var v := [r, g, b, a];
    assert v[0] == r && v[1] == g && v[2] == b && v[3] == a;
    assert AllInByteRange(v);
  }

  lemma FourRead(parts: seq<string>, parseInt: string -> Option<int>, r: int, g: int, b: int, a: int)
    requires |parts| == 4
    requires parseInt(Strip(parts[0])) == Some(r)
    requires parseInt(Strip(parts[1])) == Some(g)
    requires parseInt(Strip(parts[2])) == Some(b)
    requires parseInt(Strip(parts[3])) == Some(a)
    ensures ParseInts(parts, parseInt) == Ok([r, g, b, a])
  {
    var v := [r, g, b, a];
    assert forall i :: 0 <= i < 4 ==> parseInt(Strip(parts[i])) == Some(v[i]);
    ReadAll(parts, parseInt, v);
  }

  /** Parts that each read as the matching value are read as those values. */
  lemma ReadAll(parts: seq<string>, parseInt: string -> Option<int>, v: seq<int>)
    requires |v| == |parts|
    requires forall i :: 0 <= i < |parts| ==> parseInt(Strip(parts[i])) == Some(v[i])
    ensures ParseInts(parts, parseInt) == Ok(v)
  {
    var w := ParseInts(parts, parseInt);
    assert w.Ok?;
    assert w.value == v;
  }

  /** A part that `int(c.strip())` reads as a value in 0..255. */
  predicate ReadsAsByte(part: string, parseInt: string -> Option<int>)
  {
    parseInt(Strip(part)).Some? && InByteRange(parseInt(Strip(part)).value)
  }

  /** Three or four parts are accepted exactly when every one of them reads as a byte. */
  lemma ColorAcceptedIff(parts: seq<string>, parseInt: string -> Option<int>)
    requires parseInt("255") == Some(255)
    requires |parts| == 3 || |parts| == 4
    ensures ColorFromParts(parts, parseInt).Ok? <==>
      forall i :: 0 <= i < |parts| ==> ReadsAsByte(parts[i], parseInt)
  {
    var r := ColorFromParts(parts, parseInt);
    if r.Ok? {
      var v;
      if |parts| == 3 {
        v := OpaqueColorParsed(parts, parseInt, r.value);
      } else {
        v := ColorParsed(parts, parseInt, r.value);
      }
      forall i | 0 <= i < |parts| ensures ReadsAsByte(parts[i], parseInt) {
        assert InByteRange(v[i]);
      }
    } else if forall i :: 0 <= i < |parts| ==> ReadsAsByte(parts[i], parseInt) {
      assert ReadsAsByte(parts[0], parseInt) && ReadsAsByte(parts[1], parseInt) && ReadsAsByte(parts[2], parseInt);
      var x0, x1, x2 := parseInt(Strip(parts[0])).value, parseInt(Strip(parts[1])).value, parseInt(Strip(parts[2])).value;
      if |parts| == 3 {
        OpaqueColorRead(parts, parseInt, x0, x1, x2);
      } else {
        assert ReadsAsByte(parts[3], parseInt);
        ColorRead(parts, parseInt, x0, x1, x2, parseInt(Strip(parts[3])).value);
      }
      assert false;
    }
  }

  // ---------------------------------------------------------------------------
  // Depth filter
  // ---------------------------------------------------------------------------

  /** `--only-depths`: when given at all (even empty), comma-separated integers. */
  function ParseDepths(arg: Option<string>, parseInt: string -> Option<int>): (r: Result<Option<seq<int>>, ConfigError>)
    ensures arg.None? <==> r == Ok(None)
    ensures arg.Some? && r.Ok? ==>
      r.value.Some? && |r.value.value| == |Split(arg.value, ',')| == Count(arg.value, ',') + 1
    ensures arg.Some? && r.Ok? ==>
      forall i :: 0 <= i < |r.value.value| ==> parseInt(Strip(Split(arg.value, ',')[i])) == Some(r.value.value[i])
    ensures r.Err? <==>
      arg.Some? && exists i :: 0 <= i < |Split(arg.value, ',')| && parseInt(Strip(Split(arg.value, ',')[i])).None?
  {
    if arg.None? then Ok(None)
    else
      SplitCount(arg.value, ',');
      match ParseInts(Split(arg.value, ','), parseInt)
      case Err(e) => Err(e)
      case Ok(v) => Ok(Some(v))
  }

  // ---------------------------------------------------------------------------
  // Forced aspect ratio
  // ---------------------------------------------------------------------------

  /** `--force-aspect-ratio`: absent or empty means none; otherwise `rx:ry`, two positive
      numbers. */
  function ParseAspect(arg: Option<string>, parseFloat: string -> Option<real>)
    : Result<Option<(real, real)>, ConfigError>
  {
    if arg.None? || arg.value == "" then Ok(None)
    else
      var parts := Split(arg.value, ':');
      if |parts| != 2 then Err(InvalidAspectRatio)
      else
        match RatioFromParts(parts[0], parts[1], parseFloat)
        case Err(e) => Err(e)
        case Ok(ratio) => Ok(Some(ratio))
  }

  function RatioFromParts(x: string, y: string, parseFloat: string -> Option<real>)
    : (r: Result<(real, real), ConfigError>)
    ensures r.Ok? <==> && parseFloat(Strip(x)).Some? && parseFloat(Strip(y)).Some?
                       && parseFloat(Strip(x)).value > 0.0 && parseFloat(Strip(y)).value > 0.0
    ensures r.Ok? ==> r.value == (parseFloat(Strip(x)).value, parseFloat(Strip(y)).value)
  {
    match parseFloat(Strip(x))
    case None => Err(NotANumber(x))
    case Some(rx) =>
      match parseFloat(Strip(y))
      case None => Err(NotANumber(y))
      case Some(ry) =>
        if rx <= 0.0 || ry <= 0.0 then Err(NonPositiveRatio) else Ok((rx, ry))
  }

  /** A ratio is accepted exactly when the text has one colon and both sides read as
      positive numbers; a wrong number of parts is its own error. */
  lemma AspectAccepted(s: string, parseFloat: string -> Option<real>)
    requires s != ""
    ensures |Split(s, ':')| == 2 <==> Count(s, ':') == 1
    ensures ParseAspect(Some(s), parseFloat).Ok? <==>
      |Split(s, ':')| == 2 && RatioFromParts(Split(s, ':')[0], Split(s, ':')[1], parseFloat).Ok?
    ensures ParseAspect(Some(s), parseFloat) == Err(InvalidAspectRatio) <==> Count(s, ':') != 1
    ensures ParseAspect(Some(s), parseFloat).Ok? ==>
      && ParseAspect(Some(s), parseFloat).value.Some?
      && ParseAspect(Some(s), parseFloat).value.value.0 > 0.0
      && ParseAspect(Some(s), parseFloat).value.value.1 > 0.0
  {
    SplitCount(s, ':');
  }

  // ---------------------------------------------------------------------------
  // Stretching to the forced ratio, and the view matrix
  // ---------------------------------------------------------------------------

  /** Ratios closer than this count as equal. */
  const Tolerance: real := 0.0001

  function Abs(x: real): real
  {
    if x < 0.0 then -x else x
  }

  /** The requested size before scaling: the natural `(w, h)`, or, when a forced ratio
      differs from the natural one by more than the tolerance, the size with one axis
      stretched to reach it. Division by a zero height is Python's ZeroDivisionError;
      the two "impossible aspect ratio" checks are kept as error branches. */
  function Stretch(w: real, h: real, ratio: Option<(real, real)>): Result<(real, real), ConfigError>
    requires ratio.Some? ==> ratio.value.0 > 0.0 && ratio.value.1 > 0.0
  {
    if ratio.None? then Ok((w, h))
    else
      var actual := ratio.value.0 / ratio.value.1;
      if h == 0.0 then Err(ZeroDivision)
      else if Abs(w / h - actual) > Tolerance then
        var newWidth := actual * h;
        var newHeight := w / actual;
        if newWidth < w && newHeight < h then Err(ImpossibleAspectRatio)
        else if newWidth > w && newHeight > h then Err(ImpossibleAspectRatio)
        else if newWidth > w then Ok((newWidth, h))
        else Ok((w, newHeight))
      else Ok((w, h))
  }

  /** The candidate width times the candidate height is the natural area `w * h`, so
      the two candidates cannot both grow or both shrink. */
  lemma CandidateArea(w: real, h: real, r: real)
    requires r > 0.0
    ensures (r * h) * (w / r) == w * h
  {
    calc {
      (r * h) * (w / r);
      h * (r * (w / r));
      { assert r * (w / r) == w; }
      h * w;
    }
  }

  /** For a non-zero height, the candidate width exceeds the width exactly when the
      natural ratio is below the forced one, and the candidate height exceeds the height
      exactly when it is above. */
  lemma CandidateComparisons(w: real, h: real, r: real)
    requires r > 0.0 && h != 0.0
    ensures h > 0.0 ==> (r * h > w <==> w / h < r) && (r * h < w <==> w / h > r)
    ensures h > 0.0 ==> (w / r > h <==> w / h > r) && (w / r < h <==> w / h < r)
    ensures h < 0.0 ==> (r * h > w <==> w / h > r) && (r * h < w <==> w / h < r)
    ensures h < 0.0 ==> (w / r > h <==> w / h < r) && (w / r < h <==> w / h > r)
  {
    var q := w / h;
    assert w == q * h;
    assert w / r == q * h / r;
    if h > 0.0 {
      assert r * h > w <==> (r - q) * h > 0.0;
      assert h / r > 0.0;
      assert w / r - h == (q - r) * (h / r);
    } else {
      assert r * h > w <==> (r - q) * h > 0.0;
      assert h / r < 0.0;
      assert w / r - h == (q - r) * (h / r);
    }
  }

  /** Neither "impossible aspect ratio" branch can be taken, whatever the input. */
  lemma ImpossibleBranchesUnreachable(w: real, h: real, ratio: Option<(real, real)>)
    requires ratio.Some? ==> ratio.value.0 > 0.0 && ratio.value.1 > 0.0
    ensures Stretch(w, h, ratio) != Err(ImpossibleAspectRatio)
    ensures Stretch(w, h, ratio).Err? <==> ratio.Some? && h == 0.0
  {
    if ratio.Some? && h != 0.0 {
      CandidateComparisons(w, h, ratio.value.0 / ratio.value.1);
    }
  }

  /** When the forced ratio differs, exactly one axis grows to reach it and the other
      keeps its natural length: the result has the forced ratio and never shrinks. */
  lemma StretchOneAxis(w: real, h: real, rx: real, ry: real)
    requires rx > 0.0 && ry > 0.0 && w > 0.0 && h > 0.0
    requires Abs(w / h - rx / ry) > Tolerance
    ensures Stretch(w, h, Some((rx, ry))).Ok?
    ensures var (nw, nh) := Stretch(w, h, Some((rx, ry))).value;
      && nw >= w && nh >= h
      && ((nw > w && nh == h) || (nw == w && nh > h))
      && nw / nh == rx / ry
  {
    var r := rx / ry;
    CandidateComparisons(w, h, r);
    var (nw, nh) := Stretch(w, h, Some((rx, ry))).value;
    if r * h > w {
      assert nw == r * h && nh == h;
    } else {
      assert w / r > h;
      assert nw == w && nh == w / r;
      assert w / (w / r) == r;
    }
  }

  /** A ratio within the tolerance, or none, leaves the natural size alone. */
  lemma StretchUnchanged(w: real, h: real, ratio: Option<(real, real)>)
    requires ratio.Some? ==> ratio.value.0 > 0.0 && ratio.value.1 > 0.0
    requires h != 0.0
    requires ratio.Some? ==> Abs(w / h - ratio.value.0 / ratio.value.1) <= Tolerance
    ensures Stretch(w, h, ratio) == Ok((w, h))
  {
  }

  /** The movie transform: scale the requested size by the per-axis factors and map the
      natural size onto it, with no shear and no translation. */
  function ViewMatrix(w: real, h: real, size: (real, real), scaleWidth: real, scaleHeight: real)
    : (r: Result<Matrix, ConfigError>)
    ensures r.Ok? <==> w != 0.0 && h != 0.0
    ensures r.Ok? ==> r.value.b == 0.0 && r.value.c == 0.0 && r.value.tx == 0.0 && r.value.ty == 0.0
    ensures r.Ok? ==> r.value.a * w == size.0 * scaleWidth && r.value.d * h == size.1 * scaleHeight
  {
    var width := size.0 * scaleWidth;
    var height := size.1 * scaleHeight;
    if w == 0.0 || h == 0.0 then Err(ZeroDivision)
    else Ok(Matrix(width / w, 0.0, 0.0, height / h, 0.0, 0.0))
  }

  /** What the render is asked to produce once every parameter is checked. */
  datatype RenderPlan = RenderPlan(format: Format, background: Option<Color>,
                                   depths: Option<seq<int>>, transform: Matrix)

  /** The parameter checks of a render in the source's order: format, colour, ratio and
      transform, then the depth filter. `(w, h)` is the movie's natural size. */
  function PlanRender(output: string, color: Option<string>, aspect: Option<string>,
                      depths: Option<string>, w: real, h: real,
                      scaleWidth: real, scaleHeight: real,
                      parseInt: string -> Option<int>, parseFloat: string -> Option<real>)
    : Result<RenderPlan, ConfigError>
  {
    match SelectFormat(output)
    case Err(e) => Err(e)
    case Ok(format) =>
      match ParseColor(color, parseInt)
      case Err(e) => Err(e)
      case Ok(background) =>
        match ParseAspect(aspect, parseFloat)
        case Err(e) => Err(e)
        case Ok(ratio) =>
          match Stretch(w, h, ratio)
          case Err(e) => Err(e)
          case Ok(size) =>
            match ViewMatrix(w, h, size, scaleWidth, scaleHeight)
            case Err(e) => Err(e)
            case Ok(m) =>
              match ParseDepths(depths, parseInt)
              case Err(e) => Err(e)
              case Ok(ds) => Ok(RenderPlan(format, background, ds, m))
  }

  /** For a positive natural size and unit scale factors the transform only stretches:
      both diagonal entries are at least 1 and one of them is exactly 1. */
  lemma StretchTransform(w: real, h: real, ratio: Option<(real, real)>)
    requires w > 0.0 && h > 0.0
    requires ratio.Some? ==> ratio.value.0 > 0.0 && ratio.value.1 > 0.0
    ensures Stretch(w, h, ratio).Ok?
    ensures var m := ViewMatrix(w, h, Stretch(w, h, ratio).value, 1.0, 1.0);
      && m.Ok? && m.value.a >= 1.0 && m.value.d >= 1.0
      && (m.value.a == 1.0 || m.value.d == 1.0)
  {
    ImpossibleBranchesUnreachable(w, h, ratio);
    var size := Stretch(w, h, ratio).value;
    if ratio.Some? && Abs(w / h - ratio.value.0 / ratio.value.1) > Tolerance {
      StretchOneAxis(w, h, ratio.value.0, ratio.value.1);
    } else {
      assert size == (w, h);
    }
    var m := ViewMatrix(w, h, size, 1.0, 1.0).value;
    assert m.a == (size.0 * 1.0) / w && m.d == (size.1 * 1.0) / h;
    RatioAtLeastOne(size.0, w);
    RatioAtLeastOne(size.1, h);
  }

  lemma RatioAtLeastOne(x: real, y: real)
    requires y > 0.0 && x >= y
    ensures (x * 1.0) / y >= 1.0 && (x == y ==> (x * 1.0) / y == 1.0)
  {
    var q := x / y;
    assert q * y == x;
    assert (x * 1.0) / y == q;
    if x == y {
      assert q * y == 1.0 * y;
    }
  }

  /** A render plan for a positive natural size at unit scale names the format of the
      output's extension, carries the parsed colour and depth filter, and has a
      transform that stretches without shrinking. */
  lemma PlanRenderStretches(output: string, color: Option<string>, aspect: Option<string>,
                            depths: Option<string>, w: real, h: real,
                            parseInt: string -> Option<int>, parseFloat: string -> Option<real>,
                            plan: RenderPlan)
    requires w > 0.0 && h > 0.0
    requires PlanRender(output, color, aspect, depths, w, h, 1.0, 1.0, parseInt, parseFloat) == Ok(plan)
    ensures EndsWith(Lower(output), Extension(plan.format))
    ensures ParseColor(color, parseInt) == Ok(plan.background)
    ensures ParseDepths(depths, parseInt) == Ok(plan.depths)
    ensures plan.transform.a >= 1.0 && plan.transform.d >= 1.0
    ensures plan.transform.a == 1.0 || plan.transform.d == 1.0
    ensures plan.transform.b == 0.0 && plan.transform.c == 0.0
    ensures plan.transform.tx == 0.0 && plan.transform.ty == 0.0
  {
    SelectFormatByExtension(output, plan.format);
    var ratio := ParseAspect(aspect, parseFloat).value;
    if aspect.Some? && aspect.value != "" {
      AspectAccepted(aspect.value, parseFloat);
    }
    StretchTransform(w, h, ratio);
  }

  /** An 800x450 movie forced to 4:3 is stretched to 800x600: a = 1, d = 4/3. */
  lemma WidescreenToFourThree()
    ensures Stretch(800.0, 450.0, Some((4.0, 3.0))) == Ok((800.0, 600.0))
    ensures ViewMatrix(800.0, 450.0, (800.0, 600.0), 1.0, 1.0)
         == Ok(Matrix(1.0, 0.0, 0.0, 4.0 / 3.0, 0.0, 0.0))
  {
    assert 800.0 / 450.0 - 4.0 / 3.0 == 4.0 / 9.0;
  }
}
