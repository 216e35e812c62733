/**
  Loading render containers into the renderer's three libraries (shapes, textures and
  SWFs). Each container is read as a TXP2 file if it parses as one, else as an IFS
  archive if it parses as one, and is skipped otherwise.

  The loading is specified as a list of steps, one per entry the source visits. A step
  registers one entry, registers nothing, or raises. `Run` folds the steps left to right
  and stops at the first error, as the exception does. The methods perform the same
  registrations on a `Renderer`, and their contracts tie them to the steps.
*/
module Normalise {
  import opened Outcomes
  import opened Strings
  import Decimal

  // ---------------------------------------------------------------------------
  // Registrations and the renderer's libraries

  /** A rectangle handed to the image crop: left, top, right and bottom. */
  datatype Box = Box(left: int, top: int, right: int, bottom: int)

  /** A texture in the renderer's library: a whole decoded image, or a box cut out of a
      texture sheet. */
  datatype Sprite<I> = Whole(image: I) | Crop(sheet: I, box: Box)

  datatype Kind = ShapeKind | TextureKind | SwfKind

  /** One call to `add_shape`, `add_texture` or `add_swf`. */
  datatype Registration<S, I, W> =
    | AddShape(name: string, shape: S)
    | AddTexture(name: string, texture: Sprite<I>)
    | AddSwf(name: string, swf: W)
  {
    function KindOf(): Kind
    {
      match this
      case AddShape(_, _) => ShapeKind
      case AddTexture(_, _) => TextureKind
      case AddSwf(_, _) => SwfKind
    }
  }

  /** The renderer's three libraries, each a dictionary from name to entry. */
  datatype Libraries<S, I, W> = Libraries(shapes: map<string, S>, textures: map<string, Sprite<I>>, swfs: map<string, W>)
  {
    /** The entry held under `name` in the library of `kind`, as the registration that
        would put it there. */
    function Get(kind: Kind, name: string): Option<Registration<S, I, W>>
    {
      match kind
      case ShapeKind => if name in shapes then Some(AddShape(name, shapes[name])) else None
      case TextureKind => if name in textures then Some(AddTexture(name, textures[name])) else None
      case SwfKind => if name in swfs then Some(AddSwf(name, swfs[name])) else None
    }
  }

  /** A registration stores the entry under its name, replacing any earlier one. */
  function Apply<S, I, W>(libs: Libraries<S, I, W>, e: Registration<S, I, W>): (r: Libraries<S, I, W>)
    ensures r.Get(e.KindOf(), e.name) == Some(e)
    ensures forall kind, name :: kind != e.KindOf() || name != e.name ==> r.Get(kind, name) == libs.Get(kind, name)
  {
    match e
    case AddShape(name, shape) => libs.(shapes := libs.shapes[name := shape])
    case AddTexture(name, texture) => libs.(textures := libs.textures[name := texture])
    case AddSwf(name, swf) => libs.(swfs := libs.swfs[name := swf])
  }

  function ApplyAll<S, I, W>(libs: Libraries<S, I, W>, es: seq<Registration<S, I, W>>): Libraries<S, I, W>
  {
    if |es| == 0 then libs else Apply(ApplyAll(libs, es[..|es| - 1]), es[|es| - 1])
  }

  predicate Names<S, I, W>(e: Registration<S, I, W>, kind: Kind, name: string)
  {
    e.KindOf() == kind && e.name == name
  }

  /** The last registration in `es` of an entry of `kind` named `name`. */
  function LastRegistered<S, I, W>(es: seq<Registration<S, I, W>>, kind: Kind, name: string): (r: Option<Registration<S, I, W>>)
    ensures r.None? <==> forall j :: 0 <= j < |es| ==> !Names(es[j], kind, name)
    ensures r.Some? ==> r.value.KindOf() == kind && r.value.name == name
    ensures r.Some? ==> exists j :: 0 <= j < |es| && es[j] == r.value && forall k :: j < k < |es| ==> !Names(es[k], kind, name)
  {
    if |es| == 0 then None
    else if Names(es[|es| - 1], kind, name) then Some(es[|es| - 1])
    else LastRegistered(es[..|es| - 1], kind, name)
  }

  /** After a series of registrations, each library holds the last entry registered
      under each name, and keeps its old entry where none was. */
  lemma {:induction false} LastWriteWins<S, I, W>(libs: Libraries<S, I, W>, es: seq<Registration<S, I, W>>, kind: Kind, name: string)
    ensures ApplyAll(libs, es).Get(kind, name) ==
      if LastRegistered(es, kind, name).Some? then LastRegistered(es, kind, name) else libs.Get(kind, name)
  {
    if |es| > 0 {
      LastWriteWins(libs, es[..|es| - 1], kind, name);
    }
  }

  lemma ApplyAllSnoc<S, I, W>(libs: Libraries<S, I, W>, es: seq<Registration<S, I, W>>, e: Registration<S, I, W>)
    ensures ApplyAll(libs, es + [e]) == Apply(ApplyAll(libs, es), e)
  {
    assert (es + [e])[..|es|] == es;
  }

  lemma {:induction false} ApplyAllConcat<S, I, W>(libs: Libraries<S, I, W>, a: seq<Registration<S, I, W>>, b: seq<Registration<S, I, W>>)
    ensures ApplyAll(libs, a + b) == ApplyAll(ApplyAll(libs, a), b)
  {
    if |b| == 0 {
      assert a + b == a;
    } else {
      assert (a + b)[..|a + b| - 1] == a + b[..|b| - 1];
      ApplyAllConcat(libs, a, b[..|b| - 1]);
    }
  }

  /** Among two batches of registrations, the later batch decides every name it
      registers. */
  lemma {:induction false} LaterBatchWins<S, I, W>(a: seq<Registration<S, I, W>>, b: seq<Registration<S, I, W>>, kind: Kind, name: string)
    ensures LastRegistered(a + b, kind, name) ==
      if LastRegistered(b, kind, name).Some? then LastRegistered(b, kind, name) else LastRegistered(a, kind, name)
  {
    if |b| == 0 {
      assert a + b == a;
    } else {
      assert (a + b)[..|a + b| - 1] == a + b[..|b| - 1];
      LaterBatchWins(a, b[..|b| - 1], kind, name);
    }
  }

  /** The renderer's libraries, updated in place by its `add_*` methods. */
  class Renderer<S, I, W> {
    var shapes: map<string, S>
    var textures: map<string, Sprite<I>>
    var swfs: map<string, W>

    function State(): Libraries<S, I, W>
      reads this
    {
      Libraries(shapes, textures, swfs)
    }

    constructor()
      ensures State() == Libraries(map[], map[], map[])
    {
      shapes, textures, swfs := map[], map[], map[];
    }

    method AddShape(name: string, shape: S)
      modifies this
      ensures shapes == old(shapes)[name := shape] && textures == old(textures) && swfs == old(swfs)
      ensures State() == Apply(old(State()), Registration.AddShape(name, shape))
    {
      shapes := shapes[name := shape];
    }

    method AddTexture(name: string, texture: Sprite<I>)
      modifies this
      ensures textures == old(textures)[name := texture] && shapes == old(shapes) && swfs == old(swfs)
      ensures State() == Apply(old(State()), Registration.AddTexture(name, texture))
    {
      textures := textures[name := texture];
    }

    method AddSwf(name: string, swf: W)
      modifies this
      ensures swfs == old(swfs)[name := swf] && shapes == old(shapes) && textures == old(textures)
      ensures State() == Apply(old(State()), Registration.AddSwf(name, swf))
    {
      swfs := swfs[name := swf];
    }
  }

  // ---------------------------------------------------------------------------
  // Steps and their left fold

  /** Why loading stops: an `IndexError` on the shape, texture-name or SWF list, a
      region index past the region table, or a texture name no texture carries. */
  datatype LoadError =
    | ShapeIndex(index: nat)
    | OutOfBoundsRegion(index: nat)
    | TextureIndex(textureno: int)
    | TextureNotFound(texture: string)
    | SwfIndex(index: nat)

  /** The registrations made so far, and the error that stopped loading, if any. */
  datatype Load<S, I, W> = Load(events: seq<Registration<S, I, W>>, error: Option<LoadError>)

  /** One visited entry: a registration, nothing, or an error. */
  type Step<S, I, W> = Result<Option<Registration<S, I, W>>, LoadError>

  function Then<S, I, W>(prev: Load<S, I, W>, step: Step<S, I, W>): Load<S, I, W>
  {
    if prev.error.Some? then prev
    else match step
      case Err(e) => Load(prev.events, Some(e))
      case Ok(None) => prev
      case Ok(Some(r)) => Load(prev.events + [r], None)
  }

  function Run<S, I, W>(start: Load<S, I, W>, steps: seq<Step<S, I, W>>): Load<S, I, W>
  {
    if |steps| == 0 then start else Then(Run(start, steps[..|steps| - 1]), steps[|steps| - 1])
  }

  /** The registrations a list of steps asks for, ignoring errors. */
  function Emitted<S, I, W>(steps: seq<Step<S, I, W>>): seq<Registration<S, I, W>>
  {
    if |steps| == 0 then []
    else Emitted(steps[..|steps| - 1]) + (match steps[|steps| - 1] case Ok(Some(r)) => [r] case _ => [])
  }

  predicate Clean<S, I, W>(steps: seq<Step<S, I, W>>)
  {
    forall i :: 0 <= i < |steps| ==> steps[i].Ok?
  }

  lemma RunStep<S, I, W>(start: Load<S, I, W>, steps: seq<Step<S, I, W>>, n: nat)
    requires n < |steps|
    ensures Run(start, steps[..n + 1]) == Then(Run(start, steps[..n]), steps[n])
  {
    assert steps[..n + 1][..n] == steps[..n];
  }

  lemma {:induction false} RunStopped<S, I, W>(start: Load<S, I, W>, steps: seq<Step<S, I, W>>)
    requires start.error.Some?
    ensures Run(start, steps) == start
  {
    if |steps| > 0 {
      RunStopped(start, steps[..|steps| - 1]);
    }
  }

  lemma {:induction false} RunConcat<S, I, W>(start: Load<S, I, W>, a: seq<Step<S, I, W>>, b: seq<Step<S, I, W>>)
    ensures Run(start, a + b) == Run(Run(start, a), b)
  {
    if |b| == 0 {
      assert a + b == a;
    } else {
      assert (a + b)[..|a + b| - 1] == a + b[..|b| - 1];
      RunConcat(start, a, b[..|b| - 1]);
    }
  }

  /** Once a prefix of the steps has raised, the remaining steps change nothing. */
  lemma RunStoppedAt<S, I, W>(start: Load<S, I, W>, steps: seq<Step<S, I, W>>, n: nat)
    requires n <= |steps|
    requires Run(start, steps[..n]).error.Some?
    ensures Run(start, steps) == Run(start, steps[..n])
  {
    assert steps == steps[..n] + steps[n..];
    RunConcat(start, steps[..n], steps[n..]);
    RunStopped(Run(start, steps[..n]), steps[n..]);
  }

  /** Running from earlier registrations only prefixes them to the result. */
  lemma {:induction false} RunShift<S, I, W>(events: seq<Registration<S, I, W>>, steps: seq<Step<S, I, W>>)
    ensures Run(Load(events, None), steps) ==
      Load(events + Run(Load([], None), steps).events, Run(Load([], None), steps).error)
  {
    if |steps| > 0 {
      RunShift(events, steps[..|steps| - 1]);
      var prev := Run(Load([], None), steps[..|steps| - 1]);
      if prev.error.None? {
        match steps[|steps| - 1]
        case Ok(Some(r)) =>
          assert events + (prev.events + [r]) == (events + prev.events) + [r];
        case _ =>
      }
    } else {
      assert events + [] == events;
    }
  }

  /** Steps raise no error exactly when each of them succeeds, and then loading makes
      exactly the registrations they ask for, in order. */
  lemma {:induction false} RunClean<S, I, W>(start: Load<S, I, W>, steps: seq<Step<S, I, W>>)
    requires start.error.None?
    ensures Run(start, steps).error.None? <==> Clean(steps)
    ensures Clean(steps) ==> Run(start, steps).events == start.events + Emitted(steps)
  {
    if |steps| == 0 {
      assert start.events + [] == start.events;
    } else {
      var init := steps[..|steps| - 1];
      RunClean(start, init);
      if Clean(init) {
        match steps[|steps| - 1]
        case Ok(Some(r)) =>
          assert start.events + Emitted(init) + [r] == start.events + (Emitted(init) + [r]);
        case _ =>
      } else {
        var j :| 0 <= j < |init| && !init[j].Ok?;
        assert !steps[j].Ok?;
      }
    }
  }

  /** Loading stops at the first step that raises, with the registrations made before
      it. */
  lemma RunFirstError<S, I, W>(start: Load<S, I, W>, steps: seq<Step<S, I, W>>, k: nat)
    requires start.error.None?
    requires k < |steps| && Clean(steps[..k]) && steps[k].Err?
    ensures Run(start, steps) == Load(start.events + Emitted(steps[..k]), Some(steps[k].error))
  {
    RunClean(start, steps[..k]);
    RunStep(start, steps, k);
    RunStoppedAt(start, steps, k + 1);
  }

  lemma {:induction false} EmittedMembers<S, I, W>(steps: seq<Step<S, I, W>>, e: Registration<S, I, W>)
    ensures e in Emitted(steps) <==> exists i :: 0 <= i < |steps| && steps[i] == Ok(Some(e))
  {
    if |steps| > 0 {
      var init := steps[..|steps| - 1];
      EmittedMembers(init, e);
      if exists i :: 0 <= i < |steps| && steps[i] == Ok(Some(e)) {
        var i :| 0 <= i < |steps| && steps[i] == Ok(Some(e));
        if i < |init| {
          assert init[i] == Ok(Some(e));
        }
      }
      if e in Emitted(init) {
        var i :| 0 <= i < |init| && init[i] == Ok(Some(e));
        assert steps[i] == Ok(Some(e));
      }
    }
  }

  // ---------------------------------------------------------------------------
  // TXP2 containers

  /** A region of a texture sheet: the index of the sheet's name, and its corners in
      the sheet's full-resolution coordinates. */
  datatype Region = Region(textureno: int, left: int, top: int, right: int, bottom: int)

  /** A texture sheet of the container; `img` is None when its format is not decoded. */
  datatype Sheet<I> = Sheet(name: string, img: Option<I>)

  /** A parsed TXP2 container: each name list beside the list it indexes. */
  datatype Txp2<S, I, W> = Txp2(
    shapeNames: seq<string>, shapes: seq<S>,
    textureNames: seq<string>, textures: seq<Sheet<I>>,
    regionNames: seq<string>, regions: seq<Region>,
    swfNames: seq<string>, swfs: seq<W>)

  /** Python's `s[k]`: a negative index counts from the end; anything else outside the
      list raises. */
  function PyIndex<T>(s: seq<T>, k: int): (r: Option<T>)
    ensures r.Some? <==> -|s| <= k < |s|
    ensures r.Some? ==> r.value in s
  {
    if 0 <= k < |s| then Some(s[k])
    else if -|s| <= k < 0 then Some(s[|s| + k])
    else None
  }

  /** The first sheet carrying `name`: the `for ... break` search of the source. */
  function FirstNamed<I>(sheets: seq<Sheet<I>>, name: string): (r: Option<Sheet<I>>)
    ensures r.None? <==> forall j :: 0 <= j < |sheets| ==> sheets[j].name != name
    ensures r.Some? ==> r.value.name == name && r.value in sheets
  {
    if |sheets| == 0 then None
    else if sheets[0].name == name then Some(sheets[0])
    else FirstNamed(sheets[1..], name)
  }

  /** A sheet with the wanted name, preceded by none, is the one the search finds. */
  lemma {:induction false} FirstNamedAt<I>(sheets: seq<Sheet<I>>, name: string, j: nat)
    requires j < |sheets| && sheets[j].name == name
    requires forall q :: 0 <= q < j ==> sheets[q].name != name
    ensures FirstNamed(sheets, name) == Some(sheets[j])
  {
    if j > 0 {
      FirstNamedAt(sheets[1..], name, j - 1);
    }
  }

  /** Python's `x // 2`, rounding toward negative infinity. */
  function Half(x: int): (h: int)
    ensures 2 * h <= x < 2 * h + 2
  {
    x / 2
  }

  /** The crop box: each corner halved, because the sheets are stored at half the
      resolution the regions are given in. */
  function HalfBox(region: Region): (b: Box)
    ensures b == Box(Half(region.left), Half(region.top), Half(region.right), Half(region.bottom))
  {
    Box(region.left / 2, region.top / 2, region.right / 2, region.bottom / 2)
  }

  function ShapeStep<S, I, W>(t: Txp2<S, I, W>, i: nat): Step<S, I, W>
  {
    if i < |t.shapes| && i < |t.shapeNames| then Ok(Some(AddShape(t.shapeNames[i], t.shapes[i])))
    else Err(ShapeIndex(i))
  }

  /** The sheet region `i` resolves to, or why it resolves to none. */
  function RegionSheet<S, I, W>(t: Txp2<S, I, W>, i: nat): Result<Sheet<I>, LoadError>
  {
    if i >= |t.regions| then Err(OutOfBoundsRegion(i))
    else match PyIndex(t.textureNames, t.regions[i].textureno)
      case None => Err(TextureIndex(t.regions[i].textureno))
      case Some(texturename) =>
        match FirstNamed(t.textures, texturename)
        case None => Err(TextureNotFound(texturename))
        case Some(sheet) => Ok(sheet)
  }

  function RegionStep<S, I, W>(t: Txp2<S, I, W>, i: nat): Step<S, I, W>
    requires i < |t.regionNames|
  {
    match RegionSheet(t, i)
    case Err(e) => Err(e)
    case Ok(sheet) =>
      if sheet.img.Some? then Ok(Some(AddTexture(t.regionNames[i], Crop(sheet.img.value, HalfBox(t.regions[i])))))
      else Ok(None)
  }

  function SwfStep<S, I, W>(t: Txp2<S, I, W>, i: nat): Step<S, I, W>
  {
    if i < |t.swfs| && i < |t.swfNames| then Ok(Some(AddSwf(t.swfNames[i], t.swfs[i])))
    else Err(SwfIndex(i))
  }

  function ShapeSteps<S, I, W>(t: Txp2<S, I, W>): (steps: seq<Step<S, I, W>>)
    ensures |steps| == |t.shapeNames|
    ensures forall i :: 0 <= i < |steps| ==> steps[i] == ShapeStep(t, i)
  {
    seq(|t.shapeNames|, i requires 0 <= i => ShapeStep(t, i))
  }

  function RegionSteps<S, I, W>(t: Txp2<S, I, W>): (steps: seq<Step<S, I, W>>)
    ensures |steps| == |t.regionNames|
    ensures forall i :: 0 <= i < |steps| ==> steps[i] == RegionStep(t, i)
  {
    seq(|t.regionNames|, i requires 0 <= i < |t.regionNames| => RegionStep(t, i))
  }

  function SwfSteps<S, I, W>(t: Txp2<S, I, W>): (steps: seq<Step<S, I, W>>)
    ensures |steps| == |t.swfNames|
    ensures forall i :: 0 <= i < |steps| ==> steps[i] == SwfStep(t, i)
  {
    seq(|t.swfNames|, i requires 0 <= i => SwfStep(t, i))
  }

  /** Shapes by index, then regions by index, then SWFs by index. */
  function Txp2Steps<S, I, W>(t: Txp2<S, I, W>): seq<Step<S, I, W>>
  {
    ShapeSteps(t) + RegionSteps(t) + SwfSteps(t)
  }

  function Txp2Load<S, I, W>(t: Txp2<S, I, W>): Load<S, I, W>
  {
    Run(Load([], None), Txp2Steps(t))
  }

  /** Two phases in a row: the second runs only if the first raised nothing, and its
      registrations follow the first's. */
  lemma RunPhases<S, I, W>(a: seq<Step<S, I, W>>, b: seq<Step<S, I, W>>)
    ensures var first, second := Run(Load([], None), a), Run(Load([], None), b);
      Run(Load([], None), a + b) ==
        if first.error.Some? then first else Load(first.events + second.events, second.error)
  {
    var first := Run(Load([], None), a);
    RunConcat(Load([], None), a, b);
    if first.error.Some? {
      RunStopped(first, b);
    } else {
      RunShift(first.events, b);
    }
  }

  /** A region index at or past the region table always raises "out of bounds". */
  lemma RegionBounds<S, I, W>(t: Txp2<S, I, W>, i: nat)
    requires i < |t.regionNames|
    ensures RegionStep(t, i) == Err(OutOfBoundsRegion(i)) <==> i >= |t.regions|
  {
  }

  /** A region whose sheet has no decoded image is skipped without error. */
  lemma RegionSkipped<S, I, W>(t: Txp2<S, I, W>, i: nat)
    requires i < |t.regionNames|
    ensures RegionStep(t, i) == Ok(None) <==> RegionSheet(t, i).Ok? && RegionSheet(t, i).value.img.None?
  {
  }

  /** The sheet a region crops from is the first texture carrying the name the region
      points at, counting negative indexes from the end of the name list. */
  lemma RegionSheetIsFirstNamed<S, I, W>(t: Txp2<S, I, W>, i: nat)
    requires RegionSheet(t, i).Ok?
    ensures i < |t.regions|
    ensures var k := t.regions[i].textureno;
      && -|t.textureNames| <= k < |t.textureNames|
      && var name := if k >= 0 then t.textureNames[k] else t.textureNames[|t.textureNames| + k];
         FirstNamed(t.textures, name) == Some(RegionSheet(t, i).value)
  {
  }

  /** Loading a TXP2 container fails exactly when a name list is longer than the list it
      indexes, or a region does not resolve to a sheet. */
  lemma Txp2Succeeds<S, I, W>(t: Txp2<S, I, W>)
    ensures Txp2Load(t).error.None? <==>
      && |t.shapeNames| <= |t.shapes|
      && |t.swfNames| <= |t.swfs|
      && forall i :: 0 <= i < |t.regionNames| ==> RegionSheet(t, i).Ok?
  {
    var shapes, regions, swfs := ShapeSteps(t), RegionSteps(t), SwfSteps(t);
    RunPhases(shapes + regions, swfs);
    RunPhases(shapes, regions);
    RunClean(Load([], None), shapes);
    RunClean(Load([], None), regions);
    RunClean(Load([], None), swfs);
    PhasesClean(t);
  }

  /** Each phase raises nothing exactly when its own condition holds. */
  lemma PhasesClean<S, I, W>(t: Txp2<S, I, W>)
    ensures Clean(ShapeSteps(t)) <==> |t.shapeNames| <= |t.shapes|
    ensures Clean(SwfSteps(t)) <==> |t.swfNames| <= |t.swfs|
    ensures Clean(RegionSteps(t)) <==> forall i :: 0 <= i < |t.regionNames| ==> RegionSheet(t, i).Ok?
  {
    var shapes, regions, swfs := ShapeSteps(t), RegionSteps(t), SwfSteps(t);
    if |t.shapeNames| > |t.shapes| {
      assert !shapes[|t.shapes|].Ok?;
    }
    if |t.swfNames| > |t.swfs| {
      assert !swfs[|t.swfs|].Ok?;
    }
    forall i | 0 <= i < |t.regionNames|
      ensures regions[i].Ok? <==> RegionSheet(t, i).Ok?
    {
      RegionSkipped(t, i);
    }
  }

  /** When the region table is shorter than the region names and everything before it
      loads, loading stops with "out of bounds region" at the first missing index. */
  lemma OutOfBoundsRegionRaises<S, I, W>(t: Txp2<S, I, W>)
    requires |t.shapeNames| <= |t.shapes|
    requires |t.regions| < |t.regionNames|
    requires forall i :: 0 <= i < |t.regions| ==> RegionSheet(t, i).Ok?
    ensures Txp2Load(t).error == Some(OutOfBoundsRegion(|t.regions|))
  {
    var shapes, regions, swfs := ShapeSteps(t), RegionSteps(t), SwfSteps(t);
    RunPhases(shapes + regions, swfs);
    RunPhases(shapes, regions);
    RunClean(Load([], None), shapes);
    RunFirstError(Load([], None), regions, |t.regions|);
  }

  /** Region `i` is cut from a sheet with an image, under the region's name, with the
      halved box. */
  ghost predicate TextureFrom<S, I, W>(t: Txp2<S, I, W>, i: nat, name: string, sprite: Sprite<I>)
  {
    && i < |t.regionNames|
    && RegionSheet(t, i).Ok? && RegionSheet(t, i).value.img.Some?
    && name == t.regionNames[i]
    && sprite == Crop(RegionSheet(t, i).value.img.value, HalfBox(t.regions[i]))
  }

  lemma RegionStepEmits<S, I, W>(t: Txp2<S, I, W>, i: nat, name: string, sprite: Sprite<I>)
    requires i < |t.regionNames|
    ensures RegionStep(t, i) == Ok(Some(AddTexture(name, sprite))) <==> TextureFrom(t, i, name, sprite)
  {
  }

  /** After a successful load, the textures registered are exactly the regions whose
      sheet has an image, each cropped to its halved box and named after the region. */
  lemma Txp2Textures<S, I, W>(t: Txp2<S, I, W>, name: string, sprite: Sprite<I>)
    requires Txp2Load(t).error.None?
    ensures AddTexture(name, sprite) in Txp2Load(t).events <==>
      exists i :: 0 <= i < |t.regionNames| && TextureFrom(t, i, name, sprite)
  {
    var shapes, regions, swfs := ShapeSteps(t), RegionSteps(t), SwfSteps(t);
    var e: Registration<S, I, W> := AddTexture(name, sprite);
    RunPhases(shapes + regions, swfs);
    RunPhases(shapes, regions);
    RunClean(Load([], None), shapes);
    RunClean(Load([], None), regions);
    RunClean(Load([], None), swfs);
    TexturesFromRegions(t, name, sprite);
  }

  /** Only the region phase emits textures, one for each region cropped from its sheet. */
  lemma TexturesFromRegions<S, I, W>(t: Txp2<S, I, W>, name: string, sprite: Sprite<I>)
    ensures AddTexture(name, sprite) !in Emitted(ShapeSteps(t))
    ensures AddTexture(name, sprite) !in Emitted(SwfSteps(t))
    ensures AddTexture(name, sprite) in Emitted(RegionSteps(t)) <==>
      exists i :: 0 <= i < |t.regionNames| && TextureFrom(t, i, name, sprite)
  {
    var shapes, regions, swfs := ShapeSteps(t), RegionSteps(t), SwfSteps(t);
    var e: Registration<S, I, W> := AddTexture(name, sprite);
    EmittedMembers(shapes, e);
    EmittedMembers(regions, e);
    EmittedMembers(swfs, e);
    forall i | 0 <= i < |t.regionNames|
      ensures regions[i] == Ok(Some(e)) <==> TextureFrom(t, i, name, sprite)
    {
      RegionStepEmits(t, i, name, sprite);
    }
  }

  /** The shape pass: `add_shape` for each shape name and the shape at its index. */
  method LoadShapes<S, I, W>(r: Renderer<S, I, W>, t: Txp2<S, I, W>) returns (error: Option<LoadError>)
    modifies r
    ensures r.State() == ApplyAll(old(r.State()), Run(Load([], None), ShapeSteps(t)).events)
    ensures error == Run(Load([], None), ShapeSteps(t)).error
  {
    ghost var libs := r.State();
    ghost var steps := ShapeSteps(t);
    for i := 0 to |t.shapeNames|
      invariant r.State() == ApplyAll(libs, Run(Load([], None), steps[..i]).events)
      invariant Run(Load([], None), steps[..i]).error.None?
    {
      ghost var before := Run(Load([], None), steps[..i]);
      RunStep(Load([], None), steps, i);
      if i >= |t.shapes| {
        assert steps[i] == Err(ShapeIndex(i));
        RunStoppedAt(Load([], None), steps, i + 1);
        return Some(ShapeIndex(i));
      }
      var e := AddShape(t.shapeNames[i], t.shapes[i]);
      assert steps[i] == Ok(Some(e));
      assert Run(Load([], None), steps[..i + 1]) == Load(before.events + [e], None);
      r.AddShape(t.shapeNames[i], t.shapes[i]);
      ApplyAllSnoc(libs, before.events, e);
    }
    assert steps[..|t.shapeNames|] == steps;
    error := None;
  }

  /** Finds the sheet region `i` is cut from, searching the textures only for a name
      not yet in the `sheets` cache; each cached entry is the first texture with its
      name. */
  method ResolveSheet<S, I, W>(t: Txp2<S, I, W>, i: nat, sheets: map<string, Sheet<I>>)
    returns (res: Result<Sheet<I>, LoadError>, sheets': map<string, Sheet<I>>)
    requires forall name :: name in sheets ==> FirstNamed(t.textures, name) == Some(sheets[name])
    ensures res == RegionSheet(t, i)
    ensures forall name :: name in sheets' ==> FirstNamed(t.textures, name) == Some(sheets'[name])
  {
    sheets' := sheets;
    if i >= |t.regions| {
      return Err(OutOfBoundsRegion(i)), sheets';
    }
    var region := t.regions[i];
    var k := region.textureno;
    if !(-|t.textureNames| <= k < |t.textureNames|) {
      return Err(TextureIndex(k)), sheets';
    }
    var texturename := if k >= 0 then t.textureNames[k] else t.textureNames[|t.textureNames| + k];
    if texturename !in sheets' {
      var j := 0;
      while j < |t.textures|
        invariant 0 <= j <= |t.textures|
        invariant forall q :: 0 <= q < j ==> t.textures[q].name != texturename
      {
        if t.textures[j].name == texturename {
          FirstNamedAt(t.textures, texturename, j);
          sheets' := sheets'[texturename := t.textures[j]];
          break;
        }
        j := j + 1;
      }
      if texturename !in sheets' {
        return Err(TextureNotFound(texturename)), sheets';
      }
    }
    res := Ok(sheets'[texturename]);
  }

  /** The texture pass: each region is cropped out of its sheet and registered, unless
      the sheet has no image. */
  method LoadTextures<S, I, W>(r: Renderer<S, I, W>, t: Txp2<S, I, W>) returns (error: Option<LoadError>)
    modifies r
    ensures r.State() == ApplyAll(old(r.State()), Run(Load([], None), RegionSteps(t)).events)
    ensures error == Run(Load([], None), RegionSteps(t)).error
  {
    ghost var libs := r.State();
    ghost var steps := RegionSteps(t);
    var sheets: map<string, Sheet<I>> := map[];
    for i := 0 to |t.regionNames|
      invariant r.State() == ApplyAll(libs, Run(Load([], None), steps[..i]).events)
      invariant Run(Load([], None), steps[..i]).error.None?
      invariant forall name :: name in sheets ==> FirstNamed(t.textures, name) == Some(sheets[name])
    {
      ghost var before := Run(Load([], None), steps[..i]);
      RunStep(Load([], None), steps, i);
      var found;
      found, sheets := ResolveSheet(t, i, sheets);
      if found.Err? {
        RunStoppedAt(Load([], None), steps, i + 1);
        return Some(found.error);
      }
      var sheet := found.value;
      if sheet.img.Some? {
        var sprite := Crop(sheet.img.value, HalfBox(t.regions[i]));
        r.AddTexture(t.regionNames[i], sprite);
        ApplyAllSnoc(libs, before.events, AddTexture(t.regionNames[i], sprite));
      }
    }
    assert steps[..|t.regionNames|] == steps;
    error := None;
  }

  /** The SWF pass: `add_swf` for each SWF name and the SWF at its index. */
  method LoadSwfs<S, I, W>(r: Renderer<S, I, W>, t: Txp2<S, I, W>) returns (error: Option<LoadError>)
    modifies r
    ensures r.State() == ApplyAll(old(r.State()), Run(Load([], None), SwfSteps(t)).events)
    ensures error == Run(Load([], None), SwfSteps(t)).error
  {
    ghost var libs := r.State();
    ghost var steps := SwfSteps(t);
    for i := 0 to |t.swfNames|
      invariant r.State() == ApplyAll(libs, Run(Load([], None), steps[..i]).events)
      invariant Run(Load([], None), steps[..i]).error.None?
    {
      ghost var before := Run(Load([], None), steps[..i]);
      RunStep(Load([], None), steps, i);
      if i >= |t.swfs| {
        assert steps[i] == Err(SwfIndex(i));
        RunStoppedAt(Load([], None), steps, i + 1);
        return Some(SwfIndex(i));
      }
      var e := AddSwf(t.swfNames[i], t.swfs[i]);
      assert steps[i] == Ok(Some(e));
      assert Run(Load([], None), steps[..i + 1]) == Load(before.events + [e], None);
      r.AddSwf(t.swfNames[i], t.swfs[i]);
      ApplyAllSnoc(libs, before.events, e);
    }
    assert steps[..|t.swfNames|] == steps;
    error := None;
  }

  /** Loads one TXP2 container: shapes, then textures, then SWFs, stopping at the first
      error. */
  method LoadTxp2<S, I, W>(r: Renderer<S, I, W>, t: Txp2<S, I, W>) returns (error: Option<LoadError>)
    modifies r
    ensures r.State() == ApplyAll(old(r.State()), Txp2Load(t).events)
    ensures error == Txp2Load(t).error
  {
    ghost var libs := r.State();
    ghost var shapes, regions, swfs := ShapeSteps(t), RegionSteps(t), SwfSteps(t);
    RunPhases(shapes + regions, swfs);
    RunPhases(shapes, regions);
    error := LoadShapes(r, t);
    if error.Some? {
      return;
    }
    ghost var libs1 := r.State();
    error := LoadTextures(r, t);
    ApplyAllConcat(libs, Run(Load([], None), shapes).events, Run(Load([], None), regions).events);
    if error.Some? {
      return;
    }
    error := LoadSwfs(r, t);
    ApplyAllConcat(libs, Run(Load([], None), shapes + regions).events, Run(Load([], None), swfs).events);
  }

  /** Region corners are halved with floor division, so odd and negative corners round
      down. */
  lemma CropBoxExample()
    ensures HalfBox(Region(0, 100, 100, 300, 300)) == Box(50, 50, 150, 150)
    ensures HalfBox(Region(0, 100, 51, 201, -3)) == Box(50, 25, 100, -2)
  {
  }

  // ---------------------------------------------------------------------------
  // IFS containers

  /** A parsed IFS archive: its file listing, in order, and its file reader. */
  datatype Ifs<D> = Ifs(filenames: seq<string>, read: string -> D)

  /** What the IFS branch makes of file contents: a shape parsed under a name, a decoded
      image, and a SWF built from its name, its `afp` data and its `bsi` data. */
  datatype Decoders<!D, S, I, W> = Decoders(shape: (string, D) -> S, image: D -> I, swf: (string, D, D) -> W)

  /** What one listed path registers: `geo<sep>X` the shape X, `tex<sep>X.png` the
      texture X, `afp<sep>X` the SWF X when `afp<sep>bsi<sep>X` is listed, and nothing
      otherwise. */
  function IfsEntry<D, S, I, W>(ifs: Ifs<D>, sep: string, dec: Decoders<D, S, I, W>, fname: string): Option<Registration<S, I, W>>
  {
    if StartsWith(fname, "geo" + sep) then
      var shapename := DropFront(fname, 3 + |sep|);
      Some(AddShape(shapename, dec.shape(shapename, ifs.read(fname))))
    else if StartsWith(fname, "tex" + sep) && EndsWith(fname, ".png") then
      var texname := DropBack(DropFront(fname, 3 + |sep|), 4);
      Some(AddTexture(texname, Whole(dec.image(ifs.read(fname)))))
    else if StartsWith(fname, "afp" + sep) then
      var afpname := DropFront(fname, 3 + |sep|);
      var bsipath := "afp" + sep + "bsi" + sep + afpname;
      if bsipath in ifs.filenames then Some(AddSwf(afpname, dec.swf(afpname, ifs.read(fname), ifs.read(bsipath))))
      else None
    else None
  }

  function IfsSteps<D, S, I, W>(ifs: Ifs<D>, sep: string, dec: Decoders<D, S, I, W>): (steps: seq<Step<S, I, W>>)
    ensures |steps| == |ifs.filenames|
    ensures forall i :: 0 <= i < |steps| ==> steps[i] == Ok(IfsEntry(ifs, sep, dec, ifs.filenames[i]))
  {
    seq(|ifs.filenames|, i requires 0 <= i < |ifs.filenames| => Ok(IfsEntry(ifs, sep, dec, ifs.filenames[i])))
  }

  /** An IFS archive never stops loading, and registers what its listed paths register,
      in listing order. */
  lemma IfsNeverFails<D, S, I, W>(ifs: Ifs<D>, sep: string, dec: Decoders<D, S, I, W>)
    ensures Run(Load([], None), IfsSteps(ifs, sep, dec)).error.None?
    ensures forall e :: e in Run(Load([], None), IfsSteps(ifs, sep, dec)).events <==>
      exists i :: 0 <= i < |ifs.filenames| && IfsEntry(ifs, sep, dec, ifs.filenames[i]) == Some(e)
  {
    var steps := IfsSteps(ifs, sep, dec);
    RunClean(Load([], None), steps);
    assert Run(Load([], None), steps).events == Emitted(steps);
    forall e: Registration<S, I, W>
      ensures e in Emitted(steps) <==> exists i :: 0 <= i < |ifs.filenames| && IfsEntry(ifs, sep, dec, ifs.filenames[i]) == Some(e)
    {
      EmittedMembers(steps, e);
    }
  }

  lemma PrefixOf(s: string, prefix: string, rest: string)
    requires s == prefix + rest
    ensures StartsWith(s, prefix) && DropFront(s, |prefix|) == rest
  {
    assert s[..|prefix|] == prefix;
    assert s[|prefix|..] == rest;
  }

  /** `geo<sep>X` registers the shape X, parsed from that file. */
  lemma IfsShapePath<D, S, I, W>(ifs: Ifs<D>, sep: string, dec: Decoders<D, S, I, W>, name: string)
    ensures var path := "geo" + sep + name;
      IfsEntry(ifs, sep, dec, path) == Some(AddShape(name, dec.shape(name, ifs.read(path))))
  {
    PrefixOf("geo" + sep + name, "geo" + sep, name);
  }

  /** `tex<sep>X.png` registers the texture X, decoded from that file, whatever
      precedes it in the listing. */
  lemma IfsTexturePath<D, S, I, W>(ifs: Ifs<D>, sep: string, dec: Decoders<D, S, I, W>, name: string)
    ensures var path := "tex" + sep + name + ".png";
      IfsEntry(ifs, sep, dec, path) == Some(AddTexture(name, Whole(dec.image(ifs.read(path)))))
  {
    var path := "tex" + sep + name + ".png";
    PrefixOf(path, "tex" + sep, name + ".png");
    assert !StartsWith(path, "geo" + sep) by {
      assert path[0] == 't';
    }
    assert EndsWith(path, ".png") by {
      assert path[|path| - 4..] == ".png";
    }
    assert DropBack(name + ".png", 4) == name by {
      assert (name + ".png")[..|name|] == name;
    }
    IfsTextureEntry(ifs, sep, dec, path);
  }

  lemma IfsTextureEntry<D, S, I, W>(ifs: Ifs<D>, sep: string, dec: Decoders<D, S, I, W>, fname: string)
    requires !StartsWith(fname, "geo" + sep) && StartsWith(fname, "tex" + sep) && EndsWith(fname, ".png")
    ensures IfsEntry(ifs, sep, dec, fname)
         == Some(AddTexture(DropBack(DropFront(fname, 3 + |sep|), 4), Whole(dec.image(ifs.read(fname)))))
  {
  }

  /** `afp<sep>X` registers the SWF X exactly when `afp<sep>bsi<sep>X` is listed too,
      built from both files. */
  lemma IfsSwfPath<D, S, I, W>(ifs: Ifs<D>, sep: string, dec: Decoders<D, S, I, W>, name: string)
    ensures var path, bsipath := "afp" + sep + name, "afp" + sep + "bsi" + sep + name;
      IfsEntry(ifs, sep, dec, path) ==
        if bsipath in ifs.filenames then Some(AddSwf(name, dec.swf(name, ifs.read(path), ifs.read(bsipath))))
        else None
  {
    var path := "afp" + sep + name;
    PrefixOf(path, "afp" + sep, name);
    assert !StartsWith(path, "geo" + sep) && !StartsWith(path, "tex" + sep) by {
      assert path[0] == 'a';
    }
  }

  /** A listed path registers a SWF only from the `afp` directory, and only when its
      `bsi` companion is listed. */
  lemma IfsSwfNeedsBsi<D, S, I, W>(ifs: Ifs<D>, sep: string, dec: Decoders<D, S, I, W>, fname: string)
    ensures (IfsEntry(ifs, sep, dec, fname).Some? && IfsEntry(ifs, sep, dec, fname).value.AddSwf?) <==>
      && StartsWith(fname, "afp" + sep)
      && "afp" + sep + "bsi" + sep + DropFront(fname, 3 + |sep|) in ifs.filenames
  {
    if StartsWith(fname, "afp" + sep) {
      assert !StartsWith(fname, "geo" + sep) && !StartsWith(fname, "tex" + sep) by {
        assert fname[0] == 'a';
      }
      IfsSwfEntry(ifs, sep, dec, fname);
    }
  }

  lemma IfsSwfEntry<D, S, I, W>(ifs: Ifs<D>, sep: string, dec: Decoders<D, S, I, W>, fname: string)
    requires !StartsWith(fname, "geo" + sep) && !StartsWith(fname, "tex" + sep) && StartsWith(fname, "afp" + sep)
    ensures var afpname := DropFront(fname, 3 + |sep|);
      var bsipath := "afp" + sep + "bsi" + sep + afpname;
      IfsEntry(ifs, sep, dec, fname) ==
        if bsipath in ifs.filenames then Some(AddSwf(afpname, dec.swf(afpname, ifs.read(fname), ifs.read(bsipath))))
        else None
  {
  }

  /** Loads one IFS archive: each listed path in order. */
  method LoadIfs<D, S, I, W>(r: Renderer<S, I, W>, ifs: Ifs<D>, sep: string, dec: Decoders<D, S, I, W>)
    modifies r
    ensures r.State() == ApplyAll(old(r.State()), Run(Load([], None), IfsSteps(ifs, sep, dec)).events)
  {
    ghost var libs := r.State();
    ghost var steps := IfsSteps(ifs, sep, dec);
    for i := 0 to |ifs.filenames|
      invariant r.State() == ApplyAll(libs, Run(Load([], None), steps[..i]).events)
      invariant Run(Load([], None), steps[..i]).error.None?
    {
      ghost var before := Run(Load([], None), steps[..i]);
      RunStep(Load([], None), steps, i);
      var fname := ifs.filenames[i];
      if StartsWith(fname, "geo" + sep) {
        var shapename := DropFront(fname, 3 + |sep|);
        var shape := dec.shape(shapename, ifs.read(fname));
        r.AddShape(shapename, shape);
        ApplyAllSnoc(libs, before.events, AddShape(shapename, shape));
      } else if StartsWith(fname, "tex" + sep) && EndsWith(fname, ".png") {
        var texname := DropBack(DropFront(fname, 3 + |sep|), 4);
        var tex := Whole(dec.image(ifs.read(fname)));
        r.AddTexture(texname, tex);
        ApplyAllSnoc(libs, before.events, AddTexture(texname, tex));
      } else if StartsWith(fname, "afp" + sep) {
        var afpname := DropFront(fname, 3 + |sep|);
        var bsipath := "afp" + sep + "bsi" + sep + afpname;
        if bsipath in ifs.filenames {
          var flash := dec.swf(afpname, ifs.read(fname), ifs.read(bsipath));
          r.AddSwf(afpname, flash);
          ApplyAllSnoc(libs, before.events, AddSwf(afpname, flash));
        }
      }
    }
    assert steps[..|ifs.filenames|] == steps;
  }

  // ---------------------------------------------------------------------------
  // The container list

  /** A container file, as each parser sees it: a TXP2 file if it parses as one, an IFS
      archive if it parses as one. */
  datatype Container<D, S, I, W> = Container(asTxp2: Option<Txp2<S, I, W>>, asIfs: Option<Ifs<D>>)

  /** TXP2 is tried first, IFS second; a container that is neither is skipped. */
  function ContainerSteps<D, S, I, W>(c: Container<D, S, I, W>, sep: string, dec: Decoders<D, S, I, W>): seq<Step<S, I, W>>
  {
    if c.asTxp2.Some? then Txp2Steps(c.asTxp2.value)
    else if c.asIfs.Some? then IfsSteps(c.asIfs.value, sep, dec)
    else []
  }

  /** The concatenation of a list of lists. */
  function Flatten<T>(xss: seq<seq<T>>): seq<T>
  {
    if |xss| == 0 then [] else Flatten(xss[..|xss| - 1]) + xss[|xss| - 1]
  }

  lemma {:induction false} FlattenConcat<T>(a: seq<seq<T>>, b: seq<seq<T>>)
    ensures Flatten(a + b) == Flatten(a) + Flatten(b)
  {
    if |b| == 0 {
      assert a + b == a;
      assert Flatten(a) + [] == Flatten(a);
    } else {
      var init, last := b[..|b| - 1], b[|b| - 1];
      FlattenConcat(a, init);
      assert (a + b)[..|a + b| - 1] == a + init && (a + b)[|a + b| - 1] == last;
      assert Flatten(a) + Flatten(init) + last == Flatten(a) + (Flatten(init) + last);
    }
  }

  function ContainerStepLists<D, S, I, W>(cs: seq<Container<D, S, I, W>>, sep: string, dec: Decoders<D, S, I, W>): (xss: seq<seq<Step<S, I, W>>>)
    ensures |xss| == |cs|
  {
    seq(|cs|, i requires 0 <= i < |cs| => ContainerSteps(cs[i], sep, dec))
  }

  function AllSteps<D, S, I, W>(cs: seq<Container<D, S, I, W>>, sep: string, dec: Decoders<D, S, I, W>): seq<Step<S, I, W>>
  {
    Flatten(ContainerStepLists(cs, sep, dec))
  }

  /** Loading every container, in argument order. */
  function LoadAll<D, S, I, W>(cs: seq<Container<D, S, I, W>>, sep: string, dec: Decoders<D, S, I, W>): Load<S, I, W>
  {
    Run(Load([], None), AllSteps(cs, sep, dec))
  }

  lemma AllStepsConcat<D, S, I, W>(a: seq<Container<D, S, I, W>>, b: seq<Container<D, S, I, W>>, sep: string, dec: Decoders<D, S, I, W>)
    ensures AllSteps(a + b, sep, dec) == AllSteps(a, sep, dec) + AllSteps(b, sep, dec)
  {
    assert ContainerStepLists(a + b, sep, dec) == ContainerStepLists(a, sep, dec) + ContainerStepLists(b, sep, dec);
    FlattenConcat(ContainerStepLists(a, sep, dec), ContainerStepLists(b, sep, dec));
  }

  lemma AllStepsSnoc<D, S, I, W>(cs: seq<Container<D, S, I, W>>, c: Container<D, S, I, W>, sep: string, dec: Decoders<D, S, I, W>)
    ensures AllSteps(cs + [c], sep, dec) == AllSteps(cs, sep, dec) + ContainerSteps(c, sep, dec)
  {
    AllStepsConcat(cs, [c], sep, dec);
    var x := ContainerSteps(c, sep, dec);
    assert ContainerStepLists([c], sep, dec) == [x];
    assert [x][..0] == [];
    assert Flatten([x]) == [] + x == x;
  }

  /** A container that is neither TXP2 nor IFS changes nothing. */
  lemma UnknownContainerSkipped<D, S, I, W>(cs: seq<Container<D, S, I, W>>, c: Container<D, S, I, W>, sep: string, dec: Decoders<D, S, I, W>)
    requires c.asTxp2.None? && c.asIfs.None?
    ensures LoadAll(cs + [c], sep, dec) == LoadAll(cs, sep, dec)
  {
    AllStepsSnoc(cs, c, sep, dec);
    assert AllSteps(cs, sep, dec) + [] == AllSteps(cs, sep, dec);
  }

  /** A container that parses as TXP2 is loaded as TXP2, even if it would also parse as
      IFS. */
  lemma Txp2First<D, S, I, W>(c: Container<D, S, I, W>, sep: string, dec: Decoders<D, S, I, W>)
    requires c.asTxp2.Some?
    ensures LoadAll([c], sep, dec) == Txp2Load(c.asTxp2.value)
  {
    AllStepsSnoc([], c, sep, dec);
    assert [] + [c] == [c];
    assert AllSteps([], sep, dec) == [];
    assert [] + Txp2Steps(c.asTxp2.value) == Txp2Steps(c.asTxp2.value);
  }

  /** A name registered by a later container replaces what earlier containers
      registered under it. */
  lemma LaterContainerWins<D, S, I, W>(libs: Libraries<S, I, W>, cs: seq<Container<D, S, I, W>>, c: Container<D, S, I, W>,
                                       sep: string, dec: Decoders<D, S, I, W>, kind: Kind, name: string)
    requires LoadAll(cs, sep, dec).error.None?
    requires LastRegistered(Run(Load([], None), ContainerSteps(c, sep, dec)).events, kind, name).Some?
    ensures ApplyAll(libs, LoadAll(cs + [c], sep, dec).events).Get(kind, name) ==
      LastRegistered(Run(Load([], None), ContainerSteps(c, sep, dec)).events, kind, name)
  {
    var earlier, later := LoadAll(cs, sep, dec), Run(Load([], None), ContainerSteps(c, sep, dec));
    AllStepsSnoc(cs, c, sep, dec);
    RunPhases(AllSteps(cs, sep, dec), ContainerSteps(c, sep, dec));
    assert LoadAll(cs + [c], sep, dec).events == earlier.events + later.events;
    LastWriteWins(libs, earlier.events + later.events, kind, name);
    LaterBatchWins(earlier.events, later.events, kind, name);
  }

  lemma SliceSplit<T>(s: seq<T>, i: nat)
    requires i < |s|
    ensures s[..i + 1] == s[..i] + [s[i]] && s == s[..i + 1] + s[i + 1..]
  {
  }

  /** Loads every container into the renderer, in order, stopping at the first error. */
  method LoadContainers<D, S, I, W>(r: Renderer<S, I, W>, cs: seq<Container<D, S, I, W>>, sep: string, dec: Decoders<D, S, I, W>)
    returns (error: Option<LoadError>)
    modifies r
    ensures r.State() == ApplyAll(old(r.State()), LoadAll(cs, sep, dec).events)
    ensures error == LoadAll(cs, sep, dec).error
  {
    ghost var libs := r.State();
    for i := 0 to |cs|
      invariant r.State() == ApplyAll(libs, LoadAll(cs[..i], sep, dec).events)
      invariant LoadAll(cs[..i], sep, dec).error.None?
    {
      ghost var before := LoadAll(cs[..i], sep, dec);
      ghost var steps := ContainerSteps(cs[i], sep, dec);
      SliceSplit(cs, i);
      AllStepsSnoc(cs[..i], cs[i], sep, dec);
      RunPhases(AllSteps(cs[..i], sep, dec), steps);
      ghost var here := Run(Load([], None), steps);
      var c := cs[i];
      if c.asTxp2.Some? {
        error := LoadTxp2(r, c.asTxp2.value);
        ApplyAllConcat(libs, before.events, here.events);
        if error.Some? {
          AllStepsConcat(cs[..i + 1], cs[i + 1..], sep, dec);
          RunPhases(AllSteps(cs[..i + 1], sep, dec), AllSteps(cs[i + 1..], sep, dec));
          return;
        }
      } else if c.asIfs.Some? {
        LoadIfs(r, c.asIfs.value, sep, dec);
        IfsNeverFails(c.asIfs.value, sep, dec);
        ApplyAllConcat(libs, before.events, here.events);
      } else {
        assert before.events + here.events == before.events;
      }
    }
    assert cs[..|cs|] == cs;
    error := None;
  }

  // ---------------------------------------------------------------------------
  // Error messages

  /** The message for a missing texture as the source writes it: the literal lacks the
      `f` prefix, so the braces are printed and the name is not. */
  function NotFoundMessageAsWritten(texturename: string): string
  {
    "Could not find texture {texturename} to split!"
  }

  /** As written, every missing texture gets the same message. */
  lemma NotFoundMessageLosesName(a: string, b: string)
    ensures NotFoundMessageAsWritten(a) == NotFoundMessageAsWritten(b)
  {
  }

  function NotFoundMessage(texturename: string): string
  {
    "Could not find texture " + texturename + " to split!"
  }

  /** The corrected message names the texture: different textures give different
      messages, and the name can be read back out of it. */
  lemma {:induction false} NotFoundMessageNamesTexture(a: string, b: string)
    ensures NotFoundMessage(a)[23..|NotFoundMessage(a)| - 10] == a
    ensures NotFoundMessage(a) == NotFoundMessage(b) ==> a == b
  {
    var m := NotFoundMessage(a);
    assert m[23..|m| - 10] == a;
    if m == NotFoundMessage(b) {
      var n := NotFoundMessage(b);
      assert n[23..|n| - 10] == b;
    }
  }

  /** The text of the exception that stops loading, as the program raises it. A failed
      index into a Python list raises `IndexError` with the interpreter's own message.
      A missing texture gets the literal of line 636, which does not depend on the
      name; a region past the table has its index written out after the prefix. */
  function Message(e: LoadError): (m: string)
    ensures e.TextureNotFound? ==> m == NotFoundMessageAsWritten("")
    ensures e.OutOfBoundsRegion? ==>
      |m| > 21 && m[..21] == "Out of bounds region " && Decimal.ParseInt(m[21..]) == Some(e.index)
    ensures (e.ShapeIndex? || e.TextureIndex? || e.SwfIndex?) ==> m == "list index out of range"
  {
    match e
    case OutOfBoundsRegion(i) =>
      Decimal.ParseIntToString(i);
      var m := "Out of bounds region " + Decimal.IntToString(i);
      assert m[21..] == Decimal.IntToString(i);
      m
    case TextureNotFound(name) => NotFoundMessageAsWritten(name)
    case _ => "list index out of range"
  }
}
