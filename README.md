# afputils core, modelled in Dafny

This project models the core of `bemani/utils/afputils.py`, the command-line front end
for AFP/SWF animation containers, in four parts:

- **The bytecode flattener** (`write_bytecode`, module `Flattener`). It makes one
  depth-first, pre-order walk over a SWF. The walk collects one decompiled text block
  per bytecode blob, and merges every frame-label table it meets (the root's and every
  nested sprite's) into one insertion-ordered global table. If that table is not empty,
  a `FRAME_LUT` declaration is put in front of the blocks, and the blocks are joined with
  blank lines. The class `BytecodeWriter` holds the mutable `buff`/`lut` state of the
  nested helpers. Its methods are proved against pure functions of the clip. The main
  theorem is that the walk's label table equals one flat `dict.update` with the labels
  in pre-order. A second theorem is that the blocks are the decompiled blobs, one each,
  in pre-order.
- **Container loading** (module `Normalise`). Each container is read as a TXP2 file
  (shapes, cropped textures, SWFs) or else as an IFS archive (`geo/`, `tex/*.png`, and
  `afp/` with a matching `afp/bsi/`), and is skipped otherwise. The loading is specified
  as a list of steps folded left to right. The fold stops at the first exception, and
  the registrations made before it stay. The methods on the `Renderer` class perform
  these steps, and their contracts tie the new libraries to the specification. The
  proved properties include:
  - last-write-wins for every name;
  - a texture's sheet is the first texture with the region's texture name;
  - crop corners are halved with floor division;
  - the exact conditions under which a TXP2 load raises.
- **Render parameters** (module `RenderParams`). The output format comes from the file
  extension. Three other parameters are parsed: the background colour (RGB or RGBA,
  0..255), the depth filter, and the forced aspect ratio. A stretch reaches the forced
  ratio, and the view matrix maps the natural size onto the requested one.
- **Export naming** (module `Export`). Zero frames is an error. GIF and WEBP get one
  animated file. PNG gets `name-<index><ext>` per frame, with the index zero-padded to
  `int(log10(frames)) + 1` digits.

`Strings` and `Decimal` hold the Python built-ins these parts rely on:
- `str.split`, `str.lower`, `str.strip`, slices;
- `str(n)`, `f"{i:0W}"`, `int()` and `int(math.log10(n))`.

`Outcomes` holds `Option` and `Result`.

Three facts about the code that the model keeps:
- a region's texture is found by name through the texture map, as the first texture of
  that name, not by indexing the texture list;
- an IFS texture must end in `.png`, and the name drops that extension;
- an exception keeps the registrations already made in the same container.

## Model

| member | source | states |
|---|---|---|
| Strings.Split | bemani/utils/afputils.py:719 | `split` yields at least one part and no part contains the separator |
| Strings.JoinSplit | bemani/utils/afputils.py:719 | joining the parts of a split with the separator gives the original text back |
| Strings.SplitJoin | bemani/utils/afputils.py:719 | splitting parts joined by a separator that none of them contains gives the same parts back |
| Strings.SplitCount | bemani/utils/afputils.py:719-721 | a split has exactly one more part than the text has separators |
| Strings.Lower | bemani/utils/afputils.py:708-713 | `lower()` leaves no upper-case ASCII letter and changes nothing else |
| Strings.LowerIdempotent | bemani/utils/afputils.py:708-713 | lower-casing twice is lower-casing once |
| Strings.DropFront | bemani/utils/afputils.py:671 | `fname[k:]` has length `len - k` and holds the characters after position `k` |
| Strings.DropBack | bemani/utils/afputils.py:799 | `output[:-4]` has length `len - 4` (empty if shorter) and is a prefix of the output |
| Strings.TakeBack | bemani/utils/afputils.py:800 | `output[-4:]` is the last four characters (all of them if shorter) |
| Strings.DropBackTakeBack | bemani/utils/afputils.py:799-800 | `output[:-4] + output[-4:] == output` |
| Strings.Strip | bemani/utils/afputils.py:725 | `strip()` leaves no whitespace at either end and keeps text that has none there |
| Strings.StripTrims | bemani/utils/afputils.py:725 | `strip()` returns a slice of the text with only whitespace outside it |
| Decimal.Log10Floor | bemani/utils/afputils.py:805 | `int(log10(n))` is the `k` with `10^k <= n < 10^(k+1)` |
| Decimal.Digits | bemani/utils/afputils.py:808 | `str(n)` is all digits, with no leading zero |
| Decimal.ValueOfDigits | bemani/utils/afputils.py:808 | the digits of `n` read back as `n` |
| Decimal.DigitCount | bemani/utils/afputils.py:805 | `n` has `int(log10(n)) + 1` decimal digits |
| Decimal.DigitsMonotone | bemani/utils/afputils.py:803-808 | no frame index has more digits than the frame count |
| Decimal.ZeroPad | bemani/utils/afputils.py:808 | `f"{i:0W}"` is all digits, at least `W` long, and never truncated |
| Decimal.ValueOfZeroPad | bemani/utils/afputils.py:808 | a zero-padded index reads back as the index |
| Decimal.IntToString | bemani/utils/afputils.py:626 | `str(i)` starts with a minus sign exactly when `i` is negative |
| Decimal.ParseIntToString | bemani/utils/afputils.py:725 | `int(str(i)) == i` for every integer |
| Decimal.Value | bemani/utils/afputils.py:725 | definition: the number a digit string denotes; ValueOfDigits and ValueOfZeroPad state that it reads `str(n)` and `f"{i:0W}"` back |
| Decimal.ParseInt | bemani/utils/afputils.py:725 | definition of `int()` on ASCII text (surrounding space, a sign, digits with single underscores); ParseIntToString states `int(str(i)) == i` |
| Flattener.Keys | bemani/utils/afputils.py:23 | definition: a label table's names, in insertion order; MergeKeepsPositions and GlobalLabel state what the order means |
| Flattener.Lookup | bemani/utils/afputils.py:23 | a name has a frame exactly when it is a key of the table |
| Flattener.Put | bemani/utils/afputils.py:40-44 | dict assignment: an existing key keeps its position and takes the new frame; a new key is appended |
| Flattener.PutLookup | bemani/utils/afputils.py:40-44 | after assigning a name, it maps to the new frame and every other name is unchanged |
| Flattener.PutDistinct | bemani/utils/afputils.py:23 | assignment keeps the keys distinct |
| Flattener.Merge | bemani/utils/afputils.py:40-44 | definition of `lut.update(labels)` as one assignment per label, in order; MergeLookup, MergeKeepsPositions and MergeAppend state its meaning |
| Flattener.MergeLookup | bemani/utils/afputils.py:40-44 | after `lut.update(labels)`, a name maps to its last frame in `labels`, or else to its old frame |
| Flattener.MergeKeepsPositions | bemani/utils/afputils.py:40-44 | `update` keeps the order of existing keys and keeps keys distinct |
| Flattener.MergeAppend | bemani/utils/afputils.py:40-46 | two successive updates equal one update with the concatenated labels |
| Flattener.MergeSingle | bemani/utils/afputils.py:40-44 | updating with one label is one assignment; into an empty table, or a table holding only that name, it gives that one label |
| Flattener.MergeIntoEmpty | bemani/utils/afputils.py:44 | updating an empty table with distinct labels gives those labels |
| Flattener.BlobBlocks | bemani/utils/afputils.py:36-38 | one block per trigger, its decompilation, in order |
| Flattener.BlobBlocksConcat | bemani/utils/afputils.py:36-38 | decompiling a concatenation concatenates the blocks |
| Flattener.ClipBlocks | bemani/utils/afputils.py:25-46 | definition of the blocks of the pre-order walk; ClipDecompiled and TagsBlocksInPlace state their order |
| Flattener.ClipLabels | bemani/utils/afputils.py:39-46 | definition of the label table after the walk; ClipLabelsFlat and GlobalLabel state its meaning |
| Flattener.ImportedDecompiled | bemani/utils/afputils.py:27-29 | the imported tags' blocks are exactly their init bytecodes decompiled, in order |
| Flattener.FramesDecompiled | bemani/utils/afputils.py:25-29 | `bytecode_from_frames` decompiles each frame's init bytecodes once, in order |
| Flattener.TriggersDecompiled | bemani/utils/afputils.py:35-38 | a PlaceObject's blocks are its triggers decompiled, events in insertion order |
| Flattener.TagDecompiled | bemani/utils/afputils.py:33-42 | a tag's blocks are its blobs decompiled, a sprite's in pre-order |
| Flattener.TagsDecompiled | bemani/utils/afputils.py:31-42 | `bytecode_from_tags` decompiles every blob under the tags once, in pre-order |
| Flattener.ClipDecompiled | bemani/utils/afputils.py:44-46 | the flattened blocks are the clip's blobs in pre-order, decompiled, one block per blob |
| Flattener.TagsBlocksInPlace | bemani/utils/afputils.py:31-42 | a tag's blocks (a sprite's whole walk) sit after earlier siblings' blocks and before later ones |
| Flattener.ClipLabelsFlat | bemani/utils/afputils.py:39-46 | the walk's label table is one `update` with all labels in pre-order |
| Flattener.TagsLabelsFlat | bemani/utils/afputils.py:31-42 | the same for a tag list |
| Flattener.TagLabelsFlat | bemani/utils/afputils.py:39-42 | the same for one tag |
| Flattener.NoSpriteNoLabels | bemani/utils/afputils.py:31-42 | tags without a sprite contribute no labels |
| Flattener.NoSpritesKeepsLabels | bemani/utils/afputils.py:44 | with no nested sprite, the table is the root's labels in their order |
| Flattener.GlobalLabel | bemani/utils/afputils.py:40-44 | a name maps to its last frame in pre-order; root keys keep their positions; keys are distinct |
| Flattener.LutLines | bemani/utils/afputils.py:54 | definition: one `    'name': frame,` line per table entry, in table order; HeaderIffLabels and ProgramShape state its place in the output |
| Flattener.Header | bemani/utils/afputils.py:51-56 | definition of the `FRAME_LUT` block: comment, opening line, one line per entry, closing line, joined by the line separator |
| Flattener.Document | bemani/utils/afputils.py:48-58 | definition of the blocks written, with the header first when the table is not empty; HeaderIffLabels states when |
| Flattener.Program | bemani/utils/afputils.py:64 | definition of the text written, the blocks joined by two line separators; ProgramShape and NoLabelsNoHeader state its shape |
| Flattener.HeaderIffLabels | bemani/utils/afputils.py:48-58 | the `FRAME_LUT` header is put in front exactly when some label exists |
| Flattener.NoLabelsNoHeader | bemani/utils/afputils.py:48-64 | with no label anywhere in the clip tree, the text is the blocks joined by blank lines, with no header; with no blocks either, the file is empty |
| Flattener.ProgramShape | bemani/utils/afputils.py:48-64 | the program is the header, a blank line, then the blocks joined by blank lines |
| Flattener.SpriteShadowsParentExample | bemani/utils/afputils.py:40-44 | a nested sprite's label overrides its parent's label of the same name |
| Flattener.SingleSpriteLabels | bemani/utils/afputils.py:39-46 | a clip whose only tag is a sprite merges its own labels, then walks the sprite |
| Flattener.NoTagsLabels | bemani/utils/afputils.py:40-44 | a clip without tags only merges its own labels |
| Flattener.BytecodeWriter.constructor | bemani/utils/afputils.py:21-23 | empty buffer and empty table |
| Flattener.BytecodeWriter.UpdateLabels | bemani/utils/afputils.py:40 | the table becomes the update of the old one; the buffer is untouched |
| Flattener.BytecodeWriter.FromFrames | bemani/utils/afputils.py:25-29 | appends the frames' blocks to the buffer; the table is untouched |
| Flattener.BytecodeWriter.FromTriggers | bemani/utils/afputils.py:35-38 | appends the triggers' blocks; the table is untouched |
| Flattener.BytecodeWriter.FromBlobs | bemani/utils/afputils.py:37-38 | appends one trigger's blobs, decompiled, in order; the table is untouched |
| Flattener.BytecodeWriter.FromTags | bemani/utils/afputils.py:31-42 | appends the tags' blocks and applies their labels |
| Flattener.BytecodeWriter.FromTag | bemani/utils/afputils.py:33-42 | appends one tag's blocks and applies its labels |
| Flattener.WriteBytecode | bemani/utils/afputils.py:17-64 | the text written is the program of the clip |
| Flattener.WalkIsClip | bemani/utils/afputils.py:44-58 | the table and buffer the walk leaves are the clip's label table and blocks, and putting the header in front gives the document |
| RenderParams.SelectFormatByExtension | bemani/utils/afputils.py:706-715 | the format is chosen exactly when the lower-cased name ends with its extension; it is an error exactly when no extension matches |
| RenderParams.SelectFormatIgnoresCase | bemani/utils/afputils.py:708-713 | the choice depends only on the lower-cased name |
| RenderParams.SelectFormat | bemani/utils/afputils.py:708-715 | definition of the format choice; SelectFormatByExtension and SelectFormatIgnoresCase state its meaning |
| RenderParams.ExtensionsExclusive | bemani/utils/afputils.py:708-713 | no name ends in two of `.gif`, `.webp` and `.png`, so the order of the tests does not matter |
| RenderParams.ParseInts | bemani/utils/afputils.py:725 | each stripped part is read as an integer, in order; it fails exactly when some part is not an integer |
| RenderParams.ColorFromParts | bemani/utils/afputils.py:723-730 | a colour is refused only when a part is not a number or is out of range |
| RenderParams.ColorOfInts | bemani/utils/afputils.py:726-730 | definition: the range check of the four values, then each divided by 255; its meaning is stated by ColorAcceptedIff, ColorRead and ColorRangeChecked |
| RenderParams.ColorAcceptedIff | bemani/utils/afputils.py:723-730 | three or four parts are accepted exactly when every stripped part reads as an integer in 0..255 |
| RenderParams.ColorRead | bemani/utils/afputils.py:725-730 | four parts that read as bytes `r`, `g`, `b`, `a` are accepted as `Color(r/255, g/255, b/255, a/255)` |
| RenderParams.ReadAll | bemani/utils/afputils.py:725 | parts that each read as the matching value are read as exactly those values |
| RenderParams.ColorArity | bemani/utils/afputils.py:718-721 | a non-empty colour is refused as invalid exactly when it has neither 2 nor 3 commas |
| RenderParams.ParseColor | bemani/utils/afputils.py:718-732 | definition of the colour check; ColorArity, ColorAcceptedIff and ColorRoundTrip state its meaning |
| RenderParams.ColorAccepted | bemani/utils/afputils.py:723-730 | an accepted colour has every channel in 0..1, each part divided by 255, and alpha 1 for RGB |
| RenderParams.ColorParsed | bemani/utils/afputils.py:725-730 | an accepted RGBA colour comes from four bytes |
| RenderParams.OpaqueColorParsed | bemani/utils/afputils.py:723-730 | an accepted RGB colour comes from three bytes and alpha 255 |
| RenderParams.OpaqueColorRead | bemani/utils/afputils.py:723-730 | three parts that read as bytes are accepted as that opaque colour |
| RenderParams.ColorRangeChecked | bemani/utils/afputils.py:723-728 | for RGB (with `"255"` appended) or RGBA parts that all read as integers, one value outside 0..255 makes the colour refused as out of range |
| RenderParams.ParseAlpha | bemani/utils/afputils.py:724-725 | `int("255") == 255` |
| RenderParams.ByteText | bemani/utils/afputils.py:719-725 | a byte's decimal text is not empty and has no surrounding space and no comma |
| RenderParams.ByteTextsSplit | bemani/utils/afputils.py:719 | three byte texts joined by commas split back into those three |
| RenderParams.OpaqueColorText | bemani/utils/afputils.py:717-730 | a colour argument that splits into three parts reading as bytes gives that opaque colour |
| RenderParams.ColorTextRead | bemani/utils/afputils.py:717-730 | for any integer reader that reads decimal text back, `"r,g,b"` gives `Color(r/255, g/255, b/255, 1)` |
| RenderParams.ColorRoundTrip | bemani/utils/afputils.py:717-730 | `"r,g,b"` for bytes `r`, `g` and `b` gives back `Color(r/255, g/255, b/255, 1)` |
| RenderParams.ParseDepths | bemani/utils/afputils.py:782-785 | no argument means no filter; a given filter (even empty) has one value per comma-separated part, each the `int()` of its stripped part; it fails exactly when some stripped part is not an integer |
| RenderParams.RatioFromParts | bemani/utils/afputils.py:745-747 | a ratio is accepted exactly when both stripped sides are numbers above zero, and it is those numbers |
| RenderParams.ParseAspect | bemani/utils/afputils.py:740-747 | definition of the ratio check; AspectAccepted states its meaning |
| RenderParams.AspectAccepted | bemani/utils/afputils.py:740-747 | the ratio is invalid exactly when the text has no colon or more than one; an accepted ratio is positive |
| RenderParams.CandidateArea | bemani/utils/afputils.py:753-754 | the candidate width `r * h` times the candidate height `w / r` equals the natural area `w * h`, so the two cannot both grow or both shrink |
| RenderParams.CandidateComparisons | bemani/utils/afputils.py:752-766 | each candidate grows exactly when the natural ratio is on the matching side of the target |
| RenderParams.Stretch | bemani/utils/afputils.py:749-766 | definition of the stretched size; ImpossibleBranchesUnreachable, StretchOneAxis and StretchUnchanged state its meaning |
| RenderParams.ImpossibleBranchesUnreachable | bemani/utils/afputils.py:749-759 | "Impossible aspect ratio" is never raised; the stretch fails exactly on a zero height |
| RenderParams.StretchOneAxis | bemani/utils/afputils.py:752-766 | exactly one axis grows, none shrinks, and the result has the target ratio |
| RenderParams.StretchUnchanged | bemani/utils/afputils.py:749-752 | within the tolerance, or with no ratio, the size is unchanged |
| RenderParams.ViewMatrix | bemani/utils/afputils.py:768-779 | the matrix exists exactly for a non-zero natural size, has no shear or translation, and maps the natural size onto the scaled one |
| RenderParams.StretchTransform | bemani/utils/afputils.py:749-779 | with unit scales the matrix only stretches: both diagonal entries are at least 1, and one of them is 1 |
| RenderParams.RatioAtLeastOne | bemani/utils/afputils.py:772-779 | a stretched axis divided by its natural size is at least 1 |
| RenderParams.PlanRender | bemani/utils/afputils.py:706-785 | definition of the checks of a render in the source's order; PlanRenderStretches states what an accepted plan holds |
| RenderParams.PlanRenderStretches | bemani/utils/afputils.py:706-785 | for any colour, ratio and depth arguments, an accepted render of a positive natural size at unit scale has the format of the extension, the parsed colour and depth filter, and a transform that only stretches (the unit scale is needed: other scale factors can shrink) |
| RenderParams.WidescreenToFourThree | bemani/utils/afputils.py:740-779 | 800x450 forced to 4:3 becomes 800x600, with `a = 1` and `d = 4/3` |
| Export.PadWidth | bemani/utils/afputils.py:803-805 | the pad width is the digit count of the frame count |
| Export.IndexWidth | bemani/utils/afputils.py:805-808 | every frame index is padded to exactly the pad width |
| Export.IndexInName | bemani/utils/afputils.py:807-808 | the index can be read back from its place in the file name |
| Export.FrameNamesDistinct | bemani/utils/afputils.py:807-808 | two frames never share a file name |
| Export.FrameFileName | bemani/utils/afputils.py:799-808 | definition of `f"{filename}-{i:{digits}}{ext}"`; IndexWidth, IndexInName and FrameNamesDistinct state its meaning |
| Export.Stills | bemani/utils/afputils.py:805-808 | definition of the per-frame files in frame order |
| Export.PlanExport | bemani/utils/afputils.py:788-813 | definition of what the export writes; PlanExportShape states its meaning |
| Export.PlanExportShape | bemani/utils/afputils.py:788-813 | export fails exactly for zero frames; GIF/WEBP give one animation of all frames; PNG gives one file per frame, in order, with distinct names |
| Export.ExportFrames | bemani/utils/afputils.py:788-813 | the export loop writes exactly the planned files |
| Export.SplitOutputName | bemani/utils/afputils.py:799-800 | `out.png` splits into `out` and `.png` |
| Export.TwelveFrameNames | bemani/utils/afputils.py:799-808 | twelve frames are named `out-00.png` to `out-11.png` |
| Export.FiveFrameNames | bemani/utils/afputils.py:799-808 | five frames are named `out-0.png` to `out-4.png` |
| Normalise.Apply | bemani/utils/afputils.py:614-652 | a registration sets its own kind and name and leaves every other entry alone |
| Normalise.LastRegistered | bemani/utils/afputils.py:599-704 | the last registration of a kind and name, if there is one |
| Normalise.LastWriteWins | bemani/utils/afputils.py:599-704 | after all registrations, each name holds its last registration, or else its earlier value |
| Normalise.ApplyAllSnoc | bemani/utils/afputils.py:599-704 | registering one more applies it on top |
| Normalise.ApplyAll | bemani/utils/afputils.py:599-704 | definition of applying registrations in order; LastWriteWins states its meaning |
| Normalise.ApplyAllConcat | bemani/utils/afputils.py:599-704 | two batches applied in turn equal the concatenation |
| Normalise.LaterBatchWins | bemani/utils/afputils.py:599-704 | a later batch's registration of a name beats an earlier one |
| Normalise.Renderer.constructor | bemani/utils/afputils.py:593-596 | a new renderer has empty libraries |
| Normalise.Renderer.AddShape | bemani/utils/afputils.py:616 | the shape library maps the name to the shape; the other libraries are untouched |
| Normalise.Renderer.AddTexture | bemani/utils/afputils.py:642 | the texture library maps the name to the texture; the other libraries are untouched |
| Normalise.Renderer.AddSwf | bemani/utils/afputils.py:652 | the SWF library maps the name to the SWF; the other libraries are untouched |
| Normalise.RunStep | bemani/utils/afputils.py:609-657 | running one more step applies it to the state so far |
| Normalise.Run | bemani/utils/afputils.py:609-657 | definition of the left fold of steps that stops at the first exception; RunClean and RunFirstError state its meaning |
| Normalise.RunStopped | bemani/utils/afputils.py:609-657 | after an exception no later step has an effect |
| Normalise.RunConcat | bemani/utils/afputils.py:609-657 | running two step lists in turn equals running their concatenation |
| Normalise.RunStoppedAt | bemani/utils/afputils.py:609-657 | once a prefix has raised, the rest changes nothing |
| Normalise.RunShift | bemani/utils/afputils.py:609-657 | earlier registrations are kept in front of what a run adds |
| Normalise.RunClean | bemani/utils/afputils.py:609-657 | a run raises exactly when some step raises; without a raise it registers every emitted entry in order |
| Normalise.RunFirstError | bemani/utils/afputils.py:609-657 | the first raising step ends the run with the registrations before it |
| Normalise.EmittedMembers | bemani/utils/afputils.py:609-657 | an entry is registered exactly when some step emits it |
| Normalise.PyIndex | bemani/utils/afputils.py:628 | Python indexing succeeds exactly for `-len <= k < len` |
| Normalise.FirstNamed | bemani/utils/afputils.py:630-636 | the search finds a texture of that name exactly when one exists |
| Normalise.FirstNamedAt | bemani/utils/afputils.py:630-636 | the search finds the first texture of that name |
| Normalise.Half | bemani/utils/afputils.py:640 | `x // 2` is the floor of half of `x` |
| Normalise.HalfBox | bemani/utils/afputils.py:639-641 | definition: the region's corners each halved; Half states the floor division and CropBoxExample the odd and negative corners |
| Normalise.ShapeSteps | bemani/utils/afputils.py:614-616 | definition: one step per shape-map entry, in order; PhasesClean and Txp2Succeeds state when the phase raises |
| Normalise.ShapeStep | bemani/utils/afputils.py:614-616 | definition: the shape at index `i` registered under the map's name, or `IndexError` |
| Normalise.RegionSteps | bemani/utils/afputils.py:624-647 | definition: one step per region-map entry, in order; PhasesClean, OutOfBoundsRegionRaises and Txp2Textures state what the phase raises and registers |
| Normalise.RegionSheet | bemani/utils/afputils.py:625-636 | definition of the sheet a region resolves to, or the exception that stops it; RegionSheetIsFirstNamed and RegionBounds state its meaning |
| Normalise.RegionStep | bemani/utils/afputils.py:624-647 | definition of one region's step; RegionStepEmits states what it registers |
| Normalise.SwfSteps | bemani/utils/afputils.py:650-652 | definition: one step per SWF-map entry, in order; PhasesClean and Txp2Succeeds state when the phase raises |
| Normalise.SwfStep | bemani/utils/afputils.py:650-652 | definition: the SWF at index `i` registered under the map's name, or `IndexError` |
| Normalise.Txp2Steps | bemani/utils/afputils.py:613-652 | definition: shape steps, then region steps, then SWF steps; RunPhases and Txp2Succeeds state their run |
| Normalise.RunPhases | bemani/utils/afputils.py:613-652 | the three phases run in turn, and a raise in one stops the rest |
| Normalise.RegionBounds | bemani/utils/afputils.py:625-626 | a region entry raises "Out of bounds region" exactly when its index is past the region table |
| Normalise.RegionSkipped | bemani/utils/afputils.py:638-647 | a region is skipped exactly when its sheet has no image |
| Normalise.RegionSheetIsFirstNamed | bemani/utils/afputils.py:627-636 | a resolved sheet is the first texture with the name the texture map gives the region |
| Normalise.Txp2Succeeds | bemani/utils/afputils.py:613-652 | with the parsers and `crop` taken as total, a TXP2 load finishes exactly when every shape and SWF index is in range and every region's sheet resolves |
| Normalise.PhasesClean | bemani/utils/afputils.py:614-652 | the shape phase raises nothing exactly when no shape name lacks a shape, the SWF phase likewise, and the region phase exactly when every region's sheet resolves |
| Normalise.OutOfBoundsRegionRaises | bemani/utils/afputils.py:624-626 | the first region past the table raises with its index |
| Normalise.RegionStepEmits | bemani/utils/afputils.py:624-642 | a region step registers a texture exactly as the crop of its resolved sheet |
| Normalise.Txp2Textures | bemani/utils/afputils.py:621-647 | a finished load registers a texture exactly when some region crops it out of its sheet |
| Normalise.TexturesFromRegions | bemani/utils/afputils.py:614-652 | the shape and SWF phases emit no texture; the region phase emits a texture exactly when some region crops it from its sheet |
| Normalise.LoadShapes | bemani/utils/afputils.py:614-616 | the renderer gets the shape phase's registrations; the result is its exception |
| Normalise.ResolveSheet | bemani/utils/afputils.py:622-636 | the cached lookup gives the region's sheet and keeps the cache equal to the first-named texture |
| Normalise.LoadTextures | bemani/utils/afputils.py:621-647 | the renderer gets the texture phase's registrations; the result is its exception |
| Normalise.LoadSwfs | bemani/utils/afputils.py:650-652 | the renderer gets the SWF phase's registrations; the result is its exception |
| Normalise.LoadTxp2 | bemani/utils/afputils.py:609-657 | the renderer gets the TXP2 container's registrations; the result is its exception |
| Normalise.CropBoxExample | bemani/utils/afputils.py:638-641 | region (100,100,300,300) crops (50,50,150,150); odd and negative corners round down |
| Normalise.IfsSteps | bemani/utils/afputils.py:668-700 | definition: one step per IFS file name, in listing order; IfsNeverFails, IfsShapePath, IfsTexturePath and IfsSwfNeedsBsi state what the branch registers and that it raises nothing of its own (the decoders are total) |
| Normalise.IfsNeverFails | bemani/utils/afputils.py:665-704 | with the decoders taken as total, an IFS load raises nothing of its own and registers exactly the recognised files |
| Normalise.IfsShapePath | bemani/utils/afputils.py:669-676 | `geo/<name>` registers the shape parsed under `<name>` |
| Normalise.IfsTexturePath | bemani/utils/afputils.py:680-687 | `tex/<name>.png` registers the whole decoded image under `<name>` |
| Normalise.IfsTextureEntry | bemani/utils/afputils.py:680-687 | a path in the texture branch registers its decoded image under the name with the directory and `.png` removed |
| Normalise.IfsSwfPath | bemani/utils/afputils.py:691-700 | `afp/<name>` registers a SWF exactly when `afp/bsi/<name>` is listed |
| Normalise.IfsSwfNeedsBsi | bemani/utils/afputils.py:691-700 | a file becomes a SWF exactly when it is under `afp/` and its `bsi` partner exists |
| Normalise.IfsSwfEntry | bemani/utils/afputils.py:691-700 | a path in the SWF branch registers the SWF named after it, built from it and its `bsi` partner, exactly when the partner is listed |
| Normalise.IfsEntry | bemani/utils/afputils.py:668-700 | definition of what one listed path registers; IfsShapePath, IfsTexturePath, IfsSwfPath and IfsSwfNeedsBsi state its meaning |
| Normalise.LoadIfs | bemani/utils/afputils.py:665-704 | the renderer gets the IFS archive's registrations |
| Normalise.AllStepsConcat | bemani/utils/afputils.py:599-704 | the steps of two container lists are the concatenation of each list's steps |
| Normalise.AllStepsSnoc | bemani/utils/afputils.py:599-704 | one more container adds its steps at the end |
| Normalise.ContainerSteps | bemani/utils/afputils.py:603-665 | definition: TXP2 steps if the container parses as TXP2, else IFS steps if it parses as IFS, else none; Txp2First and UnknownContainerSkipped state its meaning |
| Normalise.LoadAll | bemani/utils/afputils.py:599-704 | definition of loading every container in argument order; LaterContainerWins and LoadContainers state its meaning |
| Normalise.UnknownContainerSkipped | bemani/utils/afputils.py:603-665 | a container that is neither TXP2 nor IFS changes nothing |
| Normalise.Txp2First | bemani/utils/afputils.py:603-657 | a container that parses as TXP2 is loaded as TXP2 only |
| Normalise.LaterContainerWins | bemani/utils/afputils.py:599-704 | a name registered by a later container holds that container's last registration |
| Normalise.LoadContainers | bemani/utils/afputils.py:599-704 | the renderer gets every container's registrations in order; the result is the first exception |
| Normalise.NotFoundMessageLosesName | bemani/utils/afputils.py:636 | as written, any two texture names give the same message |
| Normalise.NotFoundMessageNamesTexture | bemani/utils/afputils.py:636 | the corrected message names the texture, which can be read back from it |
| Normalise.Message | bemani/utils/afputils.py:615-651 | the text the program raises: for a missing texture, line 636's literal, the same for every name; for a region past the table, the prefix `Out of bounds region ` followed by text that `int()` reads back as the index; `list index out of range` for a failed list index |

## Left out

- Files and output: reading containers, creating directories, writing files, printing
  and the `--verbose` diagnostics. This includes the "Cannot load … not a supported
  format" print at line 647, where the model registers nothing.
- Foreign parsers are parameters or abstract values. These cover TXP2, IFS, SWF and
  shape parsing, PIL's `Image.open`, `crop` and `save`, and the bytecode decompiler.
  Python's `repr` of a label name is the parameter `quote`, and `os.linesep` and
  `os.sep` are parameters.
- Foreign calls are total in the model: `read_file`, `Image.open`, `Shape(...)`,
  `SWF(...)` and `crop` always return a value. In the program, any exception they raise
  ends the whole run, later containers included.
- Normalise.IfsNeverFails: the IFS branch raises nothing of its own; that it never raises
  at all holds only because the decoders are total here.
- Normalise.IfsSteps: no step raises because the decoders are total here.
- Normalise.Txp2Succeeds: the finishing condition is stated for total parsers and `crop`.
- Whether a container parses as TXP2 or IFS is an input (`Container.asTxp2`/`asIfs`);
  the `try`/`except` around the parsers is not modelled.
- `AFPRenderer` is not part of this model. `add_shape`, `add_texture` and `add_swf` are
  modelled as assignment into name-keyed maps, and `compute_path_location` and
  `render_path` are inputs: the natural size, and the frames with their duration.
- The `list` action, the other sub-commands, and thread selection for rendering.
- RenderParams: numbers are real numbers, not IEEE doubles, so rounding in the ratio
  comparison and in the divisions is not modelled.
- RenderParams.ParseInts: `int()` is the parameter `parseInt`. `Decimal.ParseInt` is a
  model of `int()` for ASCII decimal text, and it is used in `RenderParams.ColorRoundTrip`.
  Unicode digits are not modelled.
- RenderParams.RatioFromParts: `float()` is the parameter `parseFloat`; NaN and infinity
  are not modelled.
- Strings.Lower: ASCII letters only; Unicode case mapping is not modelled.
- Export.PadWidth: computes `int(math.log10(n)) + 1` exactly. Floating-point error of
  `log10` for very large frame counts is not modelled.
- Normalise.RegionSkipped: a sheet image's truthiness is taken as "present"; PIL images
  are always truthy.

## Findings

| source | as written | input that shows it | evidently intended | confidence | as-written member | corrected member |
|---|---|---|---|---|---|---|
| bemani/utils/afputils.py:636 | the exception text is a plain string without the `f` prefix, so it reads literally `Could not find texture {texturename} to split!` | any two regions whose texture names (`bg`, `fg`) are both missing from the texture list raise identical messages | the message names the missing texture | not executed | Normalise.NotFoundMessageAsWritten | Normalise.NotFoundMessage |
