/**
  The bytecode flattener of `write_bytecode`: a depth-first, pre-order walk over a movie
  clip that collects one decompiled text block per bytecode blob and merges every frame
  label table it meets into one insertion-ordered global table.

  Blobs are values of a type parameter `B`; the external decompiler is the parameter
  `decompile`, and Python's `repr` of a label name is the parameter `quote`.
*/
module Flattener {
  import opened Outcomes
  import opened Strings
  import Decimal

  /** A frame's reference to an imported tag; only its init bytecode matters here. */
  datatype ImportedTag<B> = ImportedTag(initBytecode: Option<B>)

  datatype Frame<B> = Frame(importedTags: seq<ImportedTag<B>>)

  /** The tags the flattener distinguishes; every other tag kind is `OtherTag`.
      A `PlaceObject`'s triggers are its event map in insertion order. */
  datatype Tag<B> =
    | DoAction(bytecode: B)
    | PlaceObject(triggers: seq<(string, seq<B>)>)
    | DefineSprite(sprite: Clip<B>)
    | OtherTag

  /** A movie clip: the root SWF or the body of a `DefineSprite`. */
  datatype Clip<B> = Clip(labels: seq<Label>, frames: seq<Frame<B>>, tags: seq<Tag<B>>)

  /** One entry of a frame-label table: a label name and its frame number. */
  type Label = (string, int)

  // ---------------------------------------------------------------------------
  // Insertion-ordered label tables (a Python dict from name to frame)
  // ---------------------------------------------------------------------------

  /** The names of a table, in table order. */
  function Keys(lut: seq<Label>): (r: seq<string>)
    ensures |r| == |lut| && forall i :: 0 <= i < |lut| ==> r[i] == lut[i].0
  {
    seq(|lut|, i requires 0 <= i < |lut| => lut[i].0)
  }

  predicate DistinctKeys(lut: seq<Label>)
  {
    forall i, j :: 0 <= i < j < |lut| ==> lut[i].0 != lut[j].0
  }

  /** The first position of `name` in `keys`. */
  function IndexOf(keys: seq<string>, name: string): (i: nat)
    requires name in keys
    ensures i < |keys| && keys[i] == name
    ensures forall j :: 0 <= j < i ==> keys[j] != name
  {
    if keys[0] == name then 0 else 1 + IndexOf(keys[1..], name)
  }

  /** `lut.get(name)`. */
  function Lookup(lut: seq<Label>, name: string): (r: Option<int>)
    ensures r.Some? <==> name in Keys(lut)
  {
    var keys := Keys(lut);
    if name in keys then Some(lut[IndexOf(keys, name)].1) else None
  }

  /** `lut[name] = frame`: an existing key is updated where it stands, a new key goes last. */
  function Put(lut: seq<Label>, name: string, frame: int): (r: seq<Label>)
    ensures |r| == if name in Keys(lut) then |lut| else |lut| + 1
    ensures forall i :: 0 <= i < |lut| ==> r[i].0 == lut[i].0
    ensures name !in Keys(lut) ==> r == lut + [(name, frame)]
    ensures name in Keys(lut) ==> r[IndexOf(Keys(lut), name)] == (name, frame)
  {
    var keys := Keys(lut);
    if name in keys then lut[IndexOf(keys, name) := (name, frame)] else lut + [(name, frame)]
  }

  /** After `lut[name] = frame`, `name` maps to `frame` and every other name is unchanged. */
  lemma PutLookup(lut: seq<Label>, name: string, frame: int, n: string)
    ensures Lookup(Put(lut, name, frame), n) == if n == name then Some(frame) else Lookup(lut, n)
  {
    var r := Put(lut, name, frame);
    if name in Keys(lut) {
      assert Keys(r) == Keys(lut);
    } else {
      assert Keys(r) == Keys(lut) + [name];
      if n in Keys(lut) {
        assert IndexOf(Keys(r), n) == IndexOf(Keys(lut), n) by {
          var i := IndexOf(Keys(lut), n);
          assert Keys(r)[..|lut|] == Keys(lut);
          assert IndexOf(Keys(r), n) <= i;
        }
      }
    }
  }

  /** Assignment keeps the keys of a dict distinct. */
  lemma PutDistinct(lut: seq<Label>, name: string, frame: int)
    requires DistinctKeys(lut)
    ensures DistinctKeys(Put(lut, name, frame))
  {
  }

  /** `lut.update(labels)`: the labels written one after the other, in order. */
  function Merge(lut: seq<Label>, labels: seq<Label>): (r: seq<Label>)
    decreases |labels|
  {
    if |labels| == 0 then lut
    else
      var k := |labels| - 1;
      Put(Merge(lut, labels[..k]), labels[k].0, labels[k].1)
  }

  /** The frame the last entry named `name` in `labels` gives, if any. */
  function LastValue(labels: seq<Label>, name: string): Option<int>
  {
    if |labels| == 0 then None
    else if labels[|labels| - 1].0 == name then Some(labels[|labels| - 1].1)
    else LastValue(labels[..|labels| - 1], name)
  }

  /** A later write wins: after the merge a name has the frame of its last entry in
      `labels`, or the frame it had before if `labels` does not name it. */
  lemma {:induction false} MergeLookup(lut: seq<Label>, labels: seq<Label>, name: string)
    ensures Lookup(Merge(lut, labels), name)
         == if LastValue(labels, name).Some? then LastValue(labels, name) else Lookup(lut, name)
  {
    if |labels| > 0 {
      var k := |labels| - 1;
      MergeLookup(lut, labels[..k], name);
      PutLookup(Merge(lut, labels[..k]), labels[k].0, labels[k].1, name);
    }
  }

  /** Merging never moves an existing entry: the old table is a prefix of the new one's
      keys, and the keys stay distinct. */
  lemma {:induction false} MergeKeepsPositions(lut: seq<Label>, labels: seq<Label>)
    ensures |Merge(lut, labels)| >= |lut|
    ensures forall i :: 0 <= i < |lut| ==> Merge(lut, labels)[i].0 == lut[i].0
    ensures DistinctKeys(lut) ==> DistinctKeys(Merge(lut, labels))
    ensures |labels| > 0 ==> |Merge(lut, labels)| > 0
  {
    if |labels| > 0 {
      var k := |labels| - 1;
      MergeKeepsPositions(lut, labels[..k]);
      if DistinctKeys(lut) {
        PutDistinct(Merge(lut, labels[..k]), labels[k].0, labels[k].1);
      }
    }
  }

  /** Two updates in a row are one update with the concatenated labels. */
  lemma {:induction false} MergeAppend(lut: seq<Label>, a: seq<Label>, b: seq<Label>)
    ensures Merge(Merge(lut, a), b) == Merge(lut, a + b)
  {
    if |b| == 0 {
      assert a + b == a;
    } else {
      var k := |b| - 1;
      var ab, init, last := a + b, a + b[..k], b[k];
      assert ab[..|ab| - 1] == init && ab[|ab| - 1] == last;
      MergeStep(lut, ab, init, last);
      MergeStep(Merge(lut, a), b, b[..k], last);
      MergeAppend(lut, a, b[..k]);
    }
  }

  lemma MergeStep(lut: seq<Label>, labels: seq<Label>, init: seq<Label>, last: Label)
    requires |labels| > 0 && labels[..|labels| - 1] == init && labels[|labels| - 1] == last
    ensures Merge(lut, labels) == Put(Merge(lut, init), last.0, last.1)
  {
  }

  /** Updating an empty dict with a dict copies it, order included. */
  lemma {:induction false} MergeIntoEmpty(labels: seq<Label>)
    requires DistinctKeys(labels)
    ensures Merge([], labels) == labels
  {
    if |labels| > 0 {
      var k := |labels| - 1;
      MergeIntoEmpty(labels[..k]);
      assert forall i :: 0 <= i < k ==> Keys(labels[..k])[i] != labels[k].0;
      assert labels[..k] + [labels[k]] == labels;
    }
  }

  // ---------------------------------------------------------------------------
  // The walk, as functions: which blocks, in which order, and the label table
  // ---------------------------------------------------------------------------

  /** The init-bytecode blocks of a frame's imported tags, in order. */
  function ImportedBlocks<B>(decompile: B -> string, refs: seq<ImportedTag<B>>): seq<string>
  {
    if |refs| == 0 then []
    else
      var k := |refs| - 1;
      ImportedBlocks(decompile, refs[..k])
        + (if refs[k].initBytecode.Some? then [decompile(refs[k].initBytecode.value)] else [])
  }

  /** `bytecode_from_frames`. */
  function FramesBlocks<B>(decompile: B -> string, frames: seq<Frame<B>>): seq<string>
  {
    if |frames| == 0 then []
    else
      var k := |frames| - 1;
      FramesBlocks(decompile, frames[..k]) + ImportedBlocks(decompile, frames[k].importedTags)
  }

  /** Every decompiled blob of a trigger list, in order. */
  function BlobBlocks<B>(decompile: B -> string, blobs: seq<B>): (r: seq<string>)
    ensures |r| == |blobs| && forall i :: 0 <= i < |r| ==> r[i] == decompile(blobs[i])
  {
    if |blobs| == 0 then [] else BlobBlocks(decompile, blobs[..|blobs| - 1]) + [decompile(blobs[|blobs| - 1])]
  }

  /** A `PlaceObject`'s blocks: events in insertion order, each event's triggers in order. */
  function TriggerBlocks<B>(decompile: B -> string, triggers: seq<(string, seq<B>)>): seq<string>
  {
    if |triggers| == 0 then []
    else
      var k := |triggers| - 1;
      TriggerBlocks(decompile, triggers[..k]) + BlobBlocks(decompile, triggers[k].1)
  }

  function TagBlocks<B>(decompile: B -> string, tag: Tag<B>): seq<string>
    decreases tag
  {
    match tag
    case DoAction(b) => [decompile(b)]
    case PlaceObject(triggers) => TriggerBlocks(decompile, triggers)
    case DefineSprite(sprite) => ClipBlocks(decompile, sprite)
    case OtherTag => []
  }

  /** `bytecode_from_tags`: the tags' blocks in order, a sprite's whole walk in its place. */
  function TagsBlocks<B>(decompile: B -> string, tags: seq<Tag<B>>): seq<string>
    decreases tags
  {
    if |tags| == 0 then []
    else
      var k := |tags| - 1;
      TagsBlocks(decompile, tags[..k]) + TagBlocks(decompile, tags[k])
  }

  /** The pre-order walk of one clip: its frames' blocks, then its tags' blocks. */
  function ClipBlocks<B>(decompile: B -> string, clip: Clip<B>): seq<string>
    decreases clip
  {
    FramesBlocks(decompile, clip.frames) + TagsBlocks(decompile, clip.tags)
  }

  // The same walk over the blobs themselves, before any decompilation: the reference
  // order against which the blocks are checked.

  function ImportedBlobs<B>(refs: seq<ImportedTag<B>>): seq<B>
  {
    if |refs| == 0 then []
    else
      var k := |refs| - 1;
      ImportedBlobs(refs[..k]) + (if refs[k].initBytecode.Some? then [refs[k].initBytecode.value] else [])
  }

  function FramesBlobs<B>(frames: seq<Frame<B>>): seq<B>
  {
    if |frames| == 0 then [] else FramesBlobs(frames[..|frames| - 1]) + ImportedBlobs(frames[|frames| - 1].importedTags)
  }

  function TriggerBlobs<B>(triggers: seq<(string, seq<B>)>): seq<B>
  {
    if |triggers| == 0 then [] else TriggerBlobs(triggers[..|triggers| - 1]) + triggers[|triggers| - 1].1
  }

  function TagBlobs<B>(tag: Tag<B>): seq<B>
    decreases tag
  {
    match tag
    case DoAction(b) => [b]
    case PlaceObject(triggers) => TriggerBlobs(triggers)
    case DefineSprite(sprite) => ClipBlobs(sprite)
    case OtherTag => []
  }

  function TagsBlobs<B>(tags: seq<Tag<B>>): seq<B>
    decreases tags
  {
    if |tags| == 0 then [] else TagsBlobs(tags[..|tags| - 1]) + TagBlobs(tags[|tags| - 1])
  }

  /** Every bytecode blob of a clip, in depth-first pre-order. */
  function ClipBlobs<B>(clip: Clip<B>): seq<B>
    decreases clip
  {
    FramesBlobs(clip.frames) + TagsBlobs(clip.tags)
  }

  lemma BlobBlocksConcat<B>(decompile: B -> string, a: seq<B>, b: seq<B>)
    ensures BlobBlocks(decompile, a + b) == BlobBlocks(decompile, a) + BlobBlocks(decompile, b)
  {
    var l, r, whole := BlobBlocks(decompile, a), BlobBlocks(decompile, b), BlobBlocks(decompile, a + b);
    assert forall i :: 0 <= i < |whole| ==> whole[i] == (l + r)[i];
  }

  lemma {:induction false} ImportedDecompiled<B>(decompile: B -> string, refs: seq<ImportedTag<B>>)
    ensures ImportedBlocks(decompile, refs) == BlobBlocks(decompile, ImportedBlobs(refs))
  {
    if |refs| > 0 {
      var k := |refs| - 1;
      ImportedDecompiled(decompile, refs[..k]);
      var last: seq<B> := if refs[k].initBytecode.Some? then [refs[k].initBytecode.value] else [];
      BlobBlocksConcat(decompile, ImportedBlobs(refs[..k]), last);
    }
  }

  lemma {:induction false} FramesDecompiled<B>(decompile: B -> string, frames: seq<Frame<B>>)
    ensures FramesBlocks(decompile, frames) == BlobBlocks(decompile, FramesBlobs(frames))
  {
    if |frames| > 0 {
      var k := |frames| - 1;
      FramesDecompiled(decompile, frames[..k]);
      ImportedDecompiled(decompile, frames[k].importedTags);
      BlobBlocksConcat(decompile, FramesBlobs(frames[..k]), ImportedBlobs(frames[k].importedTags));
    }
  }

  lemma {:induction false} TriggersDecompiled<B>(decompile: B -> string, triggers: seq<(string, seq<B>)>)
    ensures TriggerBlocks(decompile, triggers) == BlobBlocks(decompile, TriggerBlobs(triggers))
  {
    if |triggers| > 0 {
      var k := |triggers| - 1;
      TriggersDecompiled(decompile, triggers[..k]);
      BlobBlocksConcat(decompile, TriggerBlobs(triggers[..k]), triggers[k].1);
    }
  }

  lemma {:induction false} TagDecompiled<B>(decompile: B -> string, tag: Tag<B>)
    ensures TagBlocks(decompile, tag) == BlobBlocks(decompile, TagBlobs(tag))
    decreases tag
  {
    match tag
    case DoAction(b) =>
    case PlaceObject(triggers) => TriggersDecompiled(decompile, triggers);
    case DefineSprite(sprite) => ClipDecompiled(decompile, sprite);
    case OtherTag =>
  }

  lemma {:induction false} TagsDecompiled<B>(decompile: B -> string, tags: seq<Tag<B>>)
    ensures TagsBlocks(decompile, tags) == BlobBlocks(decompile, TagsBlobs(tags))
    decreases tags
  {
    if |tags| > 0 {
      var k := |tags| - 1;
      TagsDecompiled(decompile, tags[..k]);
      TagDecompiled(decompile, tags[k]);
      BlobBlocksConcat(decompile, TagsBlobs(tags[..k]), TagBlobs(tags[k]));
    }
  }

  /** The flattener decompiles every blob of the clip exactly once, in pre-order: block `i`
      is the decompilation of the `i`-th blob, and there are as many blocks as blobs. */
  lemma {:induction false} ClipDecompiled<B>(decompile: B -> string, clip: Clip<B>)
    ensures ClipBlocks(decompile, clip) == BlobBlocks(decompile, ClipBlobs(clip))
    ensures |ClipBlocks(decompile, clip)| == |ClipBlobs(clip)|
    decreases clip
  {
    FramesDecompiled(decompile, clip.frames);
    TagsDecompiled(decompile, clip.tags);
    BlobBlocksConcat(decompile, FramesBlobs(clip.frames), TagsBlobs(clip.tags));
  }

  /** A tag's blocks sit exactly in its place among its siblings: everything before it,
      then its own blocks (a sprite's whole walk), then everything after it. */
  lemma {:induction false} TagsBlocksInPlace<B>(decompile: B -> string, tags: seq<Tag<B>>, i: nat)
    requires i < |tags|
    ensures TagsBlocks(decompile, tags)
         == TagsBlocks(decompile, tags[..i]) + TagBlocks(decompile, tags[i]) + TagsBlocks(decompile, tags[i + 1..])
    decreases |tags|
  {
    var k := |tags| - 1;
    if i == k {
      assert tags[..k] == tags[..i];
      assert TagsBlocks(decompile, tags[i + 1..]) == [];
    } else {
      assert tags[..k][..i] == tags[..i];
      assert tags[..k][i] == tags[i];
      TagsBlocksInPlace(decompile, tags[..k], i);
      var rest := tags[i + 1..];
      assert tags[..k][i + 1..] == rest[..|rest| - 1];
      assert rest[|rest| - 1] == tags[k];
      assert TagsBlocks(decompile, rest) == TagsBlocks(decompile, rest[..|rest| - 1]) + TagBlocks(decompile, tags[k]);
    }
  }

  function TagLabels<B>(lut: seq<Label>, tag: Tag<B>): seq<Label>
    decreases tag
  {
    match tag
    case DefineSprite(sprite) => ClipLabels(lut, sprite)
    case _ => lut
  }

  function TagsLabels<B>(lut: seq<Label>, tags: seq<Tag<B>>): seq<Label>
    decreases tags
  {
    if |tags| == 0 then lut
    else
      var k := |tags| - 1;
      TagLabels(TagsLabels(lut, tags[..k]), tags[k])
  }

  /** The label table after the walk of `clip` starting from `lut`: the clip's own labels
      are merged first, then each nested sprite's table as the walk reaches it. */
  function ClipLabels<B>(lut: seq<Label>, clip: Clip<B>): seq<Label>
    decreases clip
  {
    TagsLabels(Merge(lut, clip.labels), clip.tags)
  }

  /** Every label definition of the clip tree, in pre-order. */
  function AllLabels<B>(clip: Clip<B>): seq<Label>
    decreases clip
  {
    clip.labels + TagsAllLabels(clip.tags)
  }

  function TagsAllLabels<B>(tags: seq<Tag<B>>): seq<Label>
    decreases tags
  {
    if |tags| == 0 then []
    else
      var k := |tags| - 1;
      TagsAllLabels(tags[..k]) + TagAllLabels(tags[k])
  }

  function TagAllLabels<B>(tag: Tag<B>): seq<Label>
    decreases tag
  {
    match tag
    case DefineSprite(sprite) => AllLabels(sprite)
    case _ => []
  }

  /** The global table is one flat merge of every label definition in pre-order. */
  lemma {:induction false} ClipLabelsFlat<B>(lut: seq<Label>, clip: Clip<B>)
    ensures ClipLabels(lut, clip) == Merge(lut, AllLabels(clip))
    decreases clip
  {
    TagsLabelsFlat(Merge(lut, clip.labels), clip.tags);
    MergeAppend(lut, clip.labels, TagsAllLabels(clip.tags));
  }

  lemma {:induction false} TagsLabelsFlat<B>(lut: seq<Label>, tags: seq<Tag<B>>)
    ensures TagsLabels(lut, tags) == Merge(lut, TagsAllLabels(tags))
    decreases tags
  {
    if |tags| > 0 {
      var k := |tags| - 1;
      TagsLabelsFlat(lut, tags[..k]);
      var mid := TagsLabels(lut, tags[..k]);
      TagLabelsFlat(mid, tags[k]);
      MergeAppend(lut, TagsAllLabels(tags[..k]), TagAllLabels(tags[k]));
    }
  }

  lemma {:induction false} TagLabelsFlat<B>(lut: seq<Label>, tag: Tag<B>)
    ensures TagLabels(lut, tag) == Merge(lut, TagAllLabels(tag))
    decreases tag
  {
    match tag
    case DefineSprite(s) => ClipLabelsFlat(lut, s);
    case _ =>
  }

  predicate HasSprite<B>(tags: seq<Tag<B>>)
  {
    exists i :: 0 <= i < |tags| && tags[i].DefineSprite?
  }

  lemma {:induction false} NoSpriteNoLabels<B>(tags: seq<Tag<B>>)
    requires !HasSprite(tags)
    ensures TagsAllLabels(tags) == []
  {
    if |tags| > 0 {
      var k := |tags| - 1;
      assert forall i :: 0 <= i < k ==> tags[..k][i] == tags[i];
      NoSpriteNoLabels(tags[..k]);
    }
  }

  /** Without nested sprites the global table is exactly the clip's own, in its order. */
  lemma NoSpritesKeepsLabels<B>(clip: Clip<B>)
    requires !HasSprite(clip.tags) && DistinctKeys(clip.labels)
    ensures ClipLabels([], clip) == clip.labels
  {
    ClipLabelsFlat([], clip);
    NoSpriteNoLabels(clip.tags);
    assert AllLabels(clip) == clip.labels;
    MergeIntoEmpty(clip.labels);
  }

  /** A label's global frame is the one given by its last definition in pre-order, so a
      nested sprite's label shadows an ancestor's of the same name; and the entries of the
      root's own table keep their positions at the head of the global table. */
  lemma GlobalLabel<B>(clip: Clip<B>, name: string)
    ensures Lookup(ClipLabels([], clip), name) == LastValue(AllLabels(clip), name)
    ensures |ClipLabels([], clip)| >= |Merge([], clip.labels)|
    ensures forall i :: 0 <= i < |Merge([], clip.labels)| ==>
              ClipLabels([], clip)[i].0 == Merge([], clip.labels)[i].0
    ensures DistinctKeys(ClipLabels([], clip))
  {
    ClipLabelsFlat([], clip);
    MergeLookup([], AllLabels(clip), name);
    MergeAppend([], clip.labels, TagsAllLabels(clip.tags));
    MergeKeepsPositions(Merge([], clip.labels), TagsAllLabels(clip.tags));
    MergeKeepsPositions([], AllLabels(clip));
  }

  // ---------------------------------------------------------------------------
  // The written program
  // ---------------------------------------------------------------------------

  const LutComment: string := "// Defined frame labels from SWF container, as used for frame lookups."

  /** `f"    {name!r}: {frame},"`. */
  function LutLine(quote: string -> string, entry: Label): string
  {
    "    " + quote(entry.0) + ": " + Decimal.IntToString(entry.1) + ","
  }

  function LutLines(quote: string -> string, lut: seq<Label>): (r: seq<string>)
    ensures |r| == |lut| && forall i :: 0 <= i < |lut| ==> r[i] == LutLine(quote, lut[i])
  {
    seq(|lut|, i requires 0 <= i < |lut| => LutLine(quote, lut[i]))
  }

  /** The `FRAME_LUT` declaration block: a comment, the opening line, one line per table
      entry in table order, and the closing line, joined by the line separator. */
  function Header(quote: string -> string, eol: string, lut: seq<Label>): string
  {
    Join([LutComment, "FRAME_LUT = {"] + LutLines(quote, lut) + ["};"], eol)
  }

  /** The blocks written, header first when the global table is not empty. */
  function Document<B>(decompile: B -> string, quote: string -> string, eol: string, swf: Clip<B>): seq<string>
  {
    var lut := ClipLabels([], swf);
    (if |lut| > 0 then [Header(quote, eol, lut)] else []) + ClipBlocks(decompile, swf)
  }

  /** The text `write_bytecode` writes: the blocks joined by two line separators. */
  function Program<B>(decompile: B -> string, quote: string -> string, eol: string, swf: Clip<B>): string
  {
    Join(Document(decompile, quote, eol, swf), eol + eol)
  }

  /** A header block is present exactly when some clip of the tree defines a label. */
  lemma HeaderIffLabels<B>(decompile: B -> string, quote: string -> string, eol: string, swf: Clip<B>)
    ensures var doc := Document(decompile, quote, eol, swf);
      && (AllLabels(swf) != [] ==> doc == [Header(quote, eol, ClipLabels([], swf))] + ClipBlocks(decompile, swf))
      && (AllLabels(swf) == [] ==> doc == ClipBlocks(decompile, swf))
  {
    ClipLabelsFlat([], swf);
    MergeKeepsPositions([], AllLabels(swf));
    if AllLabels(swf) == [] {
      assert ClipLabels([], swf) == [];
    }
  }

  /** Without any label the program is the code blocks alone, separated by blank lines;
      with no code either, nothing is written to the file. */
  lemma NoLabelsNoHeader<B>(decompile: B -> string, quote: string -> string, eol: string, swf: Clip<B>)
    requires AllLabels(swf) == []
    ensures Program(decompile, quote, eol, swf) == Join(ClipBlocks(decompile, swf), eol + eol)
    ensures ClipBlocks(decompile, swf) == [] ==> Program(decompile, quote, eol, swf) == ""
  {
    HeaderIffLabels(decompile, quote, eol, swf);
  }

  /** With labels and code, the program is the header, a blank line, and the code blocks
      each separated by a blank line. */
  lemma ProgramShape<B>(decompile: B -> string, quote: string -> string, eol: string, swf: Clip<B>)
    requires AllLabels(swf) != [] && ClipBlocks(decompile, swf) != []
    ensures Program(decompile, quote, eol, swf)
         == Header(quote, eol, ClipLabels([], swf)) + eol + eol + Join(ClipBlocks(decompile, swf), eol + eol)
  {
    HeaderIffLabels(decompile, quote, eol, swf);
    var blocks := ClipBlocks(decompile, swf);
    var doc := [Header(quote, eol, ClipLabels([], swf))] + blocks;
    assert doc[1..] == blocks;
  }

  /** A nested sprite that reuses its parent's label name overrides the frame number but
      keeps the parent's entry in place: the table has a single entry. */
  lemma SpriteShadowsParentExample<B>(inner: Clip<B>, c: Clip<B>)
    requires inner == Clip([("start", 5)], [], []) && c == Clip([("start", 0)], [], [DefineSprite(inner)])
    ensures ClipLabels([], c) == [("start", 5)]
  {
    SingleSpriteLabels([], c, inner);
    NoTagsLabels(Merge([], c.labels), inner);
    StartTwice();
  }

  lemma StartTwice()
    ensures Merge(Merge([], [("start", 0)]), [("start", 5)]) == [("start", 5)]
  {
    MergeSingle([], "start", 0);
    var root: seq<Label> := [("start", 0)];
    assert Keys(root) == ["start"];
    MergeSingle(root, "start", 5);
  }

  /** A clip whose only tag is one sprite: its labels, then the sprite's walk. */
  lemma SingleSpriteLabels<B>(lut: seq<Label>, c: Clip<B>, inner: Clip<B>)
    requires c.tags == [DefineSprite(inner)]
    ensures ClipLabels(lut, c) == ClipLabels(Merge(lut, c.labels), inner)
  {
    var root := Merge(lut, c.labels);
    assert c.tags[..0] == [];
    assert TagsLabels(root, c.tags) == TagLabels(TagsLabels(root, c.tags[..0]), c.tags[0]);
  }

  /** A clip without tags only merges its own labels. */
  lemma NoTagsLabels<B>(lut: seq<Label>, c: Clip<B>)
    requires c.tags == []
    ensures ClipLabels(lut, c) == Merge(lut, c.labels)
  {
  }

  lemma PrefixStep<T>(s: seq<T>, i: nat)
    requires i < |s|
    ensures s[..i + 1][..i] == s[..i]
  {
  }

  lemma BlobBlocksStep<B>(decompile: B -> string, blobs: seq<B>, j: nat)
    requires j < |blobs|
    ensures BlobBlocks(decompile, blobs[..j + 1]) == BlobBlocks(decompile, blobs[..j]) + [decompile(blobs[j])]
  {
    PrefixStep(blobs, j);
  }

  lemma TriggerBlocksStep<B>(decompile: B -> string, triggers: seq<(string, seq<B>)>, i: nat)
    requires i < |triggers|
    ensures TriggerBlocks(decompile, triggers[..i + 1])
         == TriggerBlocks(decompile, triggers[..i]) + BlobBlocks(decompile, triggers[i].1)
  {
    PrefixStep(triggers, i);
  }

  lemma WholePrefix<T>(s: seq<T>)
    ensures s[..|s|] == s
  {
  }

  /** Merging one label: `dict.update` with a single entry is one assignment. */
  lemma MergeSingle(lut: seq<Label>, name: string, frame: int)
    ensures Merge(lut, [(name, frame)]) == Put(lut, name, frame)
    ensures lut == [] ==> Merge(lut, [(name, frame)]) == [(name, frame)]
    ensures Keys(lut) == [name] ==> Merge(lut, [(name, frame)]) == [(name, frame)]
  {
    var one: seq<Label> := [(name, frame)];
    assert one[..0] == [];
    if Keys(lut) == [name] {
      assert IndexOf(Keys(lut), name) == 0;
    }
  }

  // ---------------------------------------------------------------------------
  // The walk as the source runs it: a buffer and a dict updated in place
  // ---------------------------------------------------------------------------

  /** The state the nested helpers of `write_bytecode` share: `buff` and `lut`. */
  class BytecodeWriter<B> {
    const decompile: B -> string
    var buff: seq<string>
    var lut: seq<Label>

    constructor (decompile: B -> string)
      ensures this.decompile == decompile && buff == [] && lut == []
    {
      this.decompile := decompile;
      buff := [];
      lut := [];
    }

    /** `lut.update(labels)`. */
    method UpdateLabels(labels: seq<Label>)
      modifies this
      ensures lut == Merge(old(lut), labels) && buff == old(buff)
    {
      var i := 0;
      while i < |labels|
        invariant 0 <= i <= |labels|
        invariant lut == Merge(old(lut), labels[..i]) && buff == old(buff)
      {
        PrefixStep(labels, i);
        lut := Put(lut, labels[i].0, labels[i].1);
        i := i + 1;
      }
      WholePrefix(labels);
    }

    /** `bytecode_from_frames`. */
    method FromFrames(frames: seq<Frame<B>>)
      modifies this
      ensures buff == old(buff) + FramesBlocks(decompile, frames) && lut == old(lut)
    {
      var i := 0;
      while i < |frames|
        invariant 0 <= i <= |frames|
        invariant buff == old(buff) + FramesBlocks(decompile, frames[..i]) && lut == old(lut)
      {
        var refs := frames[i].importedTags;
        var j := 0;
        ghost var before := buff;
        while j < |refs|
          invariant 0 <= j <= |refs|
          invariant buff == before + ImportedBlocks(decompile, refs[..j]) && lut == old(lut)
        {
          PrefixStep(refs, j);
          if refs[j].initBytecode.Some? {
            buff := buff + [decompile(refs[j].initBytecode.value)];
          }
          j := j + 1;
        }
        WholePrefix(refs);
        PrefixStep(frames, i);
        i := i + 1;
      }
      WholePrefix(frames);
    }

    /** The triggers of one `PlaceObject`, event by event. */
    method FromTriggers(triggers: seq<(string, seq<B>)>)
      modifies this
      ensures buff == old(buff) + TriggerBlocks(decompile, triggers) && lut == old(lut)
    {
      var i := 0;
      while i < |triggers|
        invariant 0 <= i <= |triggers|
        invariant buff == old(buff) + TriggerBlocks(decompile, triggers[..i]) && lut == old(lut)
      {
        TriggerBlocksStep(decompile, triggers, i);
        FromBlobs(triggers[i].1);
        i := i + 1;
      }
      WholePrefix(triggers);
    }

    /** The inner loop of `bytecode_from_triggers`: one trigger's bytecode blobs in order. */
    method FromBlobs(blobs: seq<B>)
      modifies this
      ensures buff == old(buff) + BlobBlocks(decompile, blobs) && lut == old(lut)
    {
      var j := 0;
      while j < |blobs|
        invariant 0 <= j <= |blobs|
        invariant buff == old(buff) + BlobBlocks(decompile, blobs[..j]) && lut == old(lut)
      {
        BlobBlocksStep(decompile, blobs, j);
        buff := buff + [decompile(blobs[j])];
        j := j + 1;
      }
      WholePrefix(blobs);
    }

    /** `bytecode_from_tags`: each tag in order, a `DefineSprite` walked in place. */
    method FromTags(tags: seq<Tag<B>>)
      modifies this
      decreases tags
      ensures buff == old(buff) + TagsBlocks(decompile, tags)
      ensures lut == TagsLabels(old(lut), tags)
    {
      var i := 0;
      while i < |tags|
        invariant 0 <= i <= |tags|
        invariant buff == old(buff) + TagsBlocks(decompile, tags[..i])
        invariant lut == TagsLabels(old(lut), tags[..i])
      {
        PrefixStep(tags, i);
        FromTag(tags[i]);
        i := i + 1;
      }
      WholePrefix(tags);
    }

    /** The body of the loop of `bytecode_from_tags` for one tag. */
    method FromTag(tag: Tag<B>)
      modifies this
      decreases tag
      ensures buff == old(buff) + TagBlocks(decompile, tag)
      ensures lut == TagLabels(old(lut), tag)
    {
      match tag
      case DoAction(b) =>
        buff := buff + [decompile(b)];
      case PlaceObject(triggers) =>
        FromTriggers(triggers);
      case DefineSprite(sprite) =>
        ghost var start := buff;
        UpdateLabels(sprite.labels);
        FromFrames(sprite.frames);
        FromTags(sprite.tags);
        assert buff == start + (FramesBlocks(decompile, sprite.frames) + TagsBlocks(decompile, sprite.tags));
        assert TagBlocks(decompile, tag) == ClipBlocks(decompile, sprite);
        assert TagLabels(old(lut), tag) == ClipLabels(old(lut), sprite);
      case OtherTag =>
    }
  }

  /** `write_bytecode` without the file write: the text it writes for `swf`. */
  method WriteBytecode<B>(swf: Clip<B>, decompile: B -> string, quote: string -> string, eol: string)
    returns (text: string)
    ensures text == Program(decompile, quote, eol, swf)
  {
    var w := new BytecodeWriter(decompile);
    w.UpdateLabels(swf.labels);
    w.FromFrames(swf.frames);
    w.FromTags(swf.tags);
    var lut, buff := w.lut, w.buff;
    WalkIsClip(decompile, quote, eol, swf, lut, buff);
    if |lut| > 0 {
      buff := [Header(quote, eol, lut)] + buff;
    }
    text := Join(buff, eol + eol);
  }

  /** The state the walk leaves behind is the clip's label table and blocks. */
  lemma WalkIsClip<B>(decompile: B -> string, quote: string -> string, eol: string, swf: Clip<B>,
                      lut: seq<Label>, buff: seq<string>)
    requires lut == TagsLabels(Merge([], swf.labels), swf.tags)
    requires buff == [] + FramesBlocks(decompile, swf.frames) + TagsBlocks(decompile, swf.tags)
    ensures lut == ClipLabels([], swf) && buff == ClipBlocks(decompile, swf)
    ensures (if |lut| > 0 then [Header(quote, eol, lut)] + buff else buff) == Document(decompile, quote, eol, swf)
  {
  }
}
