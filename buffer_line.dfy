/**
 * `BufferLine`: one line (or paragraph) of text with its line ending, its
 * attributes list, an optional alignment, a shaping mode, an application
 * metadata tag, and two cache slots: the shape built from the text and the
 * layout built from the shape.
 *
 * Every setter compares the new value with the current one and, only when it
 * differs, sends the dependent caches stale: text goes through `Reset` (which
 * also drops the metadata), the ending and the attributes through
 * `ResetShaping`, the alignment through `ResetLayout`. `Shape` and `Layout`
 * rebuild lazily, handing the stale payload back to the engine as scratch.
 */
module Line {
  import opened TextTypes
  import opened CachedState
  import opened AttrsSpans

  /** A shaped line, as the shaping engine built it; the line never looks inside. */
  datatype ShapeLine = ShapeLine(id: nat)

  /** `ShapeLine::empty()`: the scratch shape used when no stale one is kept. */
  const EmptyShape: ShapeLine := ShapeLine(0)

  /** One wrapped, positioned row of a layout. */
  datatype LayoutLine = LayoutLine(id: nat)

  /**
   * The engines the line calls out to, as deterministic functions. `build`
   * is `ShapeLine::build`: it fills the scratch shape (first argument) from
   * the text, the attributes, the shaping mode and the tab width.
   * `layoutToBuffer` is `ShapeLine::layout_to_buffer`: it fills the scratch
   * rows from the shape, the font size, the width, the wrap policy, the
   * alignment and the monospace width.
   */
  datatype FontSystem = FontSystem(
    build: (ShapeLine, seq<Byte>, AttrsList, Shaping, U16) -> ShapeLine,
    layoutToBuffer: (ShapeLine, F32, Option<F32>, Wrap, Option<Align>, seq<LayoutLine>, Option<F32>) -> seq<LayoutLine>)

  /** The inputs a shape was built from. */
  datatype ShapeInputs = ShapeInputs(text: seq<Byte>, ending: LineEnding, attrsList: AttrsList, shaping: Shaping)

  /** The inputs of a layout that the line itself supplies. */
  datatype LayoutInputs = LayoutInputs(shape: ShapeLine, align: Option<Align>)

  class BufferLine {
    var text: seq<Byte>
    var ending: LineEnding
    var attrsList: AttrsList
    var align: Option<Align>
    var shapeOpt: Cached<ShapeLine>
    var layoutOpt: Cached<seq<LayoutLine>>
    var shaping: Shaping
    var metadata: Option<Usize>

    /** What the current shape was built from, while it is current. */
    ghost var shapedFrom: ShapeInputs
    /** What the current layout was built from, while it is current. */
    ghost var laidOutFrom: LayoutInputs

    /** A current shape was built from the current text, ending, attributes and shaping mode. */
    ghost predicate ShapeCoherent()
      reads this
    {
      shapeOpt.Used? ==> shapedFrom == ShapeInputs(text, ending, attrsList, shaping)
    }

    /**
     * A current layout was built from the current shape and the current
     * alignment, so it is current only while the shape is.
     */
    ghost predicate LayoutCoherent()
      reads this
    {
      layoutOpt.Used? ==> shapeOpt.Used? && laidOutFrom == LayoutInputs(shapeOpt.payload, align)
    }

    /** Both caches are coherent with the line's contents. */
    ghost predicate Valid()
      reads this
    {
      ShapeCoherent() && LayoutCoherent()
    }

    /** `new`: a line with the given contents, no alignment, empty caches and no metadata. */
    constructor (text: seq<Byte>, ending: LineEnding, attrsList: AttrsList, shaping: Shaping)
      ensures Valid()
      ensures this.text == text && this.ending == ending && this.attrsList == attrsList && this.shaping == shaping
      ensures align == None && metadata == None
      ensures shapeOpt == Cached.Empty && layoutOpt == Cached.Empty
    {
      this.text := text;
      this.ending := ending;
      this.attrsList := attrsList;
      align := None;
      shapeOpt := Cached.Empty;
      layoutOpt := Cached.Empty;
      this.shaping := shaping;
      metadata := None;
      shapedFrom := ShapeInputs(text, ending, attrsList, shaping);
      laidOutFrom := LayoutInputs(EmptyShape, None);
    }

    /**
     * `empty`: a placeholder line (empty text, the default ending, default
     * attributes, advanced shaping) meant to be filled by `ResetNew`.
     */
    constructor EmptyLine()
      ensures Valid()
      ensures text == [] && ending == DefaultEnding && attrsList == New(NewAttrs) && shaping == Advanced
      ensures align == None && metadata == None
      ensures shapeOpt == Cached.Empty && layoutOpt == Cached.Empty
    {
      text := [];
      ending := DefaultEnding;
      attrsList := New(NewAttrs);
      align := None;
      shapeOpt := Cached.Empty;
      layoutOpt := Cached.Empty;
      shaping := Advanced;
      metadata := None;
      shapedFrom := ShapeInputs([], DefaultEnding, New(NewAttrs), Advanced);
      laidOutFrom := LayoutInputs(EmptyShape, None);
    }

    /**
     * `reset_new`: installs new contents whatever they were, clears the
     * alignment and the metadata, and sends both caches stale while keeping
     * their storage.
     */
    method ResetNew(text: seq<Byte>, ending: LineEnding, attrsList: AttrsList, shaping: Shaping)
      modifies this
      ensures Valid()
      ensures this.text == text && this.ending == ending && this.attrsList == attrsList && this.shaping == shaping
      ensures align == None && metadata == None
      ensures shapeOpt == old(shapeOpt).SetUnused() && layoutOpt == old(layoutOpt).SetUnused()
      ensures ShapeOpt() == None && LayoutOpt() == None
    {
      this.text := text;
      this.ending := ending;
      this.attrsList := attrsList;
      align := None;
      shapeOpt := shapeOpt.SetUnused();
      layoutOpt := layoutOpt.SetUnused();
      this.shaping := shaping;
      metadata := None;
    }

    /** `shape_opt`: the shape, only while it is current. */
    function ShapeOpt(): (r: Option<ShapeLine>)
      reads this
      ensures r.Some? <==> shapeOpt.Used?
      ensures r.Some? ==> r.value == shapeOpt.payload
    {
      shapeOpt.Get()
    }

    /** `layout_opt`: the layout, only while it is current. */
    function LayoutOpt(): (r: Option<seq<LayoutLine>>)
      reads this
      ensures r.Some? <==> layoutOpt.Used?
      ensures r.Some? ==> r.value == layoutOpt.payload
    {
      layoutOpt.Get()
    }

    /** `reset_layout`: only the layout goes stale. */
    method ResetLayout()
      modifies this`layoutOpt
      ensures LayoutCoherent() && ShapeCoherent() == old(ShapeCoherent())
      ensures layoutOpt == old(layoutOpt).SetUnused()
      ensures LayoutOpt() == None
    {
      layoutOpt := layoutOpt.SetUnused();
    }

    /** `reset_shaping`: the shape and the layout go stale; the metadata stays. */
    method ResetShaping()
      modifies this`shapeOpt, this`layoutOpt
      ensures Valid()
      ensures shapeOpt == old(shapeOpt).SetUnused() && layoutOpt == old(layoutOpt).SetUnused()
      ensures ShapeOpt() == None && LayoutOpt() == None
    {
      shapeOpt := shapeOpt.SetUnused();
      ResetLayout();
    }

    /** `reset`: the shape and the layout go stale and the metadata is dropped. */
    method Reset()
      modifies this`shapeOpt, this`layoutOpt, this`metadata
      ensures Valid()
      ensures metadata == None
      ensures shapeOpt == old(shapeOpt).SetUnused() && layoutOpt == old(layoutOpt).SetUnused()
      ensures ShapeOpt() == None && LayoutOpt() == None
    {
      metadata := None;
      ResetShaping();
    }

    /**
     * `set_text`: when the text, the ending or the attributes differ, installs
     * all three, drops the metadata and sends both caches stale; otherwise the
     * line is left exactly as it was.
     */
    method SetText(text: seq<Byte>, ending: LineEnding, attrsList: AttrsList) returns (changed: bool)
      requires Valid()
      modifies this
      ensures Valid()
      ensures changed <==> (text != old(this.text) || ending != old(this.ending) || attrsList != old(this.attrsList))
      ensures !changed ==> unchanged(this)
      ensures changed ==>
        && this.text == text && this.ending == ending && this.attrsList == attrsList
        && metadata == None
        && shapeOpt == old(shapeOpt).SetUnused() && layoutOpt == old(layoutOpt).SetUnused()
        && ShapeOpt() == None && LayoutOpt() == None
        && align == old(align) && shaping == old(shaping)
    {
      if text != this.text || ending != this.ending || attrsList != this.attrsList {
        this.text := text;
        this.ending := ending;
        this.attrsList := attrsList;
        Reset();
        changed := true;
      } else {
        changed := false;
      }
    }

    /**
     * `set_ending`: when the ending differs, installs it and sends both caches
     * stale, keeping the metadata; otherwise the line is left as it was.
     */
    method SetEnding(ending: LineEnding) returns (changed: bool)
      requires Valid()
      modifies this
      ensures Valid()
      ensures changed <==> ending != old(this.ending)
      ensures !changed ==> unchanged(this)
      ensures changed ==>
        && this.ending == ending
        && shapeOpt == old(shapeOpt).SetUnused() && layoutOpt == old(layoutOpt).SetUnused()
        && ShapeOpt() == None && LayoutOpt() == None
        && metadata == old(metadata)
        && text == old(text) && attrsList == old(attrsList) && align == old(align) && shaping == old(shaping)
    {
      if ending != this.ending {
        this.ending := ending;
        ResetShaping();
        changed := true;
      } else {
        changed := false;
      }
    }

    /**
     * `set_attrs_list`: when the attributes differ, installs them and sends
     * both caches stale, keeping the metadata; otherwise the line is left as
     * it was.
     */
    method SetAttrsList(attrsList: AttrsList) returns (changed: bool)
      requires Valid()
      modifies this
      ensures Valid()
      ensures changed <==> attrsList != old(this.attrsList)
      ensures !changed ==> unchanged(this)
      ensures changed ==>
        && this.attrsList == attrsList
        && shapeOpt == old(shapeOpt).SetUnused() && layoutOpt == old(layoutOpt).SetUnused()
        && ShapeOpt() == None && LayoutOpt() == None
        && metadata == old(metadata)
        && text == old(text) && ending == old(ending) && align == old(align) && shaping == old(shaping)
    {
      if attrsList != this.attrsList {
        this.attrsList := attrsList;
        ResetShaping();
        changed := true;
      } else {
        changed := false;
      }
    }

    /**
     * `set_align`: when the alignment differs, installs it and sends only the
     * layout stale; the shape cache and the metadata are untouched.
     */
    method SetAlign(align: Option<Align>) returns (changed: bool)
      requires Valid()
      modifies this
      ensures Valid()
      ensures changed <==> align != old(this.align)
      ensures !changed ==> unchanged(this)
      ensures changed ==>
        && this.align == align
        && layoutOpt == old(layoutOpt).SetUnused() && LayoutOpt() == None
        && shapeOpt == old(shapeOpt) && ShapeOpt() == old(ShapeOpt())
        && metadata == old(metadata)
        && text == old(text) && ending == old(ending) && attrsList == old(attrsList) && shaping == old(shaping)
    {
      if align != this.align {
        this.align := align;
        ResetLayout();
        changed := true;
      } else {
        changed := false;
      }
    }

    /**
     * `append`: the other line's text goes on the end. When the two default
     * attributes differ, the appended bytes first get a span with the other
     * line's defaults; then every span of the other line is laid over the
     * result moved up by the old text length. The line's content changed, so
     * it is reset; its ending, alignment and shaping mode stay.
     */
    method Append(other: BufferLine)
      requires other != this
      modifies this
      ensures Valid()
      ensures text == old(text) + other.text
      ensures attrsList == AppendedAttrs(old(attrsList), |old(text)|, |other.text|, other.attrsList)
      ensures metadata == None
      ensures shapeOpt == old(shapeOpt).SetUnused() && layoutOpt == old(layoutOpt).SetUnused()
      ensures ShapeOpt() == None && LayoutOpt() == None
      ensures ending == old(ending) && align == old(align) && shaping == old(shaping)
    {
      attrsList := AppendList(attrsList, |text|, |other.text|, other.attrsList);
      text := text + other.text;
      Reset();
    }

    /**
     * `split_off`: the bytes from `index` on, and the spans over them rebased
     * to 0, move to a new line that copies this line's ending, shaping mode
     * and alignment and starts with empty caches and no metadata. This line
     * keeps the bytes before `index` and is reset.
     */
    method SplitOff(index: nat) returns (next: BufferLine)
      requires index <= |text|
      modifies this
      ensures Valid() && fresh(next) && next.Valid()
      ensures text == old(text)[..index] && next.text == old(text)[index..]
      ensures old(text) == text + next.text && |text| == index
      ensures attrsList == AttrsSpans.SplitOff(old(attrsList), index).0
      ensures next.attrsList == AttrsSpans.SplitOff(old(attrsList), index).1
      ensures AppendedAttrs(attrsList, |text|, |next.text|, next.attrsList) == old(attrsList)
      ensures metadata == None
      ensures shapeOpt == old(shapeOpt).SetUnused() && layoutOpt == old(layoutOpt).SetUnused()
      ensures ShapeOpt() == None && LayoutOpt() == None
      ensures ending == old(ending) && align == old(align) && shaping == old(shaping)
      ensures next.ending == ending && next.shaping == shaping && next.align == align
      ensures next.shapeOpt == Cached.Empty && next.layoutOpt == Cached.Empty && next.metadata == None
    {
      var tail := text[index..];
      var parts := AttrsSpans.SplitOff(attrsList, index);
      SplitThenAppend(attrsList, index, |tail|);
      assert text == text[..index] + tail;
      text := text[..index];
      attrsList := parts.0;
      Reset();
      next := new BufferLine(tail, ending, parts.1, shaping);
      next.align := align;
    }

    /**
     * `shape`: rebuilds the shape when it is stale, handing the engine the
     * stale shape as scratch (or an empty one), installs it and sends the
     * layout stale; a current shape is returned as it is, with nothing built
     * and the layout untouched.
     */
    method Shape(fontSystem: FontSystem, tabWidth: U16) returns (shape: ShapeLine)
      requires Valid()
      modifies this`shapeOpt, this`layoutOpt, this`shapedFrom
      ensures Valid()
      ensures shapeOpt == Used(shape) && ShapeOpt() == Some(shape)
      ensures old(shapeOpt).Used? ==> shape == old(shapeOpt).payload && unchanged(this)
      ensures old(shapeOpt).IsUnused() ==>
        && shape == fontSystem.build(old(shapeOpt).Stored().GetOr(EmptyShape), text, attrsList, shaping, tabWidth)
        && layoutOpt == old(layoutOpt).SetUnused() && LayoutOpt() == None
    {
      if shapeOpt.IsUnused() {
        var taken := shapeOpt.TakeUnused();
        shapeOpt := taken.1;
        var line := taken.0.GetOr(EmptyShape);
        line := fontSystem.build(line, text, attrsList, shaping, tabWidth);
        shapeOpt := shapeOpt.SetUsed(line);
        shapedFrom := ShapeInputs(text, ending, attrsList, shaping);
        layoutOpt := layoutOpt.SetUnused();
      }
      shape := shapeOpt.payload;
    }

    /**
     * `layout`: rebuilds the layout when it is stale. The stale rows (or no
     * rows) are taken as scratch first; then the shape is obtained through
     * `Shape`, which may rebuild it; then the engine lays it out with the
     * line's alignment. Afterwards both caches are current. A current layout
     * is returned as it is, with nothing built.
     */
    method Layout(fontSystem: FontSystem, fontSize: F32, widthOpt: Option<F32>, wrap: Wrap,
                  matchMonoWidth: Option<F32>, tabWidth: U16)
      returns (layout: seq<LayoutLine>)
      requires Valid()
      modifies this`shapeOpt, this`layoutOpt, this`shapedFrom, this`laidOutFrom
      ensures Valid()
      ensures layoutOpt == Used(layout) && LayoutOpt() == Some(layout)
      ensures shapeOpt.Used? && ShapeOpt().Some?
      ensures old(layoutOpt).Used? ==> layout == old(layoutOpt).payload && unchanged(this)
      ensures old(layoutOpt).IsUnused() ==>
        && (old(shapeOpt).Used? ==> shapeOpt == old(shapeOpt))
        && (old(shapeOpt).IsUnused() ==>
              shapeOpt.payload == fontSystem.build(old(shapeOpt).Stored().GetOr(EmptyShape),
                                                   text, attrsList, shaping, tabWidth))
        && layout == fontSystem.layoutToBuffer(shapeOpt.payload, fontSize, widthOpt, wrap, align,
                                               old(layoutOpt).Stored().GetOr([]), matchMonoWidth)
    {
      if layoutOpt.IsUnused() {
        var align := this.align;
        var taken := layoutOpt.TakeUnused();
        layoutOpt := taken.1;
        var rows := taken.0.GetOr([]);
        var shape := Shape(fontSystem, tabWidth);
        rows := fontSystem.layoutToBuffer(shape, fontSize, widthOpt, wrap, align, rows, matchMonoWidth);
        layoutOpt := layoutOpt.SetUsed(rows);
        laidOutFrom := LayoutInputs(shape, align);
      }
      layout := layoutOpt.payload;
    }

    /** `set_metadata`: stores the tag until the next reset; nothing else changes. */
    method SetMetadata(metadata: Usize)
      modifies this`metadata
      ensures Valid() == old(Valid())
      ensures this.metadata == Some(metadata)
    {
      this.metadata := Some(metadata);
    }

    /**
     * `reclaim_attrs`: hands out the attributes list, leaving a default one
     * behind. The line's caches then no longer match its contents, so it must
     * be given new contents with `ResetNew` before further use.
     */
    method ReclaimAttrs() returns (attrs: AttrsList)
      modifies this`attrsList
      ensures attrs == old(attrsList)
      ensures attrsList == New(NewAttrs)
    {
      attrs := attrsList;
      attrsList := New(NewAttrs);
    }

    /**
     * `reclaim_text`: takes the text's storage, leaving the line with no text,
     * and hands it out cleared. As with `ReclaimAttrs`, the line must be given
     * new contents with `ResetNew` before further use.
     */
    method ReclaimText() returns (storage: seq<Byte>)
      modifies this`text
      ensures storage == [] && text == []
    {
      storage := text;
      text := [];
      storage := [];
    }
  }
}
