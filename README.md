# BufferLine: a line of text with lazily rebuilt shape and layout caches

This project models `BufferLine` from cosmic-text (`src/buffer_line.rs`): one
line of text with its line ending, its attributes list (default attributes
plus byte-range spans), an optional alignment, a shaping mode, an opaque
metadata tag, and two caches — the shape built by the shaping engine and the
layout (wrapped rows) built from the shape.

The model has four modules:

- `TextTypes` (`types.dfy`): `Option`, the integer widths (`Byte`, `U16`,
  `Usize`), `F32` kept as a bit pattern, and the enumerations `LineEnding`,
  `Shaping`, `Align` and `Wrap`.
- `CachedState` (`cached.dfy`): `Cached<T>`, the three-state cache slot
  (`Empty`, `Unused` = stale but keeping its storage, `Used` = current), with
  the operations the line uses: `set_unused`, `is_unused`, `take_unused`,
  `set_used` and `get`.
- `AttrsSpans` (`attrs_list.dfy`): the attributes list. Its range map is
  canonical (sorted, disjoint, touching ranges with equal attributes merged),
  so it is fixed by the attributes it gives each byte; the model keeps the
  overrides as a map from byte offset to attributes, which makes the list
  equality that the setters compare exactly the source's. `SpansIter`
  recovers the maximal ranges in ascending order. `AddSpan` and `SplitOff`
  are specified by what each byte ends up carrying.
- `Line` (`buffer_line.dfy`): the class `BufferLine` with the source's fields,
  and its methods. Two ghost fields record what the current shape and
  layout were built from; `Valid()` says a current shape matches the current
  text, ending, attributes and shaping mode, and a current layout matches
  the current shape and alignment (so a current layout implies a current
  shape). Every constructor establishes `Valid()` and every method except
  the two reclaim methods keeps it.

The shaping engine (`ShapeLine::build`) and the layout engine
(`ShapeLine::layout_to_buffer`) are the two function-valued fields of a
`FontSystem` value: deterministic functions that receive the scratch value
(the stale payload handed back by `take_unused`, or `ShapeLine::empty()` /
an empty row list) together with their inputs. The accessors `text`,
`ending`, `attrs_list`, `align` and `metadata` are the class's fields, read
directly; `into_text` is reading the `text` field of a line that is then
dropped.

`reset_new` sends each cache stale with `set_unused`, which leaves an `Empty`
cache `Empty` (only a `Used` cache becomes `Unused`), and it also clears the
alignment (src/buffer_line.rs:57-59).

## Model

| member | source | states |
|---|---|---|
| `CachedState.Cached.SetUnused` | src/buffer_line.rs:196-202 | afterwards the slot holds no current value, and it keeps whatever payload it held (a current one becomes stale storage) |
| `CachedState.Cached.IsUnused` | src/buffer_line.rs:207 | true exactly when the slot holds no current value (Empty or Unused); a current slot always holds its value |
| `CachedState.Cached.TakeUnused` | src/buffer_line.rs:209-212 | a stale slot hands out its payload and becomes Empty; an Empty or current slot hands out nothing and is left as it was |
| `CachedState.Cached.SetUsed` | src/buffer_line.rs:220 | afterwards `get` yields exactly the installed value |
| `CachedState.Cached.Get` | src/buffer_line.rs:227-229 | yields a value exactly when the slot is current, and then it is the slot's payload |
| `AttrsSpans.New` | src/buffer_line.rs:286 | a list with the given defaults, no spans, and every byte carrying the defaults |
| `AttrsSpans.AddSpan` | src/buffer_line.rs:164-165 | the bytes of [start, end) take the new attributes, every other byte keeps its own; the defaults stay; an empty range changes nothing |
| `AttrsSpans.SplitOff` | src/buffer_line.rs:180 | the first part keeps the overrides before the index and gives those bytes the same attributes; the second part has the same defaults and gives byte p what byte p + index had |
| `AttrsSpans.SpansIter` | src/buffer_line.rs:168 | the spans are non-empty, ascending, disjoint and maximal, each agrees with the overrides, and together they cover exactly the overridden bytes |
| `AttrsSpans.AppendBase` | src/buffer_line.rs:162-166 | when the defaults differ, the appended bytes [len, len + other length) take the other list's defaults; otherwise the list is unchanged |
| `AttrsSpans.AppendedAttrs` | src/buffer_line.rs:159-172 | every span of the other list appears shifted by the old text length; the appended bytes not covered by one carry the other's defaults when the defaults differ; the rest of the receiver is untouched |
| `AttrsSpans.LayRunsNext` | src/buffer_line.rs:168-172 | one turn of the loop over `spans_iter`: laying the first i + 1 spans is one more `add_span`, of span i moved up by len, over the first i |
| `AttrsSpans.LayRunsAt` | src/buffer_line.rs:168-172 | the loop's invariant, byte by byte: after laying the first i runs of the other list, each byte carries what the other list's overrides on the bytes those runs cover, moved up by len, give it over the base |
| `AttrsSpans.LaidAll` | src/buffer_line.rs:168-172 | once the laid runs cover every override of the other list, the result is the whole other list moved up by len over the base |
| `AttrsSpans.LayRunsAppends` | src/buffer_line.rs:159-172 | laying every span `spans_iter` yields, moved up by len, over the list from the defaults step gives exactly `AppendedAttrs` |
| `AttrsSpans.AppendList` | src/buffer_line.rs:159-172 | the attributes half of `append`, with its loop over `spans_iter`: returns exactly `AppendedAttrs` of the inputs |
| `AttrsSpans.AppendKeepsFormatting` | src/buffer_line.rs:158-175 | when both lists keep their spans within their text, after append the first len bytes look as they did in the receiver and the appended bytes look as they did in the other line, and the spans stay within the joined text |
| `AttrsSpans.AppendExample` | src/buffer_line.rs:158-175 | appending "lo" (byte 0 bold, other defaults) to "hel": bytes 0-2 keep the receiver's defaults, byte 3 is bold, byte 4 has the other line's defaults |
| `AttrsSpans.SplitThenAppend` | src/buffer_line.rs:178-186 | splitting a list at an index and appending the two parts back over that index gives the original list |
| `Line.BufferLine.constructor` | src/buffer_line.rs:26-42 | `new`: the given text, ending, attributes and shaping, no alignment, no metadata, both caches Empty, and the line is coherent |
| `Line.BufferLine.EmptyLine` | src/buffer_line.rs:282-293 | `empty`: empty text, the default ending, default attributes, advanced shaping, no alignment or metadata, Empty caches |
| `Line.BufferLine.ResetNew` | src/buffer_line.rs:47-62 | installs the given text, ending, attributes and shaping unconditionally, clears alignment and metadata, sends both caches stale keeping their storage; the line is coherent again |
| `Line.BufferLine.ShapeOpt` | src/buffer_line.rs:227-229 | the shape exactly when the shape cache is current |
| `Line.BufferLine.LayoutOpt` | src/buffer_line.rs:264-266 | the layout exactly when the layout cache is current |
| `Line.BufferLine.ResetLayout` | src/buffer_line.rs:201-203 | only the layout goes stale; the shape's coherence is unaffected |
| `Line.BufferLine.ResetShaping` | src/buffer_line.rs:195-198 | both caches go stale, keeping their storage; the metadata is not touched |
| `Line.BufferLine.Reset` | src/buffer_line.rs:189-192 | both caches go stale and the metadata is cleared |
| `Line.BufferLine.SetText` | src/buffer_line.rs:73-90 | returns true exactly when the text, the ending or the attributes differ; then all three are installed, metadata is None and neither cache is current; otherwise nothing at all changes |
| `Line.BufferLine.SetEnding` | src/buffer_line.rs:106-114 | returns true exactly when the ending differs; then neither cache is current and the metadata and other fields are kept; otherwise nothing changes |
| `Line.BufferLine.SetAttrsList` | src/buffer_line.rs:125-133 | returns true exactly when the attributes differ; then neither cache is current and the metadata and other fields are kept; otherwise nothing changes |
| `Line.BufferLine.SetAlign` | src/buffer_line.rs:145-153 | returns true exactly when the alignment differs; then only the layout goes stale, the shape cache and the metadata are unchanged; otherwise nothing changes |
| `Line.BufferLine.Append` | src/buffer_line.rs:158-175 | the text is the old text followed by the other's; the attributes are `AppendedAttrs` of the old ones; metadata None, both caches stale; ending, alignment and shaping kept |
| `Line.BufferLine.SplitOff` | src/buffer_line.rs:178-186 | for index within the text: the old text is this text followed by the new line's, this text has length index; the attributes are the two parts of the split and append back to the old list; the new line copies ending, shaping and alignment, has Empty caches and no metadata; this line is reset |
| `Line.BufferLine.Shape` | src/buffer_line.rs:207-224 | afterwards the shape cache is current and holds the result; if it already was, nothing changes and nothing is built; otherwise the result is the engine's build from the stale payload (or the empty shape) and the current inputs, and the layout goes stale |
| `Line.BufferLine.Layout` | src/buffer_line.rs:231-261 | afterwards both caches are current; if the layout already was, nothing changes; otherwise the shape is reused if current or rebuilt, and the rows are the engine's layout of that shape with the line's alignment, from the stale rows (or none) |
| `Line.BufferLine.SetMetadata` | src/buffer_line.rs:275-277 | the metadata becomes the given tag; coherence is unaffected |
| `Line.BufferLine.ReclaimAttrs` | src/buffer_line.rs:298-300 | returns the attributes list and leaves a default one in its place |
| `Line.BufferLine.ReclaimText` | src/buffer_line.rs:305-309 | returns an empty text and leaves the line's text empty |

## Left out

- `FontSystem` is a value holding the two engine functions; the engines' own mutation of the font system (its shape buffer and font caches) is not modelled.
- The engines' results are not shown to be independent of the scratch value they are given; that the reused storage affects only allocation is a property of the engines, which are not part of this model. So "recomputing after `reset_new` equals building a fresh line" is not stated.
- The `f32` parameters `font_size`, `width_opt` and `match_mono_width` are passed through as bit patterns and never interpreted.
- Allocation and capacity reuse (`text.clear()` keeping capacity, `Vec::with_capacity(1)`) are not observable; only the hand-back of the stale payload is modelled.
- `String::split_off` panics at an index that is not a UTF-8 character boundary; the text is a byte sequence and only `index <= |text|` is required.
- The internals of `AttrsList::add_span` and `AttrsList::split_off` (range-map overlap resolution) are specified by their effect on each byte, not by their algorithm.
- The derived `Clone` and `Debug` implementations and the `no_std` imports.
