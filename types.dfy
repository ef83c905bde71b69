/**
 * Value types shared by the line model: the optional value, the integer widths
 * the line uses, and the small enumerations it passes to its engines.
 */
module TextTypes {

  datatype Option<+T> = None | Some(value: T) {

    /** `unwrap_or_else`: the value held, or the fallback. */
    function GetOr(fallback: T): T {
      match this
      case Some(v) => v
      case None => fallback
    }
  }

  /** One byte of the line's UTF-8 text. */
  type Byte = b: int | 0 <= b < 0x100

  /** `u16`, the width of the tab-width parameter. */
  type U16 = n: int | 0 <= n < 0x1_0000

  /** `usize` on a 64-bit target, the width of the metadata tag. */
  type Usize = n: int | 0 <= n < 0x1_0000_0000_0000_0000

  /** An `f32`, kept as its bit pattern: the line only passes it on to the layout engine. */
  datatype F32 = F32(bits: bv32)

  /** The terminator that followed the line; `NoEnding` is `LineEnding::None`. */
  datatype LineEnding = Lf | CrLf | Cr | LfCr | NoEnding

  /** `LineEnding::default()`. */
  const DefaultEnding: LineEnding := Lf

  /** How much script and direction analysis the shaping engine performs. */
  datatype Shaping = Basic | Advanced

  /** A horizontal alignment override for the line's layout. */
  datatype Align = Left | Right | Center | Justified | End

  /** The wrapping policy handed to the layout engine; `NoWrap` is `Wrap::None`. */
  datatype Wrap = NoWrap | Glyph | Word | WordOrGlyph
}
