/**
 * The palette builder: `size` entries `{color, code}` generated one after
 * another from a shared stream of random draws, in the requested format.
 *
 * The stream `rand` holds the values of successive `Math.floor(Math.random() * n)`
 * calls: a "hex" entry consumes six draws in [0, 16), an "hsl" entry three
 * draws (hue in [0, 360), then saturation and lightness in [0, 100)), and an
 * entry of any other format consumes none.
 */
module Palette {
  import opened Wrappers
  import opened HexColor
  import opened HslColor

  /** One palette entry; a field is None where the source leaves it `undefined`. */
  datatype Entry = Entry(color: Option<string>, code: Option<string>)

  const HslDrawCount: nat := 3

  /** How many entries `for (let i = 0; i < size; i++)` produces. */
  function EntryCount(size: int): nat {
    if size < 0 then 0 else size
  }

  /** The draws of the k-th hex entry. */
  function HexDraws(rand: seq<nat>, k: nat): seq<nat>
    requires HexDigitCount * (k + 1) <= |rand|
  {
    rand[HexDigitCount * k .. HexDigitCount * (k + 1)]
  }

  /** The draws of the k-th HSL entry. */
  function HslDraws(rand: seq<nat>, k: nat): Hsl
    requires HslDrawCount * (k + 1) <= |rand|
  {
    Hsl(rand[HslDrawCount * k], rand[HslDrawCount * k + 1], rand[HslDrawCount * k + 2])
  }

  /** The stream holds the in-range draws that `n` entries of `format` consume. */
  predicate DrawsSuffice(format: string, rand: seq<nat>, n: nat) {
    if format == "hex" then
      HexDigitCount * n <= |rand| && forall j :: 0 <= j < HexDigitCount * n ==> rand[j] < |Letters|
    else if format == "hsl" then
      HslDrawCount * n <= |rand| && forall k :: 0 <= k < n ==> InRange(HslDraws(rand, k))
    else
      true
  }

  /** The entry generated in the k-th iteration of the loop. */
  function EntryAt(format: string, rand: seq<nat>, k: nat): Entry
    requires DrawsSuffice(format, rand, k + 1)
  {
    if format == "hex" then
      var color := HexText(HexDraws(rand, k));
      Entry(Some(color), Some(color))
    else if format == "hsl" then
      var c := HslDraws(rand, k);
      var color := GenerateRandomHsl(c.hue, c.saturation, c.lightness);
      Entry(Some(color), Some(color))
    else
      Entry(None, None)
  }

  /** The palette as a value: entry k is the one generated in iteration k. */
  function PaletteOf(size: int, format: string, rand: seq<nat>): seq<Entry>
    requires DrawsSuffice(format, rand, EntryCount(size))
  {
    seq(EntryCount(size), k requires 0 <= k < EntryCount(size) => EntryAt(format, rand, k))
  }

  /** generatePalette: pushes one entry per iteration, drawing from `rand` in order. */
  method GeneratePalette(size: int, format: string, rand: seq<nat>) returns (palette: seq<Entry>)
    requires DrawsSuffice(format, rand, EntryCount(size))
    ensures palette == PaletteOf(size, format, rand)
  {
    palette := [];
    var next := 0;  // how many draws the loop has taken from the stream
    var i := 0;
    while i < size
      invariant 0 <= i <= EntryCount(size)
      invariant next == if format == "hex" then HexDigitCount * i else if format == "hsl" then HslDrawCount * i else 0
      invariant |palette| == i
      invariant forall k :: 0 <= k < i ==> palette[k] == EntryAt(format, rand, k)
    {
      var color: Option<string> := None;
      var code: Option<string> := None;
      if format == "hex" {
        var c := GenerateRandomHex(rand[next .. next + HexDigitCount]);
        next := next + HexDigitCount;
        color := Some(c);
        code := color;
      } else if format == "hsl" {
        var draws := HslDraws(rand, i);
        assert draws == Hsl(rand[next], rand[next + 1], rand[next + 2]);
        assert InRange(draws);
        var c := GenerateRandomHsl(draws.hue, draws.saturation, draws.lightness);
        next := next + HslDrawCount;
        color := Some(c);
        code := color;
      }
      assert Entry(color, code) == EntryAt(format, rand, i);
      palette := palette + [Entry(color, code)];
      i := i + 1;
    }
  }

  /** The entry carries a colour of `format`'s shape, or is blank for an unknown format. */
  predicate HasFormat(e: Entry, format: string) {
    if format == "hex" then e.color.Some? && IsHexColor(e.color.value)
    else if format == "hsl" then e.color.Some? && IsHslColor(e.color.value)
    else e.color.None? && e.code.None?
  }

  /** `size` entries (none for a negative size), each with code == color and the requested shape. */
  lemma PaletteShape(size: int, format: string, rand: seq<nat>)
    requires DrawsSuffice(format, rand, EntryCount(size))
    ensures var p := PaletteOf(size, format, rand);
      |p| == EntryCount(size) &&
      forall k :: 0 <= k < |p| ==> p[k].code == p[k].color && HasFormat(p[k], format)
  {
    var p := PaletteOf(size, format, rand);
    forall k | 0 <= k < |p|
      ensures p[k].code == p[k].color && HasFormat(p[k], format)
    {
      if format == "hex" {
        HexTextShape(HexDraws(rand, k));
      }
    }
  }

  /** Entry k's colour decodes to the k-th block of draws: entries follow the order of generation. */
  lemma PaletteDrawOrder(size: int, format: string, rand: seq<nat>, k: nat)
    requires DrawsSuffice(format, rand, EntryCount(size))
    requires k < EntryCount(size)
    ensures format == "hex" ==>
      PaletteOf(size, format, rand)[k].color.Some? &&
      DecodeHex(PaletteOf(size, format, rand)[k].color.value) == Some(HexDraws(rand, k))
    ensures format == "hsl" ==>
      PaletteOf(size, format, rand)[k].color.Some? &&
      ParseHsl(PaletteOf(size, format, rand)[k].color.value) == Some(HslDraws(rand, k))
  {
    if format == "hex" {
      DecodeHexText(HexDraws(rand, k));
    }
  }

  /** A shorter palette from the same stream is a prefix of a longer one. */
  lemma PalettePrefix(size: int, m: nat, format: string, rand: seq<nat>)
    requires DrawsSuffice(format, rand, EntryCount(size))
    requires m <= EntryCount(size)
    ensures DrawsSuffice(format, rand, m)
    ensures PaletteOf(m, format, rand) == PaletteOf(size, format, rand)[..m]
  {
  }
}
