/**
 * displayPalette: the palette container as an abstract state (its grid
 * column count and its sequence of cards) and the activation rule of a card.
 */
module Render {
  import opened Wrappers
  import opened Palette
  import opened HexColor
  import opened HslColor

  /** The static hint line of every card. */
  const CopyHint: string := "Click para copiar"

  /** One rendered colour card. */
  datatype Card = Card(
    swatch: Option<string>,  // the swatch's background colour
    text: string,            // the text of the code line
    hint: string,            // the text of the hint line
    ariaLabel: string,       // the card's accessible label
    code: Option<string>)    // the value the card's handlers pass to the copy operation

  /** A JavaScript value as a string argument or inside a template literal: `undefined` reads "undefined". */
  function Stringify(v: Option<string>): string {
    match v
    case Some(s) => s
    case None => "undefined"
  }

  /** Assigning to `textContent`: `undefined` clears the text. */
  function TextContent(v: Option<string>): string {
    match v
    case Some(s) => s
    case None => ""
  }

  /** The accessible label of a card whose code is `code`. */
  function AriaLabel(code: Option<string>): string {
    "Color " + Stringify(code) + ". " + CopyHint
  }

  /**
   * The card built for one palette entry: the swatch is painted with its colour,
   * the code line and the accessible label show its code (an undefined code
   * clears the line and reads "undefined" in the label), and the handlers copy its code.
   */
  function CardFor(e: Entry): (card: Card)
    ensures card.swatch == e.color && card.code == e.code && card.hint == "Click para copiar"
    ensures e.code.Some? ==>
      card.text == e.code.value && card.ariaLabel == "Color " + e.code.value + ". Click para copiar"
    ensures e.code.None? ==>
      card.text == "" && card.ariaLabel == "Color undefined. Click para copiar"
  {
    Card(e.color, TextContent(e.code), CopyHint, AriaLabel(e.code), e.code)
  }

  /** The cards of a palette: one per entry, in palette order, each showing and copying its own entry's code. */
  function CardsFor(palette: seq<Entry>): (cards: seq<Card>)
    ensures |cards| == |palette|
    ensures forall k :: 0 <= k < |palette| ==>
      cards[k].code == palette[k].code && cards[k].swatch == palette[k].color
  {
    seq(|palette|, k requires 0 <= k < |palette| => CardFor(palette[k]))
  }

  /** The grid column count after rendering `length` entries over a grid of `current` columns. */
  function ColumnsFor(length: nat, current: nat): (columns: nat)
    ensures length == 6 || length == 9 ==> columns == 3
    ensures length == 8 ==> columns == 4
    ensures length !in {6, 8, 9} ==> columns == current
  {
    if length == 6 then 3
    else if length == 8 then 4
    else if length == 9 then 3
    else current
  }

  /** A user action on a card. */
  datatype Event = Click | KeyDown(key: string)

  /** What a card's handlers do: the text passed to the copy operation, if any, and whether the default action is suppressed. */
  datatype Reaction = Reaction(copied: Option<string>, preventDefault: bool)

  /**
   * The card's click and keydown handlers: a click, Enter or Space copies the
   * card's code (the keys also suppress the default action); any other key does nothing.
   */
  function Activate(card: Card, ev: Event): (r: Reaction)
    ensures r.copied.Some? <==> ev.Click? || ev.key == "Enter" || ev.key == " "
    ensures r.copied.Some? ==> r.copied.value == Stringify(card.code)
    ensures r.preventDefault <==> ev.KeyDown? && (ev.key == "Enter" || ev.key == " ")
  {
    match ev
    case Click => Reaction(Some(Stringify(card.code)), false)
    case KeyDown(key) =>
      if key == "Enter" || key == " " then Reaction(Some(Stringify(card.code)), true)
      else Reaction(None, false)
  }

  /** The palette container: its grid column count and its cards. */
  class Container {
    var columns: nat
    var cards: seq<Card>

    constructor (columns: nat, cards: seq<Card>)
      ensures this.columns == columns && this.cards == cards
    {
      this.columns := columns;
      this.cards := cards;
    }

    /** displayPalette: clear, set the column count, append one card per entry. */
    method Display(palette: seq<Entry>)
      modifies this
      ensures columns == ColumnsFor(|palette|, old(columns))
      ensures cards == CardsFor(palette)
    {
      cards := [];
      var size := |palette|;
      if size == 6 {
        columns := 3;
      } else if size == 8 {
        columns := 4;
      } else if size == 9 {
        columns := 3;
      }
      for index := 0 to |palette|
        invariant columns == ColumnsFor(|palette|, old(columns))
        invariant |cards| == index
        invariant forall k :: 0 <= k < index ==> cards[k] == CardFor(palette[k])
      {
        cards := cards + [CardFor(palette[index])];
      }
    }
  }

  /** Card k shows entry k: its swatch, its code line, the hint and the accessible label (an undefined code reads "undefined" in the label and clears the code line). */
  lemma CardsShowEntries(palette: seq<Entry>, k: nat)
    requires k < |palette|
    ensures |CardsFor(palette)| == |palette|
    ensures var card := CardsFor(palette)[k];
      card.swatch == palette[k].color && card.code == palette[k].code && card.hint == CopyHint &&
      (palette[k].code.Some? ==>
        card.text == palette[k].code.value &&
        card.ariaLabel == "Color " + palette[k].code.value + ". Click para copiar") &&
      (palette[k].code.None? ==>
        card.text == "" && card.ariaLabel == "Color undefined. Click para copiar")
  {
  }

  /** A click copies exactly the code of the card's entry; so do Enter and Space, which also suppress the default; any other key does nothing. */
  lemma ActivationCopiesCode(palette: seq<Entry>, k: nat, ev: Event)
    requires k < |palette|
    ensures var r := Activate(CardsFor(palette)[k], ev);
      r.copied.Some? <==> (ev.Click? || ev.key == "Enter" || ev.key == " ")
    ensures var r := Activate(CardsFor(palette)[k], ev);
      r.copied.Some? ==> r.copied.value == Stringify(palette[k].code)
    ensures Activate(CardsFor(palette)[k], ev).preventDefault <==> ev.KeyDown? && (ev.key == "Enter" || ev.key == " ")
  {
  }

  /**
   * Generating and rendering a palette of a supported size in a known format:
   * the grid is set from the size, there is one card per entry, and clicking
   * card k copies exactly the colour its swatch shows, a text of that format.
   */
  lemma RenderedPalette(size: int, format: string, rand: seq<nat>, current: nat, k: nat)
    requires format == "hex" || format == "hsl"
    requires DrawsSuffice(format, rand, EntryCount(size))
    requires k < EntryCount(size)
    ensures var p := PaletteOf(size, format, rand);
      |CardsFor(p)| == size &&
      (size == 6 || size == 9 ==> ColumnsFor(|p|, current) == 3) &&
      (size == 8 ==> ColumnsFor(|p|, current) == 4)
    ensures var card := CardsFor(PaletteOf(size, format, rand))[k];
      card.swatch.Some? && Activate(card, Click).copied == card.swatch && card.text == card.swatch.value &&
      (format == "hex" ==> IsHexColor(card.swatch.value)) &&
      (format == "hsl" ==> IsHslColor(card.swatch.value))
  {
    PaletteShape(size, format, rand);
  }
}
