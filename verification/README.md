# Colour-palette generator: a verified model

This project models the colour-palette pipeline of a browser page that
generates random colour palettes (`js/index.js`):

- **Hex generator** (`generateRandomHEX`): six digit draws in `[0, 16)` become
  `#` followed by six letters of the alphabet `0123456789ABCDEF`, appended one
  at a time.
- **HSL generator** (`generateRandomHSL`): a hue draw in `[0, 360)` and
  saturation and lightness draws in `[0, 100)` become the text
  `hsl(H, S%, L%)`, each number written in plain decimal.
- **Palette builder** (`generatePalette`): a loop that pushes `size` entries
  `{color, code}` with `code` equal to `color`. The format is `'hex'` or `'hsl'`.
  For any other format both fields stay `undefined`.
- **Renderer** (`displayPalette`): clears the palette container and picks the
  grid column count from the palette length (6 → 3, 8 → 4, 9 → 3, otherwise
  unchanged). It then appends one card per entry, in order. A click, or the
  key `Enter` or `' '`, passes the entry's `code` to the copy operation.

`Math.random` is an input here. The stream `rand: seq<nat>` holds the values
of the successive `Math.floor(Math.random() * n)` calls, each already in its
range. A hex entry consumes six draws, an HSL entry three, an entry of an
unknown format none. A JavaScript `undefined` field is `None` of `Option`.
Inside a template literal and as the argument of the copy operation,
`undefined` reads as the text `"undefined"`. Assigned to `textContent`, it
clears the text.

Modules: `Wrappers` (Option), `Decimal` (decimal text of naturals),
`HexColor`, `HslColor`, `Palette`, `Render`. The container is the class
`Render.Container`, with fields `columns` and `cards`. `Display` updates them
in place.

The builder does not check its arguments against its doc comment
(js/index.js:31-32: size 6, 8 or 9; format 'hex' or 'hsl'). Any integer size
is accepted, and a negative one gives an empty palette. An unknown format
gives blank entries and raises no error.

## Model

| member | source | states |
|---|---|---|
| `Decimal.FromNat` | js/index.js:26 | the decimal text of a number is non-empty, all digits, with no leading zero (it starts with '0' exactly when the number is 0) |
| `Decimal.ToNatFromNat` | js/index.js:26 | reading the decimal text of n gives back n, so distinct components give distinct texts |
| `Decimal.FromNatToNat` | js/index.js:26 | every canonical digit string is the decimal text of the number it denotes |
| `HexColor.GenerateRandomHex` | js/index.js:9-16 | the loop builds exactly `#` followed by `letters[d_i]` for the six draws, in draw order, and the result has the hex shape |
| `HexColor.HexTextShape` | js/index.js:9-16 | the colour has length 7 and starts with '#'; character i+1 is the alphabet letter of draw i, so every later character is in `0123456789ABCDEF` |
| `HexColor.LetterValue` | js/index.js:10 | read-back helper for the proofs (the source never decodes a letter): every alphabet letter has a position where indexing the alphabet gives it back |
| `HexColor.LettersDistinct` | js/index.js:10 | the letters of the alphabet are pairwise distinct: the letter at position d reads back as d |
| `HexColor.DecodeHexText` | js/index.js:10-14 | decoding a generated hex colour gives back its six draws |
| `HexColor.HexTextDecode` | js/index.js:9-16 | every text of the hex shape is the generated colour of the draws it decodes to |
| `HexColor.HexTextInjective` | js/index.js:10-14 | distinct digit draws give distinct hex colours |
| `HslColor.SpanDigits` | js/index.js:26 | read-back helper for the proofs (the source never parses digits): splitting off the leading digit run gives a digit prefix and a rest that starts with a non-digit, and together they make the input |
| `HslColor.ParseHslText` | js/index.js:26 | reading back `"hsl(" + dec(h) + ", " + dec(s) + "%, " + dec(l) + "%)"` gives exactly h, s and l |
| `HslColor.GenerateRandomHsl` | js/index.js:22-27 | the generated HSL text reads back as exactly its three draws, and so has the HSL shape with in-range components |
| `HslColor.GenerateRandomHslInjective` | js/index.js:22-27 | distinct draws give distinct HSL texts |
| `HslColor.HslShapeIsGenerated` | js/index.js:26 | every text of the HSL shape is exactly `"hsl(" + dec(h) + ", " + dec(s) + "%, " + dec(l) + "%)"` for the components it reads as |
| `Palette.GeneratePalette` | js/index.js:35-53 | the loop's palette is the palette value: entry k is the one generated from the k-th block of draws |
| `Palette.PaletteShape` | js/index.js:38-50 | the palette has `size` entries (none when `size` is negative); every entry has `code == color`; for 'hex' and 'hsl' the colour has that format's shape; for any other format both fields are undefined |
| `Palette.PaletteDrawOrder` | js/index.js:38-50 | entry k's colour decodes to the draws of iteration k, so entries follow the order of generation |
| `Palette.PalettePrefix` | js/index.js:38-50 | a palette of m entries is the first m entries of a longer palette built from the same draws |
| `Render.CardFor` | js/index.js:82-109 | the card is painted with the entry's colour, its code line and label show the entry's code (`"Color " + code + ". Click para copiar"`), the hint is fixed, and an undefined code clears the code line and reads "undefined" in the label |
| `Render.CardsFor` | js/index.js:80-125 | one card per entry, in palette order, each with its own entry's colour and code |
| `Render.Activate` | js/index.js:111-122 | a click, `Enter` or `' '` copies the card's code; only the keys suppress the default action; any other key copies nothing |
| `Render.ColumnsFor` | js/index.js:70-77 | a length of 6 or 9 gives 3 columns, 8 gives 4, any other length keeps the current column count |
| `Render.Container.Display` | js/index.js:63-126 | afterwards the column count follows the length table, and the cards are exactly one card per entry, in palette order, with nothing left from before |
| `Render.CardsShowEntries` | js/index.js:80-109 | card k shows entry k's colour and code, the fixed hint, and the label `"Color " + code + ". Click para copiar"`; an undefined code clears the code line and reads "undefined" in the label |
| `Render.ActivationCopiesCode` | js/index.js:111-122 | a click, `Enter` or `' '` on card k copies exactly entry k's code; only the keys also suppress the default action; any other key does nothing |
| `Render.RenderedPalette` | js/index.js:35-125 | after building and rendering a supported size in 'hex' or 'hsl', there is one card per entry and the grid has 3 columns for 6 or 9 entries and 4 for 8; clicking card k copies the colour its swatch shows, a text of the requested format |

## Left out

- `Math.random` and the `Math.floor(Math.random() * n)` scaling (js/index.js:13, 23-25): floating-point randomness. The draws come in as integers whose ranges are preconditions.
- `copyToClipboard` (js/index.js:136-145): an asynchronous clipboard write with success and failure branches. The model stops at the text handed to it (`Render.Reaction.copied`).
- `showToast` and its `setTimeout` hide (js/index.js:151-164): a timer-driven notification. The source sets a new two-second timer on every call and never cancels one.
- The `DOMContentLoaded` handler, the button wiring and the `parseInt` of the select values (js/index.js:170-195): event wiring and page input. `Palette.GeneratePalette` accepts any integer size.
- DOM details of a card (js/index.js:82-109): element kinds, CSS class names, `role="button"` and `tabindex="0"`. A card keeps its swatch colour, code line, hint, label and the code its handlers copy.
- `Render.ColumnsFor`: the column setting is a count. The source writes the CSS text `repeat(3, 1fr)` or `repeat(4, 1fr)`.
- `Render.Activate`: `preventDefault` is a flag in the result. The browser's default key action itself is not modelled.
- An unknown format produces entries with undefined fields. It does not raise an error. The model follows the code, so `Palette.PaletteShape` states the blank entries.
