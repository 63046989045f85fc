/**
 * The HSL colour generator: a hue draw in [0, 360) and saturation and
 * lightness draws in [0, 100) become the text `hsl(H, S%, L%)`.
 */
module HslColor {
  import opened Wrappers
  import opened Decimal

  datatype Hsl = Hsl(hue: nat, saturation: nat, lightness: nat)

  /** The ranges floor(random * 360) and floor(random * 100) can produce. */
  predicate InRange(c: Hsl) {
    c.hue < 360 && c.saturation < 100 && c.lightness < 100
  }

  /**
   * generateRandomHSL, with its three draws as parameters: the text reads back
   * as exactly those draws, so it has the HSL shape.
   */
  function GenerateRandomHsl(h: nat, s: nat, l: nat): (r: string)
    requires InRange(Hsl(h, s, l))
    ensures ParseHsl(r) == Some(Hsl(h, s, l))
    ensures IsHslColor(r)
  {
    ParseHslText(h, s, l);
    "hsl(" + FromNat(h) + ", " + FromNat(s) + "%, " + FromNat(l) + "%)"
  }

  /** Splits off the longest prefix of decimal digits. */
  function SpanDigits(t: string): (r: (string, string))
    ensures AllDigits(r.0) && r.0 + r.1 == t
    ensures r.1 == [] || !IsDigit(r.1[0])
  {
    if t != [] && IsDigit(t[0]) then
      var (d, rest) := SpanDigits(t[1..]);
      assert [t[0]] + (d + rest) == t;
      ([t[0]] + d, rest)
    else
      ([], t)
  }

  /** Reads a canonical decimal number followed by `suffix`; gives the number and what follows. */
  function ParseComponent(t: string, suffix: string): Option<(nat, string)> {
    var (d, rest) := SpanDigits(t);
    if IsCanonical(d) && |suffix| <= |rest| && rest[..|suffix|] == suffix then
      Some((ToNat(d), rest[|suffix|..]))
    else
      None
  }

  /** Reads a text of the form `hsl(H, S%, L%)` with canonical decimal components. */
  function ParseHsl(t: string): Option<Hsl> {
    if |t| < 4 || t[..4] != "hsl(" then None
    else
      match ParseComponent(t[4..], ", ")
      case None => None
      case Some((h, r1)) =>
        match ParseComponent(r1, "%, ")
        case None => None
        case Some((s, r2)) =>
          match ParseComponent(r2, "%)")
          case None => None
          case Some((l, r3)) => if r3 == [] then Some(Hsl(h, s, l)) else None
  }

  /** The shape every generated HSL colour has. */
  predicate IsHslColor(t: string) {
    ParseHsl(t).Some? && InRange(ParseHsl(t).value)
  }

  /** A digit run followed by a non-digit is split exactly there. */
  lemma {:induction false} SpanDigitsOf(d: string, rest: string)
    requires AllDigits(d)
    requires rest == [] || !IsDigit(rest[0])
    ensures SpanDigits(d + rest) == (d, rest)
  {
    if d == [] {
      assert d + rest == rest;
    } else {
      assert (d + rest)[1..] == d[1..] + rest;
      SpanDigitsOf(d[1..], rest);
      assert [d[0]] + d[1..] == d;
    }
  }

  /** The text of n followed by a suffix that does not start with a digit reads back as n. */
  lemma ParseComponentOf(n: nat, suffix: string, rest: string)
    requires suffix != [] && !IsDigit(suffix[0])
    ensures ParseComponent(FromNat(n) + suffix + rest, suffix) == Some((n, rest))
  {
    assert FromNat(n) + suffix + rest == FromNat(n) + (suffix + rest);
    SpanDigitsOf(FromNat(n), suffix + rest);
    assert (suffix + rest)[..|suffix|] == suffix;
    assert (suffix + rest)[|suffix|..] == rest;
    ToNatFromNat(n);
  }

  /** Whatever ParseComponent accepts is the text of the number it reads, the suffix, and the rest. */
  lemma ParseComponentSome(t: string, suffix: string)
    requires ParseComponent(t, suffix).Some?
    ensures var (n, rest) := ParseComponent(t, suffix).value; t == FromNat(n) + suffix + rest
  {
    var (d, rest) := SpanDigits(t);
    FromNatToNat(d);
    assert rest == rest[..|suffix|] + rest[|suffix|..];
  }

  /** Reading `hsl(H, S%, L%)` built from the decimal texts of h, s and l gives back h, s and l. */
  lemma {:induction false} ParseHslText(h: nat, s: nat, l: nat)
    ensures ParseHsl("hsl(" + FromNat(h) + ", " + FromNat(s) + "%, " + FromNat(l) + "%)") == Some(Hsl(h, s, l))
  {
    var t := "hsl(" + FromNat(h) + ", " + FromNat(s) + "%, " + FromNat(l) + "%)";
    var r2 := FromNat(l) + "%)";
    var r1 := FromNat(s) + "%, " + r2;
    assert t == "hsl(" + (FromNat(h) + ", " + r1);
    assert t[..4] == "hsl(" && t[4..] == FromNat(h) + ", " + r1;
    ParseComponentOf(h, ", ", r1);
    ParseComponentOf(s, "%, ", r2);
    assert r2 == FromNat(l) + "%)" + [];
    ParseComponentOf(l, "%)", []);
  }

  /** Distinct draws give distinct HSL colours. */
  lemma GenerateRandomHslInjective(c1: Hsl, c2: Hsl)
    requires InRange(c1) && InRange(c2)
    requires GenerateRandomHsl(c1.hue, c1.saturation, c1.lightness) == GenerateRandomHsl(c2.hue, c2.saturation, c2.lightness)
    ensures c1 == c2
  {
  }

  /** Every text of the HSL shape is exactly the generator's text for the draws it reads as. */
  lemma {:induction false} HslShapeIsGenerated(t: string)
    requires IsHslColor(t)
    ensures var c := ParseHsl(t).value; t == GenerateRandomHsl(c.hue, c.saturation, c.lightness)
  {
    var c := ParseHsl(t).value;
    var t4 := t[4..];
    var (h, r1) := ParseComponent(t4, ", ").value;
    var (s, r2) := ParseComponent(r1, "%, ").value;
    var (l, r3) := ParseComponent(r2, "%)").value;
    assert r3 == [] && c == Hsl(h, s, l);
    ParseComponentSome(t4, ", ");
    ParseComponentSome(r1, "%, ");
    ParseComponentSome(r2, "%)");
    var a, b, e := FromNat(h), FromNat(s), FromNat(l);
    assert r2 == e + "%)" by {
      assert r2 == e + "%)" + [];
    }
    assert t4 == a + ", " + (b + "%, " + (e + "%)"));
    assert t == "hsl(" + t4 by {
      assert t == t[..4] + t4;
    }
    Reassociate("hsl(", a, ", ", b, "%, ", e, "%)");
  }

  /** Concatenation of seven pieces does not depend on grouping. */
  lemma Reassociate(p0: string, p1: string, p2: string, p3: string, p4: string, p5: string, p6: string)
    ensures p0 + (p1 + p2 + (p3 + p4 + (p5 + p6))) == p0 + p1 + p2 + p3 + p4 + p5 + p6
  {
  }
}
