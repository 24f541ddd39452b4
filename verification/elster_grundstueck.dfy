/** The property part of a property-tax declaration in ELSTER's field
    vocabulary: the location record with its house-number split, the parcel
    records, and the land area computed from the parcels' shares. */
module ElsterGrundstueck {
  import opened Wrappers
  import Digits

  /** Python's `value or None`: an absent or empty text becomes `None`. */
  function NoneIfEmpty(s: Option<string>): (r: Option<string>)
    ensures r.Some? <==> s.Some? && s.value != ""
    ensures r.Some? ==> r.value == s.value
  {
    if s.Some? && s.value != "" then s else None
  }

  /** The number of leading digits of `s`, counting at most `limit`. */
  function LeadingDigits(s: string, limit: nat): (n: nat)
    ensures n <= limit && n <= |s|
    ensures Digits.AllDigits(s[..n])
    ensures n < limit && n < |s| ==> !Digits.IsDigit(s[n])
  {
    if limit == 0 || |s| == 0 || !Digits.IsDigit(s[0]) then 0
    else
      var n := 1 + LeadingDigits(s[1..], limit - 1);
      assert s[..n] == [s[0]] + s[1..][..n - 1];
      n
  }

  /** The house number proper holds at most this many digits. */
  const HAUSNUMMER_DIGITS: nat := 4

  /** A split of a house number into its number and its suffix: together
      they spell the input, the number is at most four digits, and it takes
      every digit it can. */
  predicate IsSplit(s: string, number: string, zusatz: string) {
    && number + zusatz == s
    && |number| <= HAUSNUMMER_DIGITS
    && Digits.AllDigits(number)
    && (|number| < HAUSNUMMER_DIGITS && zusatz != [] ==> !Digits.IsDigit(zusatz[0]))
  }

  /** The text of an optional part, empty when absent. */
  function Text(o: Option<string>): string {
    if o.Some? then o.value else ""
  }

  /** Splits a house number into the number (leading digits, at most four)
      and the suffix (the rest, case kept); an empty part becomes `None`.
      Joining the parts gives the house number back. */
  function SplitHausnummer(s: string): (r: (Option<string>, Option<string>))
    ensures IsSplit(s, Text(r.0), Text(r.1))
    ensures r.0 != Some("") && r.1 != Some("")
  {
    var n := LeadingDigits(s, HAUSNUMMER_DIGITS);
    assert s[..n] + s[n..] == s;
    (NoneIfEmpty(Some(s[..n])), NoneIfEmpty(Some(s[n..])))
  }

  /** There is only one split of a house number. */
  lemma {:induction false} SplitUnique(s: string, n1: string, z1: string, n2: string, z2: string)
    requires IsSplit(s, n1, z1) && IsSplit(s, n2, z2)
    ensures n1 == n2 && z1 == z2
  {
    SplitChars(s, n1, z1);
    SplitChars(s, n2, z2);
    if |n1| < |n2| {
      assert false;
    } else if |n2| < |n1| {
      assert false;
    } else {
      assert n1 == s[..|n1|] == n2;
      assert z1 == s[|n1|..] == z2;
    }
  }

  /** A valid split whose number part is not empty is the one the house
      number gets. */
  lemma SplitExample(s: string, number: string, zusatz: string)
    requires IsSplit(s, number, zusatz) && number != ""
    ensures SplitHausnummer(s) == (Some(number), if zusatz == "" then None else Some(zusatz))
  {
    var r := SplitHausnummer(s);
    SplitUnique(s, Text(r.0), Text(r.1), number, zusatz);
  }

  /** The house numbers of the location tests that carry a suffix split as
      those tests expect, the suffix keeping its case. */
  lemma HausnummerSuffixExamples()
    ensures SplitHausnummer("1a") == (Some("1"), Some("a"))
    ensures SplitHausnummer("0A") == (Some("0"), Some("A"))
    ensures SplitHausnummer("42a") == (Some("42"), Some("a"))
  {
    SplitExample("1a", "1", "a");
    SplitExample("0A", "0", "A");
    SplitExample("42a", "42", "a");
  }

  /** A lone number stays whole, the number takes at most four digits with
      the overflow going to the suffix, and an empty house number gives
      neither part. */
  lemma HausnummerLengthExamples()
    ensures SplitHausnummer("123") == (Some("123"), None)
    ensures SplitHausnummer("1234abc") == (Some("1234"), Some("abc"))
    ensures SplitHausnummer("12345") == (Some("1234"), Some("5"))
    ensures SplitHausnummer("") == (None, None)
  {
    SplitExample("123", "123", "");
    SplitExample("1234abc", "1234", "abc");
    SplitExample("12345", "1234", "5");
  }

  /** The address of the property, as entered. */
  datatype Adresse = Adresse(
    strasse: Option<string>,
    hausnummer: Option<string>,
    zusatzangaben: Option<string>,
    plz: Option<string>,
    ort: Option<string>)

  /** `ELage`: E7401124 street, E7401125 house number, E7401126 house-number
      suffix, E7401131 additional details, E7401121 postcode, E7401122 town. */
  datatype ELage = ELage(
    strasse: Option<string>,
    hausnummer: Option<string>,
    hausnummerzusatz: Option<string>,
    zusatzangaben: Option<string>,
    plz: Option<string>,
    ort: Option<string>)

  function MakeELage(a: Adresse): (r: ELage)
    ensures r.strasse == NoneIfEmpty(a.strasse) && r.zusatzangaben == NoneIfEmpty(a.zusatzangaben)
    ensures r.plz == NoneIfEmpty(a.plz) && r.ort == NoneIfEmpty(a.ort)
    ensures Text(r.hausnummer) + Text(r.hausnummerzusatz) == Text(a.hausnummer)
    ensures IsSplit(Text(a.hausnummer), Text(r.hausnummer), Text(r.hausnummerzusatz))
    ensures r.hausnummer != Some("") && r.hausnummerzusatz != Some("")
  {
    var (number, zusatz) := SplitHausnummer(Text(a.hausnummer));
    ELage(NoneIfEmpty(a.strasse), number, zusatz, NoneIfEmpty(a.zusatzangaben),
          NoneIfEmpty(a.plz), NoneIfEmpty(a.ort))
  }

  /** A location has every field `None` exactly when every address field was
      absent or empty: a present field is never lost. */
  lemma ELageEmpty(a: Adresse)
    ensures MakeELage(a) == ELage(None, None, None, None, None, None) <==>
      forall f :: f in [a.strasse, a.hausnummer, a.zusatzangaben, a.plz, a.ort] ==> NoneIfEmpty(f).None?
  {
    var r := MakeELage(a);
    if NoneIfEmpty(a.hausnummer).Some? {
      assert Text(r.hausnummer) + Text(r.hausnummerzusatz) != "";
    } else {
      assert Text(r.hausnummer) + Text(r.hausnummerzusatz) == "";
      assert |Text(r.hausnummer)| == 0 && |Text(r.hausnummerzusatz)| == 0;
    }
  }

  /** `EMehrereGemeinden`: the single flag E7401190 = 1, set when the property
      spans several municipalities. */
  datatype EMehrereGemeinden = EMehrereGemeinden(flag: int)

  const MEHRERE_GEMEINDEN: EMehrereGemeinden := EMehrereGemeinden(1)

  /** A parcel, as entered: the share of the economic unit is the decimal
      text `wEinheitZaehler` over the integer `wEinheitNenner`. */
  datatype Flurstueck = Flurstueck(
    gemarkung: string,
    grundbuchblattnummer: Option<string>,
    flur: Option<string>,
    flurstueckZaehler: int,
    flurstueckNenner: Option<string>,
    groesse: nat,
    wEinheitZaehler: string,
    wEinheitNenner: nat)

  /** `EFlurstueck`: E7401141 district, E7401142 land-register sheet, E7401143
      corridor, E7401144/E7401145 parcel numerator and denominator, E7411001
      size in square metres, E7410702/E7410703 share of the economic unit. */
  datatype EFlurstueck = EFlurstueck(
    gemarkung: string,
    grundbuchblattnummer: Option<string>,
    flur: Option<string>,
    flurstueckZaehler: int,
    flurstueckNenner: Option<string>,
    groesse: nat,
    wEinheitZaehler: string,
    wEinheitNenner: nat)

  function MakeEFlurstueck(f: Flurstueck): EFlurstueck {
    EFlurstueck(f.gemarkung, f.grundbuchblattnummer, f.flur, f.flurstueckZaehler,
                f.flurstueckNenner, f.groesse, f.wEinheitZaehler, f.wEinheitNenner)
  }

  /** Reads a parcel record back into the parcel it was made from. */
  function ParcelOf(e: EFlurstueck): Flurstueck {
    Flurstueck(e.gemarkung, e.grundbuchblattnummer, e.flur, e.flurstueckZaehler,
               e.flurstueckNenner, e.groesse, e.wEinheitZaehler, e.wEinheitNenner)
  }

  /** Every parcel field passes through unchanged, whatever its size. */
  lemma EFlurstueckPassesThrough(f: Flurstueck)
    ensures ParcelOf(MakeEFlurstueck(f)) == f
    ensures MakeEFlurstueck(f).groesse == f.groesse
  {
  }

  /** `EGemarkungen`: one parcel record per parcel, in input order. */
  function Gemarkungen(fs: seq<Flurstueck>): (r: seq<EFlurstueck>)
    ensures |r| == |fs|
    ensures forall i :: 0 <= i < |fs| ==> ParcelOf(r[i]) == fs[i]
  {
    seq(|fs|, i requires 0 <= i < |fs| => MakeEFlurstueck(fs[i]))
  }

  /** The characters of a split house number: the number's characters are
      digits, and the character after a short number is not. */
  lemma SplitChars(s: string, number: string, zusatz: string)
    requires IsSplit(s, number, zusatz)
    ensures forall k :: 0 <= k < |number| ==> s[k] == number[k] && Digits.IsDigit(s[k])
    ensures |number| < HAUSNUMMER_DIGITS && |number| < |s| ==> !Digits.IsDigit(s[|number|])
  {
    if |number| < |s| {
      assert s[|number|] == zusatz[0];
    }
  }

  /** An exact non-negative decimal: `mantissa / 10^scale`. */
  datatype Decimal = Decimal(mantissa: nat, scale: nat)

  /** The index of the first `c` in `s`, or `|s|`. */
  function Find(s: string, c: char): (i: nat)
    ensures i <= |s|
    ensures i < |s| ==> s[i] == c
    ensures forall j :: 0 <= j < i ==> s[j] != c
  {
    if |s| == 0 then 0
    else if s[0] == c then 0
    else 1 + Find(s[1..], c)
  }

  /** Reads "ddd" or "ddd.dddd" exactly; anything else is `None`. */
  function ParseDecimal(s: string): (r: Option<Decimal>)
  {
    var i := Find(s, '.');
    var whole := s[..i];
    if whole == [] || !Digits.AllDigits(whole) then None
    else if i == |s| then Some(Decimal(Digits.Value(whole), 0))
    else
      var frac := s[i + 1..];
      if frac == [] || !Digits.AllDigits(frac) then None
      else Some(Spelled(whole, frac))
  }

  /** The decimal that the digits `whole`, a point and the digits `frac`
      spell. */
  function Spelled(whole: string, frac: string): Decimal
    requires Digits.AllDigits(whole) && Digits.AllDigits(frac)
  {
    Decimal(Digits.Value(whole) * Digits.Pow10(|frac|) + Digits.Value(frac), |frac|)
  }

  /** The whole and fractional parts of `m` in units of `p`. */
  function DivMod(m: nat, p: nat): (r: (nat, nat))
    requires p >= 1
    ensures r.1 < p && r.0 * p + r.1 == m
  {
    (m / p, m % p)
  }

  /** Writes a decimal with exactly `scale` fractional digits. */
  function FormatDecimal(d: Decimal): string {
    var (whole, frac) := DivMod(d.mantissa, Digits.Pow10(d.scale));
    Digits.Show(whole) + (if d.scale == 0 then "" else "." + Digits.Pad(frac, d.scale))
  }

  /** Parsing a formatted decimal gives the decimal back: the parser reads
      exactly the value and the number of places the text shows. */
  lemma FormatThenParseDecimal(d: Decimal)
    ensures ParseDecimal(FormatDecimal(d)) == Some(d)
  {
    if d.scale == 0 {
      WholeRoundTrip(d);
    } else {
      FractionRoundTrip(d);
    }
  }

  lemma WholeRoundTrip(d: Decimal)
    requires d.scale == 0
    ensures ParseDecimal(FormatDecimal(d)) == Some(d)
  {
    var (q, r) := DivMod(d.mantissa, Digits.Pow10(d.scale));
    var s := FormatDecimal(d);
    assert s == Digits.Show(q);
    FindAbsent(s, '.');
    assert s[..|s|] == s;
  }

  lemma FractionRoundTrip(d: Decimal)
    requires d.scale > 0
    ensures ParseDecimal(FormatDecimal(d)) == Some(d)
  {
    var (q, r) := DivMod(d.mantissa, Digits.Pow10(d.scale));
    var whole := Digits.Show(q);
    var frac := Digits.Pad(r, d.scale);
    assert FormatDecimal(d) == whole + "." + frac;
    ParseFraction(whole, frac);
  }

  /** Digits, a point and digits parse as the decimal they spell. */
  lemma ParseFraction(whole: string, frac: string)
    requires whole != [] && Digits.AllDigits(whole) && frac != [] && Digits.AllDigits(frac)
    ensures ParseDecimal(whole + "." + frac) == Some(Spelled(whole, frac))
  {
    var s := whole + "." + frac;
    FindAfterDigits(whole, "." + frac);
    assert s == whole + ("." + frac);
    assert s[..|whole|] == whole;
    assert s[|whole| + 1..] == frac;
  }

  lemma FindAbsent(s: string, c: char)
    requires Digits.AllDigits(s) && !Digits.IsDigit(c)
    ensures Find(s, c) == |s|
  {
    if |s| > 0 {
      assert Digits.AllDigits(s[1..]);
      FindAbsent(s[1..], c);
    }
  }

  lemma FindAfterDigits(whole: string, rest: string)
    requires Digits.AllDigits(whole) && rest != [] && rest[0] == '.'
    ensures Find(whole + rest, '.') == |whole|
  {
    if |whole| > 0 {
      assert (whole + rest)[1..] == whole[1..] + rest;
      assert Digits.AllDigits(whole[1..]);
      FindAfterDigits(whole[1..], rest);
    }
  }

  datatype AreaError = MalformedShare(text: string) | ZeroDenominator

  /** The exact share-weighted area of one parcel, as numerator and
      denominator. */
  datatype Fraction = Fraction(num: nat, den: nat)

  function ParcelFraction(f: Flurstueck): (r: Result<Fraction, AreaError>)
    ensures r.Success? ==> r.value.den > 0
    ensures r.Failure? <==> ParseDecimal(f.wEinheitZaehler).None? || f.wEinheitNenner == 0
  {
    match ParseDecimal(f.wEinheitZaehler)
    case None => Failure(MalformedShare(f.wEinheitZaehler))
    case Some(z) =>
      if f.wEinheitNenner == 0 then Failure(ZeroDenominator)
      else Success(Share(f.groesse, z, f.wEinheitNenner))
  }

  /** The area `size` times the decimal share `z` over `nenner`, as one
      fraction. */
  function Share(size: nat, z: Decimal, nenner: nat): (q: Fraction)
    requires nenner > 0
    ensures q.den > 0
    ensures Exact(q) == size as real * DecimalValue(z) / nenner as real
  {
    ScaledShare(size, z.mantissa, Digits.Pow10(z.scale), nenner);
    Fraction(size * z.mantissa, Digits.Pow10(z.scale) * nenner)
  }

  /** Size times a share m/p, divided by n, as one fraction. */
  lemma ScaledShare(g: nat, m: nat, p: nat, n: nat)
    requires p > 0 && n > 0
    ensures (g * m) as real / (p * n) as real == g as real * (m as real / p as real) / n as real
  {
    var x := m as real / p as real;
    assert m as real == x * p as real;
    assert (g * m) as real == g as real * x * p as real;
    assert (p * n) as real == p as real * n as real;
  }

  /** The number a decimal share stands for. */
  function DecimalValue(d: Decimal): real {
    d.mantissa as real / Digits.Pow10(d.scale) as real
  }

  function Exact(q: Fraction): real
    requires q.den > 0
  {
    q.num as real / q.den as real
  }

  /** A parcel's exact area is its size times its share's decimal value over
      the share's denominator. */
  lemma ParcelFractionValue(f: Flurstueck)
    requires ParcelFraction(f).Success?
    ensures ParseDecimal(f.wEinheitZaehler).Some? && f.wEinheitNenner > 0
    ensures Exact(ParcelFraction(f).value) ==
      f.groesse as real * DecimalValue(ParseDecimal(f.wEinheitZaehler).value) / f.wEinheitNenner as real
  {
  }

  /** One parcel's area: its size times its share, truncated to whole square
      metres. */
  function ParcelArea(f: Flurstueck): (r: Result<nat, AreaError>)
    ensures r.Success? <==> ParcelFraction(f).Success?
    ensures r.Success? ==> r.value as real <= Exact(ParcelFraction(f).value) < (r.value + 1) as real
  {
    match ParcelFraction(f)
    case Failure(e) => Failure(e)
    case Success(q) =>
      TruncationBounds(q.num, q.den);
      Success(Truncated(q))
  }

  /** The truncated areas of the single-parcel examples: 1000 m² at share
      1.0000/2 is 500, at 1.2345/2 is 617, at 1.0000/3 is 333 and at
      2.0000/3 is 666. */
  lemma ShareExamples()
    ensures Truncated(Share(1000, Decimal(10000, 4), 2)) == 500
    ensures Truncated(Share(1000, Decimal(12345, 4), 2)) == 617
    ensures Truncated(Share(1000, Decimal(10000, 4), 3)) == 333
    ensures Truncated(Share(1000, Decimal(20000, 4), 3)) == 666
  {
    assert Digits.Pow10(2) == 100;
    assert Digits.Pow10(4) == 10000;
  }

  /** The share text "1.2345" reads as 12345 ten-thousandths, so the example
      parcel of 1000 m² at "1.2345" over 2 has the area 617. */
  lemma ShareTextExample(f: Flurstueck)
    requires f.groesse == 1000 && f.wEinheitZaehler == "1.2345" && f.wEinheitNenner == 2
    ensures ParseDecimal(f.wEinheitZaehler) == Some(Decimal(12345, 4))
    ensures ParcelArea(f) == Success(617)
  {
    var s := f.wEinheitZaehler;
    assert s[0] != '.' && s[1] == '.';
    assert Find(s, '.') == 1;
    assert s[..1] == "1" && s[2..] == "2345";
    assert Digits.Value("2345") == 2345 by {
      assert "2345"[..3] == "234" && "234"[..2] == "23" && "23"[..1] == "2" && "2"[..0] == "";
    }
    assert Digits.Value("1") == 1 by { assert "1"[..0] == ""; }
    assert Digits.Pow10(4) == 10000;
    ShareExamples();
  }

  /** A fraction's value truncated to a whole number. */
  function Truncated(q: Fraction): nat
    requires q.den > 0
  {
    q.num / q.den
  }

  /** Integer division truncates the exact quotient. */
  lemma TruncationBounds(a: nat, b: nat)
    requires b > 0
    ensures (a / b) as real <= a as real / b as real < (a / b + 1) as real
  {
    var q, r := a / b, a % b;
    assert a == q * b + r;
    assert a as real == q as real * b as real + r as real;
    assert a as real / b as real == q as real + r as real / b as real;
    assert 0.0 <= r as real / b as real < 1.0;
  }

  /** `EAngFlaeche.E7403010`: the sum of the parcels' truncated areas; the
      first malformed parcel makes the whole computation fail. */
  function TotalArea(fs: seq<Flurstueck>): (r: Result<nat, AreaError>)
    ensures r.Success? <==> forall i :: 0 <= i < |fs| ==> ParcelArea(fs[i]).Success?
  {
    if fs == [] then Success(0)
    else
      match ParcelArea(fs[0])
      case Failure(e) => Failure(e)
      case Success(a) =>
        match TotalArea(fs[1..])
        case Failure(e) => Failure(e)
        case Success(rest) => Success(a + rest)
  }

  /** The exact share-weighted area of all parcels. */
  function ExactSum(fs: seq<Flurstueck>): real
    requires forall i :: 0 <= i < |fs| ==> ParcelFraction(fs[i]).Success?
  {
    if fs == [] then 0.0 else Exact(ParcelFraction(fs[0]).value) + ExactSum(fs[1..])
  }

  /** The total area lies within one square metre per parcel below the exact
      total: truncating each parcel loses less than one square metre. With one
      parcel it is exactly the truncated exact area. */
  lemma {:induction false} TotalAreaBounds(fs: seq<Flurstueck>)
    requires TotalArea(fs).Success?
    ensures forall i :: 0 <= i < |fs| ==> ParcelFraction(fs[i]).Success?
    ensures TotalArea(fs).value as real <= ExactSum(fs)
    ensures ExactSum(fs) < (TotalArea(fs).value + |fs|) as real || fs == []
  {
    if fs != [] {
      TotalAreaBounds(fs[1..]);
      assert forall i :: 1 <= i < |fs| ==> ParcelFraction(fs[i]).Success? by {
        forall i | 1 <= i < |fs| ensures ParcelFraction(fs[i]).Success? {
          assert fs[i] == fs[1..][i - 1];
        }
      }
    }
  }

  /** `EAngFlaeche`: E7403010 the area, E7403011 the land value text as
      entered. */
  datatype EAngFlaeche = EAngFlaeche(flaeche: nat, bodenrichtwert: string)

  function MakeEAngFlaeche(fs: seq<Flurstueck>, bodenrichtwert: string): (r: Result<EAngFlaeche, AreaError>)
    ensures r.Success? <==> TotalArea(fs).Success?
    ensures r.Success? ==> r.value.flaeche == TotalArea(fs).value && r.value.bodenrichtwert == bodenrichtwert
  {
    match TotalArea(fs)
    case Failure(e) => Failure(e)
    case Success(a) => Success(EAngFlaeche(a, bodenrichtwert))
  }

  /** The property as entered. */
  datatype Grundstueck = Grundstueck(
    typ: string,
    adresse: Adresse,
    innerhalbEinerGemeinde: bool,
    bodenrichtwert: string,
    flurstueck: seq<Flurstueck>)
}
