/** The ELSTER encodings of single form fields: salutation and property-type
    codes, looked up in fixed tables (an unknown key raises `KeyError`), and
    dates written as "DD.MM.YYYY". Enumeration members are represented by
    their string values, so a value outside the enumeration is just a key the
    table lacks. */
module ElsterifyFields {
  import opened Wrappers
  import Digits

  datatype ElsterifyError = KeyError(key: string)

  /** The salutation table. */
  const ANREDE_CODES: map<string, string> := map["no_anrede" := "01", "herr" := "02", "frau" := "03"]

  /** `elsterify_anrede`: the two-digit salutation code. */
  function ElsterifyAnrede(anrede: string): (r: Result<string, ElsterifyError>)
    ensures r.Failure? <==> anrede !in ANREDE_CODES
    ensures r.Failure? ==> r.error == KeyError(anrede)
    ensures r.Success? ==> |r.value| == 2 && Digits.AllDigits(r.value)
  {
    if anrede in ANREDE_CODES then Success(ANREDE_CODES[anrede]) else Failure(KeyError(anrede))
  }

  /** The salutations a form offers. */
  datatype Anrede = NoAnrede | Herr | Frau

  /** The value a salutation member is stored under. */
  function AnredeValue(a: Anrede): string {
    match a
    case NoAnrede => "no_anrede"
    case Herr => "herr"
    case Frau => "frau"
  }

  /** The table knows exactly the salutation members: a key succeeds iff it
      is the value of one of them. */
  lemma AnredeKeys(key: string)
    ensures ElsterifyAnrede(key).Success? <==> exists a :: AnredeValue(a) == key
  {
    if key in ANREDE_CODES {
      assert key == "no_anrede" || key == "herr" || key == "frau";
      if key == "no_anrede" { assert AnredeValue(NoAnrede) == key; }
      else if key == "herr" { assert AnredeValue(Herr) == key; }
      else { assert AnredeValue(Frau) == key; }
    }
  }

  /** The code of a salutation member, which the table always has. */
  function AnredeCode(a: Anrede): (c: string)
    ensures ElsterifyAnrede(AnredeValue(a)) == Success(c)
  {
    ANREDE_CODES[AnredeValue(a)]
  }

  /** Decodes a salutation code back to the salutation. */
  function AnredeOfCode(code: string): (r: Option<Anrede>)
  {
    if code == "01" then Some(NoAnrede)
    else if code == "02" then Some(Herr)
    else if code == "03" then Some(Frau)
    else None
  }

  /** The salutation code is a bijection between the salutations and the
      codes "01".."03": decoding undoes encoding and vice versa. */
  lemma AnredeRoundTrip(a: Anrede, code: string)
    ensures AnredeOfCode(AnredeCode(a)) == Some(a)
    ensures AnredeOfCode(code).Some? ==> AnredeCode(AnredeOfCode(code).value) == code
  {
  }

  /** The property-type table. */
  const GRUNDSTUECKSART_CODES: map<string, int> :=
    map["baureif" := 1, "abweichendeEntwicklung" := 1, "einfamilienhaus" := 2,
        "zweifamilienhaus" := 3, "wohnungseigentum" := 5]

  /** `elsterify_grundstuecksart`: the numeric property-type code. */
  function ElsterifyGrundstuecksart(art: string): (r: Result<int, ElsterifyError>)
    ensures r.Failure? <==> art !in GRUNDSTUECKSART_CODES
    ensures r.Failure? ==> r.error == KeyError(art)
    ensures r.Success? ==> r.value in {1, 2, 3, 5} && art in ArtenOfCode(r.value)
  {
    if art in GRUNDSTUECKSART_CODES then Success(GRUNDSTUECKSART_CODES[art]) else Failure(KeyError(art))
  }

  /** The property types written with a given code, read off the code
      rather than the table: 1 for building land and land with a deviating
      development, 2 for a one-family house, 3 for a two-family house and 5
      for a flat in ownership. */
  function ArtenOfCode(code: int): set<string> {
    if code == 1 then {"baureif", "abweichendeEntwicklung"}
    else if code == 2 then {"einfamilienhaus"}
    else if code == 3 then {"zweifamilienhaus"}
    else if code == 5 then {"wohnungseigentum"}
    else {}
  }

  /** A property type is written with `code` exactly when it is one of the
      types that code stands for. */
  lemma GrundstuecksartDecodes(art: string, code: int)
    ensures ElsterifyGrundstuecksart(art) == Success(code) <==> art in ArtenOfCode(code)
  {
  }

  /** The five property types and their codes. */
  lemma GrundstuecksartExamples()
    ensures ElsterifyGrundstuecksart("baureif") == Success(1)
    ensures ElsterifyGrundstuecksart("abweichendeEntwicklung") == Success(1)
    ensures ElsterifyGrundstuecksart("einfamilienhaus") == Success(2)
    ensures ElsterifyGrundstuecksart("zweifamilienhaus") == Success(3)
    ensures ElsterifyGrundstuecksart("wohnungseigentum") == Success(5)
  {
  }

  /** Building land and land with a deviating development share code 1; every
      other pair of property types is told apart by its code. */
  lemma GrundstuecksartCollisions(a: string, b: string)
    requires ElsterifyGrundstuecksart(a).Success? && ElsterifyGrundstuecksart(b).Success?
    requires a != b
    ensures ElsterifyGrundstuecksart(a) == ElsterifyGrundstuecksart(b) <==>
      {a, b} == {"baureif", "abweichendeEntwicklung"}
  {
    if {a, b} == {"baureif", "abweichendeEntwicklung"} {
      assert a == "baureif" || a == "abweichendeEntwicklung";
      assert b == "baureif" || b == "abweichendeEntwicklung";
    }
  }

  datatype Date = Date(year: nat, month: nat, day: nat)

  predicate IsLeapYear(y: nat) {
    y % 4 == 0 && (y % 100 != 0 || y % 400 == 0)
  }

  function DaysInMonth(y: nat, m: nat): nat
    requires 1 <= m <= 12
  {
    if m == 2 then (if IsLeapYear(y) then 29 else 28)
    else if m == 4 || m == 6 || m == 9 || m == 11 then 30
    else 31
  }

  /** A `datetime.date`: years 1..9999 and a day that exists in its month. */
  predicate ValidDate(d: Date) {
    1 <= d.year <= 9999 && 1 <= d.month <= 12 && 1 <= d.day <= DaysInMonth(d.year, d.month)
  }

  /** "DD.MM.YYYY", each part zero-padded. */
  function FormatDate(d: Date): (s: string)
    requires ValidDate(d)
    ensures |s| == 10 && s[2] == '.' && s[5] == '.'
  {
    Digits.Pad(d.day, 2) + "." + Digits.Pad(d.month, 2) + "." + Digits.Pad(d.year, 4)
  }

  /** `elsterify_date`: `None` stays `None`. */
  function ElsterifyDate(d: Option<Date>): (r: Option<string>)
    requires d.Some? ==> ValidDate(d.value)
    ensures r.Some? <==> d.Some?
    ensures r.Some? ==> ParseDate(r.value) == d
  {
    match d
    case None => None
    case Some(date) =>
      FormatThenParse(date);
      Some(FormatDate(date))
  }

  /** Reads "DD.MM.YYYY" back into a date; anything else is `None`. */
  function ParseDate(s: string): (r: Option<Date>)
    ensures r.Some? ==> ValidDate(r.value)
  {
    if |s| == 10 && s[2] == '.' && s[5] == '.'
       && Digits.AllDigits(s[0..2]) && Digits.AllDigits(s[3..5]) && Digits.AllDigits(s[6..10])
    then
      var d := Date(Digits.Value(s[6..10]), Digits.Value(s[3..5]), Digits.Value(s[0..2]));
      if ValidDate(d) then Some(d) else None
    else None
  }

  /** Parsing a formatted date gives the date back. */
  lemma FormatThenParse(d: Date)
    requires ValidDate(d)
    ensures ParseDate(FormatDate(d)) == Some(d)
  {
    var s := FormatDate(d);
    assert s[0..2] == Digits.Pad(d.day, 2);
    assert s[3..5] == Digits.Pad(d.month, 2);
    assert s[6..10] == Digits.Pad(d.year, 4);
  }

  /** Every string that parses as a date is the formatting of that date: the
      format has exactly one spelling per date. */
  lemma ParseThenFormat(s: string)
    requires ParseDate(s).Some?
    ensures FormatDate(ParseDate(s).value) == s
  {
    var d := ParseDate(s).value;
    ParsedParts(s);
    DateParts(s);
    var day, month, year := s[0..2], s[3..5], s[6..10];
    assert FormatDate(d) == day + "." + month + "." + year;
  }

  /** Each part of a parsed date is the padded value it was read as. */
  lemma ParsedParts(s: string)
    requires ParseDate(s).Some?
    ensures var d := ParseDate(s).value;
      && Digits.Pad(d.day, 2) == s[0..2]
      && Digits.Pad(d.month, 2) == s[3..5]
      && Digits.Pad(d.year, 4) == s[6..10]
  {
    Digits.PadOfValue(s[0..2]);
    Digits.PadOfValue(s[3..5]);
    Digits.PadOfValue(s[6..10]);
  }

  /** A string of the date's shape is its three parts joined by dots. */
  lemma DateParts(s: string)
    requires |s| == 10 && s[2] == '.' && s[5] == '.'
    ensures s == s[0..2] + "." + s[3..5] + "." + s[6..10]
  {
  }

  /** The date of the date test: 1 February 1987 is written "01.02.1987". */
  lemma DateExample()
    ensures ElsterifyDate(Some(Date(1987, 2, 1))) == Some("01.02.1987")
  {
    var s := "01.02.1987";
    assert s[0..2] == "01" && s[3..5] == "02" && s[6..10] == "1987";
    assert Digits.Value("01") == 1 && Digits.Value("02") == 2;
    assert Digits.Value("1") == 1 by { assert "1"[..0] == ""; }
    assert Digits.Value("19") == 19 by { assert "19"[..1] == "1"; }
    assert Digits.Value("198") == 198 by { assert "198"[..2] == "19"; }
    assert Digits.Value("1987") == 1987 by { assert "1987"[..3] == "198"; }
    assert ParseDate(s) == Some(Date(1987, 2, 1));
    ParseThenFormat(s);
  }
}
