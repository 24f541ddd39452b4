/** The owner part of a property-tax declaration in ELSTER's field
    vocabulary: ownership shares, persons with their optional representative,
    the authorised recipient and the ownership-relation code. Optional input
    fields are copied as they are, so an absent field stays `None`. */
module ElsterEigentuemer {
  import opened Wrappers
  import opened ElsterifyFields

  datatype Name = Name(anrede: Anrede, titel: Option<string>, vorname: string, name: string)

  datatype Anschrift = Anschrift(
    strasse: Option<string>,
    hausnummer: Option<string>,
    hausnummerzusatz: Option<string>,
    plz: Option<string>,
    postfach: Option<string>,
    ort: Option<string>)

  /** A legal representative or an authorised recipient, as entered. */
  datatype Kontakt = Kontakt(name: Name, adresse: Anschrift, telefonnummer: Option<string>)

  /** `EGesetzlicherVertreter` (E7415101 salutation code, E7415102 title,
      E7415201 first name, E7415301 name, E7415401 street, E7415501 house
      number, E7415502 suffix, E7415601 postcode, E7415602 PO box, E7415603
      town, E7415604 phone) and `EEmpfangsbevollmaechtigter` (E7404610,
      E7404614, E7404613, E7404611, E7404624, E7404625, E7404626, E7404640,
      E7404627, E7404622, E7412201, in the same order): the same eleven
      fields under two sets of ELSTER codes. */
  datatype EKontakt = EKontakt(
    anrede: string,
    titel: Option<string>,
    vorname: string,
    name: string,
    strasse: Option<string>,
    hausnummer: Option<string>,
    hausnummerzusatz: Option<string>,
    plz: Option<string>,
    postfach: Option<string>,
    ort: Option<string>,
    telefonnummer: Option<string>)

  /** Builds a representative's or recipient's record: the salutation is
      encoded, every other field copied. */
  function MakeEKontakt(k: Kontakt): (r: EKontakt)
    ensures ElsterifyAnrede(AnredeValue(k.name.anrede)) == Success(r.anrede)
  {
    EKontakt(AnredeCode(k.name.anrede), k.name.titel, k.name.vorname, k.name.name,
             k.adresse.strasse, k.adresse.hausnummer, k.adresse.hausnummerzusatz,
             k.adresse.plz, k.adresse.postfach, k.adresse.ort, k.telefonnummer)
  }

  /** Reads a representative's or recipient's record back. */
  function KontaktOf(e: EKontakt): Option<Kontakt> {
    match AnredeOfCode(e.anrede)
    case None => None
    case Some(a) =>
      Some(Kontakt(Name(a, e.titel, e.vorname, e.name),
                   Anschrift(e.strasse, e.hausnummer, e.hausnummerzusatz, e.plz, e.postfach, e.ort),
                   e.telefonnummer))
  }

  /** The record loses nothing: reading it back gives the contact it was
      made from. */
  lemma KontaktRoundTrip(k: Kontakt)
    ensures KontaktOf(MakeEKontakt(k)) == Some(k)
  {
    AnredeRoundTrip(k.name.anrede, "");
  }

  /** An ownership share; numerator and denominator are texts. */
  datatype Anteil = Anteil(zaehler: string, nenner: string)

  /** `EAnteil`: E7404570 numerator, E7404571 denominator. */
  datatype EAnteil = EAnteil(zaehler: string, nenner: string)

  function MakeEAnteil(a: Anteil): (r: EAnteil)
    ensures r.zaehler == a.zaehler && r.nenner == a.nenner
  {
    EAnteil(a.zaehler, a.nenner)
  }

  datatype PersoenlicheAngaben = PersoenlicheAngaben(
    anrede: Anrede,
    titel: Option<string>,
    name: string,
    vorname: string,
    geburtsdatum: Option<Date>)

  datatype Person = Person(
    persoenlicheAngaben: PersoenlicheAngaben,
    adresse: Anschrift,
    telefonnummer: Option<string>,
    steuerId: string,
    anteil: Anteil,
    vertreter: Option<Kontakt>)

  /** A birth date, when given, is a calendar date. */
  predicate ValidPerson(p: Person) {
    p.persoenlicheAngaben.geburtsdatum.Some? ==> ValidDate(p.persoenlicheAngaben.geburtsdatum.value)
  }

  /** `EPersonData`: Beteiligter (the 1-based position), E7404510 salutation
      code, E7404514 title, E7404518 birth date, E7404513 first name, E7404511
      name, E7404524 street, E7404525 house number, E7404526 suffix, E7404540
      postcode, E7404527 PO box, E7404522 town, E7414601 phone, E7404519 tax
      id, the share and the representative: sixteen fields. */
  datatype EPersonData = EPersonData(
    beteiligter: int,
    anrede: string,
    titel: Option<string>,
    geburtsdatum: Option<string>,
    vorname: string,
    name: string,
    strasse: Option<string>,
    hausnummer: Option<string>,
    hausnummerzusatz: Option<string>,
    plz: Option<string>,
    postfach: Option<string>,
    ort: Option<string>,
    telefonnummer: Option<string>,
    steuerId: string,
    anteil: EAnteil,
    gesVertreter: Option<EKontakt>)

  /** The record of the person at position `index` of the owner list. */
  function MakeEPersonData(p: Person, index: nat): (r: EPersonData)
    requires ValidPerson(p)
    ensures r.beteiligter == index + 1
    ensures r.gesVertreter.Some? <==> p.vertreter.Some?
    ensures r.geburtsdatum.Some? <==> p.persoenlicheAngaben.geburtsdatum.Some?
    ensures r.geburtsdatum.Some? ==> ParseDate(r.geburtsdatum.value) == p.persoenlicheAngaben.geburtsdatum
  {
    var pa := p.persoenlicheAngaben;
    EPersonData(
      index + 1, AnredeCode(pa.anrede), pa.titel, ElsterifyDate(pa.geburtsdatum), pa.vorname, pa.name,
      p.adresse.strasse, p.adresse.hausnummer, p.adresse.hausnummerzusatz,
      p.adresse.plz, p.adresse.postfach, p.adresse.ort,
      p.telefonnummer, p.steuerId, MakeEAnteil(p.anteil),
      if p.vertreter.Some? then Some(MakeEKontakt(p.vertreter.value)) else None)
  }

  /** Reads a person record back into the person and its position. */
  function PersonOf(e: EPersonData): Option<(Person, nat)> {
    if e.beteiligter < 1 then None
    else
      match AnredeOfCode(e.anrede)
      case None => None
      case Some(a) =>
        var birth := if e.geburtsdatum.Some? then ParseDate(e.geburtsdatum.value) else None;
        if e.geburtsdatum.Some? && birth.None? then None
        else
          var vertreter := if e.gesVertreter.Some? then KontaktOf(e.gesVertreter.value) else None;
          if e.gesVertreter.Some? && vertreter.None? then None
          else
            Some((Person(PersoenlicheAngaben(a, e.titel, e.name, e.vorname, birth),
                         Anschrift(e.strasse, e.hausnummer, e.hausnummerzusatz, e.plz, e.postfach, e.ort),
                         e.telefonnummer, e.steuerId, Anteil(e.anteil.zaehler, e.anteil.nenner),
                         vertreter),
                  e.beteiligter - 1))
  }

  /** The person record loses nothing: every field, the birth date and the
      representative included, can be read back, and so can the position. */
  lemma PersonRoundTrip(p: Person, index: nat)
    requires ValidPerson(p)
    ensures PersonOf(MakeEPersonData(p, index)) == Some((p, index))
  {
    AnredeRoundTrip(p.persoenlicheAngaben.anrede, "");
    if p.vertreter.Some? {
      KontaktRoundTrip(p.vertreter.value);
    }
  }

  datatype Eigentuemer = Eigentuemer(
    person: seq<Person>,
    verheiratet: Option<bool>,
    empfangsbevollmaechtigter: Option<Kontakt>)

  /** `EEigentumsverh.E7401340`: "0" for a sole owner, "4" for a married
      couple, "6" for every other community of owners. */
  function Eigentumsverhaeltnis(e: Eigentuemer): (code: string)
    ensures code == "0" <==> |e.person| == 1
    ensures code == "4" <==> |e.person| == 2 && e.verheiratet == Some(true)
    ensures code == "0" || code == "4" || code == "6"
  {
    if |e.person| == 1 then "0"
    else if |e.person| == 2 && e.verheiratet == Some(true) then "4"
    else "6"
  }
}
