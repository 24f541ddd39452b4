/** The property-tax declaration as ELSTER data: the first declaration page
    (`EGW1`) built from the owners and the property, the header block
    (`EVorsatz`) and the envelope around them. Optional sub-records are
    present exactly when their input is. */
module ElsterDataRepresentation {
  import opened Wrappers
  import opened ElsterGrundstueck
  import opened ElsterEigentuemer

  /** `EErgAngaben`: the flag E7413001 = 1 and the free text E7411702. */
  datatype EErgAngaben = EErgAngaben(flag: int, text: string)

  function MakeEErgAngaben(text: string): (r: EErgAngaben)
    ensures r.flag == 1 && r.text == text
  {
    EErgAngaben(1, text)
  }

  /** `EAngFeststellung`: the fixed statement of what is being assessed; it
      takes no input. */
  datatype EAngFeststellung = EAngFeststellung

  /** `EEigentumsverh`: the ownership-relation code E7401340. */
  datatype EEigentumsverh = EEigentumsverh(code: string)

  /** `EGW1`: eight fields. */
  datatype EGW1 = EGW1(
    angFeststellung: EAngFeststellung,
    lage: ELage,
    mehrereGemeinden: Option<EMehrereGemeinden>,
    gemarkungen: seq<EFlurstueck>,
    empfangsv: Option<EKontakt>,
    ergAngaben: Option<EErgAngaben>,
    eigentumsverh: EEigentumsverh,
    eigentuemer: seq<EPersonData>)

  /** Every owner's birth date, when given, is a calendar date. */
  predicate ValidOwners(e: Eigentuemer) {
    forall p <- e.person :: ValidPerson(p)
  }

  /** One person record per owner, in input order, the i-th numbered
      `from + i + 1`. */
  function PersonRecords(persons: seq<Person>, from: nat): (r: seq<EPersonData>)
    requires forall p <- persons :: ValidPerson(p)
    ensures |r| == |persons|
    ensures forall i :: 0 <= i < |persons| ==> r[i].beteiligter == from + i + 1
  {
    seq(|persons|, i requires 0 <= i < |persons| => MakeEPersonData(persons[i], from + i))
  }

  /** The records after the first are the records of the remaining persons,
      numbered one further on. */
  lemma PersonRecordsTail(persons: seq<Person>, from: nat)
    requires forall p <- persons :: ValidPerson(p)
    requires |persons| > 0
    ensures PersonRecords(persons, from)[0] == MakeEPersonData(persons[0], from)
    ensures PersonRecords(persons, from)[1..] == PersonRecords(persons[1..], from + 1)
  {
  }

  /** Builds the first declaration page from the owners, the property and the
      optional free text. */
  function MakeEGW1(e: Eigentuemer, g: Grundstueck, freitext: Option<string>): (r: EGW1)
    requires ValidOwners(e)
    ensures r.lage == MakeELage(g.adresse)
    ensures r.mehrereGemeinden.Some? <==> !g.innerhalbEinerGemeinde
    ensures r.mehrereGemeinden.Some? ==> r.mehrereGemeinden.value.flag == 1
    ensures |r.gemarkungen| == |g.flurstueck|
    ensures forall i :: 0 <= i < |g.flurstueck| ==> ParcelOf(r.gemarkungen[i]) == g.flurstueck[i]
    ensures r.empfangsv.None? <==> e.empfangsbevollmaechtigter.None?
    ensures r.ergAngaben.None? <==> freitext.None?
    ensures r.ergAngaben.Some? ==> r.ergAngaben.value.flag == 1 && r.ergAngaben.value.text == freitext.value
    ensures r.eigentumsverh.code == Eigentumsverhaeltnis(e)
    ensures |r.eigentuemer| == |e.person|
    ensures forall i :: 0 <= i < |e.person| ==> r.eigentuemer[i].beteiligter == i + 1
  {
    EGW1(
      EAngFeststellung,
      MakeELage(g.adresse),
      if g.innerhalbEinerGemeinde then None else Some(MEHRERE_GEMEINDEN),
      Gemarkungen(g.flurstueck),
      if e.empfangsbevollmaechtigter.Some? then Some(MakeEKontakt(e.empfangsbevollmaechtigter.value)) else None,
      if freitext.Some? then Some(MakeEErgAngaben(freitext.value)) else None,
      EEigentumsverh(Eigentumsverhaeltnis(e)),
      PersonRecords(e.person, 0))
  }

  /** Reads person records back, expecting the first to be numbered
      `from + 1` and each next one numbered one higher; `None` when a record
      does not decode or is out of sequence. */
  function ReadOwners(es: seq<EPersonData>, from: nat): Option<seq<Person>>
    decreases |es|
  {
    if |es| == 0 then Some([])
    else
      match PersonOf(es[0])
      case None => None
      case Some(pair) =>
        if pair.1 != from then None
        else
          match ReadOwners(es[1..], from + 1)
          case None => None
          case Some(rest) => Some([pair.0] + rest)
  }

  /** The owner records of a page determine the owners: reading them back
      gives the owner list, order included. */
  lemma OwnersRoundTrip(e: Eigentuemer, g: Grundstueck, freitext: Option<string>)
    requires ValidOwners(e)
    ensures ReadOwners(MakeEGW1(e, g, freitext).eigentuemer, 0) == Some(e.person)
  {
    OwnerRecordsRoundTrip(e.person, 0);
  }

  /** Records numbered from `from + 1` read back as the persons they were
      made from. */
  lemma {:induction false} OwnerRecordsRoundTrip(persons: seq<Person>, from: nat)
    requires forall p <- persons :: ValidPerson(p)
    ensures ReadOwners(PersonRecords(persons, from), from) == Some(persons)
    decreases |persons|
  {
    if |persons| > 0 {
      PersonRecordsTail(persons, from);
      PersonRoundTrip(persons[0], from);
      OwnerRecordsRoundTrip(persons[1..], from + 1);
      assert [persons[0]] + persons[1..] == persons;
    }
  }

  /** The authorised recipient on a page reads back as the one given. */
  lemma RecipientRoundTrip(e: Eigentuemer, g: Grundstueck, freitext: Option<string>)
    requires ValidOwners(e)
    ensures var r := MakeEGW1(e, g, freitext);
      (if r.empfangsv.Some? then KontaktOf(r.empfangsv.value) else None) == e.empfangsbevollmaechtigter
  {
    if e.empfangsbevollmaechtigter.Some? {
      KontaktRoundTrip(e.empfangsbevollmaechtigter.value);
    }
  }

  /** `ERueckuebermittlung`: the assessment notice is returned electronically
      (Bescheid "2"). */
  datatype ERueckuebermittlung = ERueckuebermittlung(bescheid: string)

  const RUECKUEBERMITTLUNG: ERueckuebermittlung := ERueckuebermittlung("2")

  /** `EVorsatz`: eleven fields; the sender is the first owner. */
  datatype EVorsatz = EVorsatz(
    unterfallart: string,
    vorgang: string,
    stNr: string,
    zeitraum: string,
    absName: string,
    absStr: Option<string>,
    absPlz: Option<string>,
    absOrt: Option<string>,
    copyright: string,
    ordNrArt: string,
    rueckuebermittlung: ERueckuebermittlung)

  /** The declaration as entered. `stNr` is the tax number already in ELSTER's
      thirteen-digit form. */
  datatype Grundsteuer = Grundsteuer(
    grundstueck: Grundstueck,
    eigentuemer: Eigentuemer,
    stNr: string,
    freitext: Option<string>)

  /** The error raised when the header is built for a declaration without
      owners: indexing the first owner fails. */
  datatype RepresentationError = NoOwner

  /** Builds the header block from the declaration. */
  function MakeEVorsatz(d: Grundsteuer): (r: Result<EVorsatz, RepresentationError>)
    ensures r.Failure? <==> |d.eigentuemer.person| == 0
    ensures r.Success? ==>
      var first := d.eigentuemer.person[0];
      && r.value.unterfallart == "88" && r.value.vorgang == "01" && r.value.zeitraum == "2022"
      && r.value.ordNrArt == "S" && r.value.copyright == "(C) 2022 DigitalService4Germany"
      && r.value.rueckuebermittlung.bescheid == "2"
      && r.value.stNr == d.stNr
      && |r.value.absName| == |first.persoenlicheAngaben.vorname| + 1 + |first.persoenlicheAngaben.name|
      && r.value.absName[..|first.persoenlicheAngaben.vorname|] == first.persoenlicheAngaben.vorname
      && r.value.absName[|first.persoenlicheAngaben.vorname|..] == " " + first.persoenlicheAngaben.name
      && r.value.absStr == first.adresse.strasse && r.value.absPlz == first.adresse.plz
      && r.value.absOrt == first.adresse.ort
  {
    if |d.eigentuemer.person| == 0 then Failure(NoOwner)
    else
      var first := d.eigentuemer.person[0];
      var pa := first.persoenlicheAngaben;
      Success(EVorsatz("88", "01", d.stNr, "2022", pa.vorname + " " + pa.name,
                       first.adresse.strasse, first.adresse.plz, first.adresse.ort,
                       "(C) 2022 DigitalService4Germany", "S", RUECKUEBERMITTLUNG))
  }

  const GRUNDSTEUER_VERSION: string := "2"
  const GRUNDSTEUER_XMLNS: string := "http://finkonsens.de/elster/elstererklaerung/grundsteuerwert/e88/v2"
  const NUTZDATEN_HEADER_VERSION: string := "11"
  const EMPFAENGER_ID: string := "F"

  /** `EGrundsteuerSpecifics`: the header, the first page and the form
      version and namespace. */
  datatype EGrundsteuerSpecifics = EGrundsteuerSpecifics(
    vorsatz: EVorsatz,
    gw1: EGW1,
    version: string,
    xmlns: string)

  /** The whole document: the recipient id and header version of the payload
      header, and the payload `E88`. */
  datatype EXml = EXml(empfaengerId: string, headerVersion: string, e88: EGrundsteuerSpecifics)

  /** `get_full_grundsteuer_data_representation`. */
  function FullRepresentation(d: Grundsteuer): (r: Result<EXml, RepresentationError>)
    requires ValidOwners(d.eigentuemer)
    ensures r.Success? <==> MakeEVorsatz(d).Success?
    ensures r.Success? ==>
      && r.value.empfaengerId == "F" && r.value.headerVersion == "11"
      && r.value.e88.version == "2"
      && r.value.e88.xmlns == "http://finkonsens.de/elster/elstererklaerung/grundsteuerwert/e88/v2"
      && r.value.e88.vorsatz == MakeEVorsatz(d).value
      && r.value.e88.gw1 == MakeEGW1(d.eigentuemer, d.grundstueck, d.freitext)
  {
    match MakeEVorsatz(d)
    case Failure(err) => Failure(err)
    case Success(vorsatz) =>
      var specifics := EGrundsteuerSpecifics(vorsatz, MakeEGW1(d.eigentuemer, d.grundstueck, d.freitext),
                                             GRUNDSTEUER_VERSION, GRUNDSTEUER_XMLNS);
      Success(EXml(EMPFAENGER_ID, NUTZDATEN_HEADER_VERSION, specifics))
  }

  /** The sender in a document's header is the first owner listed on its
      first page: name, first name and address agree. */
  predicate SenderIsFirstOwner(x: EXml) {
    match ReadOwners(x.e88.gw1.eigentuemer, 0)
    case None => false
    case Some(owners) =>
      && |owners| > 0
      && x.e88.vorsatz.absName == owners[0].persoenlicheAngaben.vorname + " " + owners[0].persoenlicheAngaben.name
      && x.e88.vorsatz.absStr == owners[0].adresse.strasse
      && x.e88.vorsatz.absPlz == owners[0].adresse.plz
      && x.e88.vorsatz.absOrt == owners[0].adresse.ort
  }

  /** A built document reads back as the declaration's owners and tax
      number, and its header names the first of those owners as sender. */
  lemma DocumentReadsBack(d: Grundsteuer)
    requires ValidOwners(d.eigentuemer) && FullRepresentation(d).Success?
    ensures ReadOwners(FullRepresentation(d).value.e88.gw1.eigentuemer, 0) == Some(d.eigentuemer.person)
    ensures FullRepresentation(d).value.e88.vorsatz.stNr == d.stNr
    ensures SenderIsFirstOwner(FullRepresentation(d).value)
  {
    OwnersRoundTrip(d.eigentuemer, d.grundstueck, d.freitext);
    var first := d.eigentuemer.person[0].persoenlicheAngaben;
    var name := FullRepresentation(d).value.e88.vorsatz.absName;
    assert name == name[..|first.vorname|] + name[|first.vorname|..];
  }
}
