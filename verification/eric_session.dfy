/** The wrapper as the rest of the application uses it: `get_eric_wrapper`
    opens an instance, the body makes any sequence of wrapper calls, and the
    instance is released again on the way out. */
module EricSession {
  import opened Wrappers
  import opened EricErrors
  import opened EricWrapper

  /** One wrapper call the body of a `with get_eric_wrapper()` block can make. */
  datatype Operation =
    | OpValidate(xml: string, version: string)
    | OpValidateAndSend(xml: string, version: string, pdfName: string)
    | OpProcessVerfahren(xml: string, verfahren: string, abrufCode: Option<string>, transfer: Option<string>)
    | OpCheckTaxNumber(taxNumber: string)
    | OpDecryptData(data: string)
    | OpGetTaxOffices(stateId: string)
    | OpGetStateIdList
    | OpGetElectronicAktenzeichen(taxNumber: string, state: string)
    | OpCreateTransferHeader(xml: string, datenart: string, verfahren: string, vorgang: string,
                             testmerker: string, herstellerId: string, datenLieferant: string,
                             versionClient: string)
    | OpGetErrorMessage(xml: string)
    | OpGetCertProperties

  /** What a wrapper call returns. */
  datatype Answer =
    | Response(response: EricResponse)
    | Verdict(valid: bool)
    | Text(text: string)
    | Fields(fields: ErrorFields)

  /** Whether `t'` is `t` followed only by processing calls. */
  predicate ExtendsWithProcessing(t: seq<NativeCall>, t': seq<NativeCall>) {
    |t| <= |t'| && t'[..|t|] == t && forall i | |t| <= i < |t'| :: t'[i].BearbeiteVorgang?
  }

  /** Which `decrypt_data` the body calls: the one the program has, which
      never releases its certificate handle, or the corrected one. */
  datatype Variant = AsWritten | Corrected

  /** Whether a wrapper call leaves the buffers as it found them, adds only
      processing calls to the trace, and releases every certificate handle it
      opened, except that the as-written `decrypt_data` may leave its handle
      open. */
  predicate Settled(s: Session, s': Session, v: Variant) {
    && s'.buffers == s.buffers && s.certs <= s'.certs
    && (v == Corrected ==> s'.certs == s.certs)
    && ExtendsWithProcessing(s.trace, s'.trace)
  }

  function AsResponse(st: Step<EricResponse>): (r: Step<Answer>)
    ensures r.session == st.session && (r.result.Success? <==> st.result.Success?)
    ensures r.result.Success? ==> r.result.value == Response(st.result.value)
    ensures r.result.Failure? ==> r.result.error == st.result.error
  {
    match st.result
    case Success(v) => Step(st.session, Success(Response(v)))
    case Failure(e) => Step(st.session, Failure(e))
  }

  function AsText(st: Step<string>): (r: Step<Answer>)
    ensures r.session == st.session && (r.result.Success? <==> st.result.Success?)
    ensures r.result.Success? ==> r.result.value == Text(st.result.value)
    ensures r.result.Failure? ==> r.result.error == st.result.error
  {
    match st.result
    case Success(v) => Step(st.session, Success(Text(v)))
    case Failure(e) => Step(st.session, Failure(e))
  }

  /** A trace grown by nothing or by one processing call extends the old one
      with processing calls only. */
  lemma ExtendsByOne(t: seq<NativeCall>, t': seq<NativeCall>, c: NativeCall, grows: bool)
    requires c.BearbeiteVorgang?
    requires t' == t + (if grows then [c] else [])
    ensures ExtendsWithProcessing(t, t')
  {
    assert t'[..|t|] == t;
  }

  /** Makes one wrapper call. */
  function Run(s: Session, o: Oracle, op: Operation, v: Variant): (st: Step<Answer>)
    ensures Settled(s, st.session, v)
  {
    match op
    case OpValidate(xml, version) => RunProcessing(s, o, op)
    case OpValidateAndSend(xml, version, pdfName) => RunProcessing(s, o, op)
    case OpProcessVerfahren(xml, verfahren, abrufCode, transfer) => RunProcessing(s, o, op)
    case OpCheckTaxNumber(taxNumber) =>
      var r := CheckTaxNumber(s, o, taxNumber);
      assert r.session.trace[..|s.trace|] == s.trace;
      Step(r.session, match r.result case Success(v) => Success(Verdict(v)) case Failure(e) => Failure(e))
    case OpGetErrorMessage(xml) =>
      var r := GetErrorMessageFromXmlResponse(s, o, xml);
      assert r.session.trace[..|s.trace|] == s.trace;
      Step(r.session, match r.result case Success(v) => Success(Fields(v)) case Failure(e) => Failure(e))
    case _ => RunQuery(s, o, op, v)
  }

  /** The three calls that go through `process`. */
  function RunProcessing(s: Session, o: Oracle, op: Operation): (st: Step<Answer>)
    requires op.OpValidate? || op.OpValidateAndSend? || op.OpProcessVerfahren?
    ensures Balanced(s, st.session) && ExtendsWithProcessing(s.trace, st.session.trace)
  {
    match op
    case OpValidate(xml, version) =>
      var r := Validate(s, o, xml, version);
      ExtendsByOne(s.trace, r.session.trace, BearbeiteVorgang(xml, version, ValidateOnly, None, None, None, s.next, s.next + 1), Allocates(o, s.next, 2));
      AsResponse(r)
    case OpValidateAndSend(xml, version, pdfName) =>
      var r := ValidateAndSend(s, o, xml, version, pdfName);
      CertSettled(s, o, xml, version, SendAndPrint, None, None, PrintTo(pdfName), o.pdf(SendCall(s, xml, version, pdfName)), r);
      AsResponse(r)
    case OpProcessVerfahren(xml, verfahren, abrufCode, transfer) =>
      var r := ProcessVerfahren(s, o, xml, verfahren, abrufCode, transfer);
      CertSettled(s, o, xml, verfahren, SendAndValidate, transfer, abrufCode, None, None, r);
      AsResponse(r)
  }

  lemma CertSettled(s: Session, o: Oracle, xml: string, version: string, flags: set<Flag>,
                    transfer: Option<string>, abrufCode: Option<string>,
                    printing: Option<PrintParams>, pdf: Option<string>, st: Step<EricResponse>)
    requires CertProcessed(s, o, xml, version, flags, transfer, abrufCode, printing, pdf, st)
    ensures Balanced(s, st.session) && ExtendsWithProcessing(s.trace, st.session.trace)
  {
    var c := BearbeiteVorgang(xml, version, flags, printing, Some(CertParams(s.next, abrufCode)),
                              transfer, s.next + 1, s.next + 2);
    if o.code(GetHandleToCertificate(s.next)) == ERIC_OK {
      ExtendsByOne(s.trace, st.session.trace, c, Allocates(o, s.next + 1, 2));
    } else {
      ExtendsByOne(s.trace, st.session.trace, c, false);
    }
  }

  /** The single-shot queries, each with one buffer. */
  function RunQuery(s: Session, o: Oracle, op: Operation, v: Variant): (st: Step<Answer>)
    requires op.OpDecryptData? || op.OpGetTaxOffices? || op.OpGetStateIdList? || op.OpGetElectronicAktenzeichen?
          || op.OpCreateTransferHeader? || op.OpGetCertProperties?
    ensures st.session.trace == s.trace
    ensures Settled(s, st.session, v)
  {
    var r := match op
      case OpDecryptData(data) => if v == AsWritten then DecryptDataAsWritten(s, o, data) else DecryptData(s, o, data)
      case OpGetTaxOffices(stateId) => GetTaxOffices(s, o, stateId)
      case OpGetStateIdList => GetStateIdList(s, o)
      case OpGetElectronicAktenzeichen(taxNumber, state) => GetElectronicAktenzeichen(s, o, taxNumber, state)
      case OpCreateTransferHeader(xml, datenart, verfahren, vorgang, testmerker, herstellerId, datenLieferant, versionClient) =>
        CreateTransferHeader(s, o, xml, datenart, verfahren, vorgang, testmerker, herstellerId, datenLieferant, versionClient)
      case OpGetCertProperties => GetCertProperties(s, o);
    assert r.session.trace[..|s.trace|] == s.trace;
    AsText(r)
  }

  /** Makes the calls of `ops` in order; the first one that raises ends the
      body with its error. */
  function RunAll(s: Session, o: Oracle, ops: seq<Operation>, v: Variant): (st: Step<seq<Answer>>)
    ensures Settled(s, st.session, v)
    ensures st.result.Success? ==> |st.result.value| == |ops|
    decreases |ops|
  {
    if |ops| == 0 then Step(s, Success([]))
    else
      var first := Run(s, o, ops[0], v);
      match first.result
      case Failure(e) => Step(first.session, Failure(e))
      case Success(a) =>
        var rest := RunAll(first.session, o, ops[1..], v);
        ExtendsTransitive(s.trace, first.session.trace, rest.session.trace);
        Prepend(a, rest)
  }

  /** The answer `a` in front of the answers of the remaining calls. */
  function Prepend(a: Answer, rest: Step<seq<Answer>>): (st: Step<seq<Answer>>)
    ensures st.session == rest.session && (st.result.Success? <==> rest.result.Success?)
    ensures st.result.Success? ==> |st.result.value| == |rest.result.value| + 1 && st.result.value[0] == a
  {
    match rest.result
    case Success(more) => Step(rest.session, Success([a] + more))
    case Failure(e) => Step(rest.session, Failure(e))
  }

  lemma ExtendsTransitive(a: seq<NativeCall>, b: seq<NativeCall>, c: seq<NativeCall>)
    requires ExtendsWithProcessing(a, b) && ExtendsWithProcessing(b, c)
    ensures ExtendsWithProcessing(a, c)
  {
    assert c[..|a|] == c[..|b|][..|a|];
  }

  /** `with get_eric_wrapper() as w: <ops>`, on the ledger `s` of a new
      wrapper. The instance is taken to be created before the `try`, so a
      failing creation raises without a release; otherwise the body runs, and
      the instance is released in the `finally`, whose error, if any, replaces
      the body's outcome. */
  function WithEricWrapper(s: Session, o: Oracle, logPath: Option<string>, ops: seq<Operation>, v: Variant): (r: (Session, Result<seq<Answer>, EricError>))
    ensures r.0.buffers == s.buffers && s.certs <= r.0.certs
    ensures v == Corrected ==> Balanced(s, r.0)
    ensures var t := s.trace; var t' := r.0.trace;
            && |t'| > |t| && t'[..|t|] == t && t'[|t|] == InstanzErzeugen(logPath)
            && (o.code(InstanzErzeugen(logPath)) != ERIC_OK ==> |t'| == |t| + 1)
            && (o.code(InstanzErzeugen(logPath)) == ERIC_OK ==>
                  |t'| >= |t| + 2 && t'[|t'| - 1] == InstanzFreigeben
                  && forall i | |t| < i < |t'| - 1 :: t'[i].BearbeiteVorgang?)
    ensures r.1.Success? <==>
              o.code(InstanzErzeugen(logPath)) == ERIC_OK && RunAll(Initialise(s, o, logPath).session, o, ops, v).result.Success?
              && o.code(InstanzFreigeben) == ERIC_OK
    ensures o.code(InstanzErzeugen(logPath)) != ERIC_OK ==> r.1 == Failure(CheckResult(o.code(InstanzErzeugen(logPath))).error)
    ensures o.code(InstanzErzeugen(logPath)) == ERIC_OK && o.code(InstanzFreigeben) != ERIC_OK ==>
              r.1 == Failure(CheckResult(o.code(InstanzFreigeben)).error)
  {
    var init := Initialise(s, o, logPath);
    match init.result
    case Failure(e) => (init.session, Failure(e))
    case Success(_) =>
      var body := RunAll(init.session, o, ops, v);
      var down := Shutdown(body.session, o);
      WrapperTrace(s.trace, init.session.trace, body.session.trace, down.session.trace, logPath);
      (down.session, Then(body.result, ToOutcome(down.result)))
  }

  /** Creation, then processing calls only, then release: the trace of a
      wrapper whose instance could be created. */
  lemma WrapperTrace(t: seq<NativeCall>, t1: seq<NativeCall>, t2: seq<NativeCall>, t3: seq<NativeCall>,
                     logPath: Option<string>)
    requires t1 == t + [InstanzErzeugen(logPath)]
    requires ExtendsWithProcessing(t1, t2)
    requires t3 == t2 + [InstanzFreigeben]
    ensures |t3| >= |t| + 2 && t3[..|t|] == t && t3[|t|] == InstanzErzeugen(logPath)
    ensures t3[|t3| - 1] == InstanzFreigeben
    ensures forall i | |t| < i < |t3| - 1 :: t3[i].BearbeiteVorgang?
  {
    assert t3[..|t|] == t2[..|t1|][..|t|];
    assert t3[|t|] == t2[..|t1|][|t|];
    forall i | |t| < i < |t3| - 1
      ensures t3[i].BearbeiteVorgang?
    {
      assert t3[i] == t2[i];
    }
  }

  /** A fresh wrapper used as a context manager creates its instance exactly
      once and, when that worked, releases it exactly once, as the last native
      call it counts; it ends with no buffer open, and, with the corrected
      `decrypt_data`, no certificate handle open either. */
  lemma FreshWrapperReleasesEverything(o: Oracle, logPath: Option<string>, ops: seq<Operation>, v: Variant)
    ensures var r := WithEricWrapper(Fresh, o, logPath, ops, v);
            && r.0.buffers == multiset{} && (v == Corrected ==> r.0.certs == multiset{})
            && multiset(r.0.trace)[InstanzErzeugen(logPath)] == 1
            && multiset(r.0.trace)[InstanzFreigeben] == (if o.code(InstanzErzeugen(logPath)) == ERIC_OK then 1 else 0)
  {
    var r := WithEricWrapper(Fresh, o, logPath, ops, v);
    var t := r.0.trace;
    if o.code(InstanzErzeugen(logPath)) == ERIC_OK {
      InstanceCallsOnce(t, logPath);
    } else {
      assert t == [InstanzErzeugen(logPath)];
    }
  }

  /** The program as written does leave a handle open: a fresh wrapper whose
      body is one `decrypt_data` ends with that call's certificate handle
      still open whenever the instance and the handle could be had, whatever
      the decryption itself returned. */
  lemma AsWrittenWrapperLeaks(o: Oracle, logPath: Option<string>, data: string)
    requires o.code(InstanzErzeugen(logPath)) == ERIC_OK
    requires o.code(GetHandleToCertificate(Fresh.next)) == ERIC_OK
    ensures WithEricWrapper(Fresh, o, logPath, [OpDecryptData(data)], AsWritten).0.certs == multiset{Fresh.next}
  {
    var init := Initialise(Fresh, o, logPath);
    assert init.session.next == Fresh.next && init.session.certs == multiset{};
    DecryptBodyLeaks(init.session, o, data);
  }

  /** A body that is one as-written `decrypt_data` adds its certificate
      handle to the ledger once the handle could be had. */
  lemma DecryptBodyLeaks(s: Session, o: Oracle, data: string)
    requires o.code(GetHandleToCertificate(s.next)) == ERIC_OK
    ensures RunAll(s, o, [OpDecryptData(data)], AsWritten).session.certs == s.certs + multiset{s.next}
  {
    RunSingle(s, o, OpDecryptData(data), AsWritten);
    assert Run(s, o, OpDecryptData(data), AsWritten).session == DecryptDataAsWritten(s, o, data).session;
  }

  /** A block of one call ends where that call does. */
  lemma RunSingle(s: Session, o: Oracle, op: Operation, v: Variant)
    ensures RunAll(s, o, [op], v).session == Run(s, o, op, v).session
  {
    assert [op][0] == op && [op][1..] == [];
  }

  /** In a trace that starts with the creation, ends with the release and
      holds only processing calls in between, each occurs exactly once. */
  lemma InstanceCallsOnce(t: seq<NativeCall>, logPath: Option<string>)
    requires |t| >= 2 && t[0] == InstanzErzeugen(logPath) && t[|t| - 1] == InstanzFreigeben
    requires forall i | 0 < i < |t| - 1 :: t[i].BearbeiteVorgang?
    ensures multiset(t)[InstanzErzeugen(logPath)] == 1 && multiset(t)[InstanzFreigeben] == 1
  {
    var mid := t[1..|t| - 1];
    assert t == [t[0]] + mid + [t[|t| - 1]];
    CountOfProcessing(mid, InstanzErzeugen(logPath));
    CountOfProcessing(mid, InstanzFreigeben);
  }

  /** A trace of processing calls only holds no instance call. */
  lemma {:induction false} CountOfProcessing(t: seq<NativeCall>, c: NativeCall)
    requires !c.BearbeiteVorgang?
    requires forall i | 0 <= i < |t| :: t[i].BearbeiteVorgang?
    ensures multiset(t)[c] == 0
    decreases |t|
  {
    if |t| > 0 {
      assert t == [t[0]] + t[1..];
      assert t[0] != c;
      CountOfProcessing(t[1..], c);
    }
  }
}
