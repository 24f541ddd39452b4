/** The call protocol of `EricWrapper`, the Python wrapper around the native
    ERiC library. The native library is an oracle (`Oracle`): it decides every
    return code, whether the buffer allocator hands out a handle, and what each
    call writes into its output buffers. A `Session` is the wrapper's ledger:
    which buffers and certificate handles are open (as multisets, so an
    acquisition followed by its release leaves the ledger exactly as it was),
    what the buffers hold, and the trace of the native calls that create or
    release the instance or process data. */
module EricWrapper {
  import opened Wrappers
  import opened EricErrors

  type Handle = nat

  /** Processing flags; the wrapper only ever combines them with bitwise OR,
      so a set of flags stands for the OR of their bits. */
  datatype Flag = Validiere | Sende | Drucke

  /** The flag combinations the wrapper passes to the processing call. */
  const ValidateOnly: set<Flag> := {Validiere}
  const SendAndPrint: set<Flag> := {Sende, Drucke}
  const SendAndValidate: set<Flag> := {Sende, Validiere}

  /** EricVerschluesselungsParameterT: certificate handle (and PIN) plus the
      optional retrieval code. */
  datatype CertParams = CertParams(certHandle: Handle, abrufCode: Option<string>)

  /** EricDruckParameterT: the file the native call prints the PDF into. */
  datatype PrintParams = PrintParams(pdfName: Option<string>)

  /** The print parameters naming the file `pdfName`. */
  function PrintTo(pdfName: string): Option<PrintParams> {
    Some(PrintParams(Some(pdfName)))
  }

  datatype NativeCall =
    | InstanzErzeugen(logPath: Option<string>)
    | InstanzFreigeben
    | RueckgabepufferErzeugen(handle: Handle)
    | RueckgabepufferFreigeben(buffer: Handle)
    | GetHandleToCertificate(cert: Handle)
    | CloseHandleToCertificate(cert: Handle)
    | BearbeiteVorgang(xml: string, dataTypeVersion: string, flags: set<Flag>,
                       printParams: Option<PrintParams>, certParams: Option<CertParams>,
                       transferHandle: Option<string>, ericBuffer: Handle, serverBuffer: Handle)
    | PruefeSteuernummer(taxNumber: string)
    | DekodiereDaten(cert: Handle, data: string, buffer: Handle)
    | HoleFinanzaemter(stateId: string, buffer: Handle)
    | HoleFinanzamtLandNummern(buffer: Handle)
    | MakeElsterEWAz(taxNumber: string, state: string, buffer: Handle)
    | CreateTH(xml: string, datenart: string, verfahren: string, vorgang: string,
               testmerker: string, herstellerId: string, datenLieferant: string,
               versionClient: string, buffer: Handle)
    | GetErrormessagesFromXMLAnswer(xml: string, ticketBuffer: Handle, thCodeBuffer: Handle,
                                    thMessageBuffer: Handle, ndMessageBuffer: Handle)
    | HoleZertifikatEigenschaften(cert: Handle, buffer: Handle)

  /** The native library, seen from outside: `code` is the return code of a
      call, `allocates(h)` says whether the allocator hands out `h` rather than
      null, `output(c, k)` is what call `c` writes into its k-th output buffer,
      `pdf(c)` the document a processing call printed, if any. */
  datatype Oracle = Oracle(
    code: NativeCall -> int,
    allocates: Handle -> bool,
    output: (NativeCall, nat) -> string,
    pdf: NativeCall -> Option<string>)


  datatype Session = Session(
    next: Handle,
    buffers: multiset<Handle>,
    certs: multiset<Handle>,
    contents: map<Handle, string>,
    trace: seq<NativeCall>)

  /** A wrapper call: the session afterwards and what the call returned or raised. */
  datatype Step<T> = Step(session: Session, result: Result<T, EricError>)

  datatype EricResponse = EricResponse(
    resultCode: int, ericResponse: string, serverResponse: string, pdf: Option<string>)

  /** The four fields the native parser extracts from a server answer. */
  datatype ErrorFields = ErrorFields(
    transferTicket: string, thReturnCode: string, thErrorMessage: string, ndErrorMessage: string)

  /** A fresh wrapper: nothing open, nothing called. */
  const Fresh: Session := Session(0, multiset{}, multiset{}, map[], [])

  /** Whether `s'` holds exactly the buffers and certificate handles `s` holds. */
  predicate Balanced(s: Session, s': Session) {
    s'.buffers == s.buffers && s'.certs == s.certs
  }

  /** The native calls the wrapper's tests count: creating and releasing the
      instance, and processing data. */
  predicate Tracked(c: NativeCall) {
    c.InstanzErzeugen? || c.InstanzFreigeben? || c.BearbeiteVorgang?
  }

  /** Makes the native call `c`; it enters the trace when it is counted. */
  function Record(s: Session, c: NativeCall): (s': Session)
    ensures s'.trace == s.trace + (if Tracked(c) then [c] else [])
  {
    if Tracked(c) then s.(trace := s.trace + [c]) else s
  }

  function ToResult<T>(out: Outcome, v: T): (r: Result<T, EricError>)
    ensures r.Success? <==> out.Pass?
    ensures r.Success? ==> r.value == v
    ensures r.Failure? ==> r.error == out.error
  {
    match out
    case Pass => Success(v)
    case Fail(e) => Failure(e)
  }

  function ToOutcome<T>(r: Result<T, EricError>): (out: Outcome)
    ensures out.Pass? <==> r.Success?
    ensures out.Fail? ==> out.error == r.error
  {
    match r
    case Success(_) => Pass
    case Failure(e) => Fail(e)
  }

  /** What `try: body finally: release` raises in Python: an error raised by
      the release replaces whatever the body raised or returned. */
  function Then<T>(body: Result<T, EricError>, release: Outcome): (r: Result<T, EricError>)
    ensures r.Success? <==> body.Success? && release.Pass?
    ensures release.Pass? ==> r == body
    ensures release.Fail? ==> r == Failure(release.error)
  {
    match release
    case Pass => body
    case Fail(e) => Failure(e)
  }

  // ---------------------------------------------------------------------
  // Primitives

  /** `initialise`: EricMtInstanzErzeugen; a nonzero code raises. */
  function Initialise(s: Session, o: Oracle, logPath: Option<string>): (st: Step<()>)
    ensures Balanced(s, st.session)
    ensures st.result.Success? <==> o.code(InstanzErzeugen(logPath)) == ERIC_OK
    ensures st.result.Failure? ==> st.result.error == CheckResult(o.code(InstanzErzeugen(logPath))).error
    ensures st.session.trace == s.trace + [InstanzErzeugen(logPath)]
  {
    var c := InstanzErzeugen(logPath);
    Step(Record(s, c), ToResult(CheckResult(o.code(c)), ()))
  }

  /** `shutdown`: EricMtInstanzFreigeben; a nonzero code raises. */
  function Shutdown(s: Session, o: Oracle): (st: Step<()>)
    ensures Balanced(s, st.session)
    ensures st.result.Success? <==> o.code(InstanzFreigeben) == ERIC_OK
    ensures st.result.Failure? ==> st.result.error == CheckResult(o.code(InstanzFreigeben)).error
    ensures st.session.trace == s.trace + [InstanzFreigeben]
  {
    Step(Record(s, InstanzFreigeben), ToResult(CheckResult(o.code(InstanzFreigeben)), ()))
  }

  /** `create_buffer`: EricMtRueckgabepufferErzeugen; a null handle raises
      `NullReturned`. */
  function CreateBuffer(s: Session, o: Oracle): (st: Step<Handle>)
    ensures st.session.next == s.next + 1 && st.session.certs == s.certs && st.session.trace == s.trace
    ensures st.result.Success? <==> o.allocates(s.next)
    ensures st.result.Success? ==> st.result.value == s.next && st.session.buffers == s.buffers + multiset{s.next}
    ensures st.result.Failure? ==> st.session.buffers == s.buffers && st.result.error == NullReturned
  {
    var h := s.next;
    var s1 := Record(s, RueckgabepufferErzeugen(h)).(next := h + 1);
    match CheckHandle(if o.allocates(h) then Some(h) else None)
    case Success(b) => Step(s1.(buffers := s.buffers + multiset{b}, contents := s.contents[b := ""]), Success(b))
    case Failure(e) => Step(s1, Failure(e))
  }

  /** `read_buffer`: the content last written into a buffer. */
  function ReadBuffer(s: Session, h: Handle): string
    requires h in s.contents
  {
    s.contents[h]
  }

  /** `close_buffer`: EricMtRueckgabepufferFreigeben; the handle leaves the
      ledger whatever the code, and a nonzero code raises. */
  function CloseBuffer(s: Session, o: Oracle, h: Handle): (st: Step<()>)
    ensures st.session.buffers == s.buffers - multiset{h}
    ensures st.session.certs == s.certs && st.session.trace == s.trace && st.session.next == s.next
    ensures st.result.Success? <==> o.code(RueckgabepufferFreigeben(h)) == ERIC_OK
    ensures st.result.Failure? ==> st.result.error == CheckResult(o.code(RueckgabepufferFreigeben(h))).error
  {
    var c := RueckgabepufferFreigeben(h);
    Step(Record(s, c).(buffers := s.buffers - multiset{h}), ToResult(CheckResult(o.code(c)), ()))
  }

  /** `get_cert_handle`: EricMtGetHandleToCertificate; the handle is open only
      when the code is zero. */
  function GetCertHandle(s: Session, o: Oracle): (st: Step<Handle>)
    ensures st.result.Success? <==> o.code(GetHandleToCertificate(s.next)) == ERIC_OK
    ensures st.result.Success? ==> st.result.value == s.next && st.session == WithCert(s)
    ensures st.result.Failure? ==> Balanced(s, st.session) && st.session.trace == s.trace
    ensures st.result.Failure? ==> st.result.error == CheckResult(o.code(GetHandleToCertificate(s.next))).error
  {
    var h := s.next;
    var c := GetHandleToCertificate(h);
    var s1 := Record(s, c).(next := h + 1);
    match CheckResult(o.code(c))
    case Pass => Step(s1.(certs := s.certs + multiset{h}), Success(h))
    case Fail(e) => Step(s1, Failure(e))
  }

  /** The session right after the certificate handle `s.next` was acquired. */
  function WithCert(s: Session): Session {
    s.(next := s.next + 1, certs := s.certs + multiset{s.next})
  }

  /** `close_cert_handle`: EricMtCloseHandleToCertificate; the handle leaves
      the ledger whatever the code, and a nonzero code raises. */
  function CloseCertHandle(s: Session, o: Oracle, h: Handle): (st: Step<()>)
    ensures st.session.certs == s.certs - multiset{h}
    ensures st.session.buffers == s.buffers && st.session.trace == s.trace
    ensures st.result.Success? <==> o.code(CloseHandleToCertificate(h)) == ERIC_OK
    ensures st.result.Failure? ==> st.result.error == CheckResult(o.code(CloseHandleToCertificate(h))).error
  {
    var c := CloseHandleToCertificate(h);
    Step(Record(s, c).(certs := s.certs - multiset{h}), ToResult(CheckResult(o.code(c)), ()))
  }

  // ---------------------------------------------------------------------
  // Several buffers at once

  /** The handles `a`, `a + 1`, ..., `a + n - 1`, in allocation order. */
  function Handles(a: Handle, n: nat): (hs: seq<Handle>)
    decreases n
  {
    if n == 0 then [] else [a] + Handles(a + 1, n - 1)
  }

  /** `Handles(a, n)` lists `n` consecutive, hence distinct, handles from `a` on. */
  lemma {:induction false} HandlesConsecutive(a: Handle, n: nat)
    ensures |Handles(a, n)| == n
    ensures forall i | 0 <= i < n :: Handles(a, n)[i] == a + i
    ensures Distinct(Handles(a, n))
    decreases n
  {
    if n > 0 {
      HandlesConsecutive(a + 1, n - 1);
    }
  }

  predicate Distinct(hs: seq<Handle>) {
    forall i, j | 0 <= i < j < |hs| :: hs[i] != hs[j]
  }

  lemma HandlesDistinct(a: Handle, n: nat)
    ensures |Handles(a, n)| == n && Distinct(Handles(a, n))
  {
    HandlesConsecutive(a, n);
  }

  /** Whether the allocator hands out each of the next `n` handles. */
  predicate Allocates(o: Oracle, a: Handle, n: nat)
    decreases n
  {
    n == 0 || (o.allocates(a) && Allocates(o, a + 1, n - 1))
  }

  /** Whether releasing each of the `n` buffers from handle `a` on returns zero. */
  predicate Releases(o: Oracle, a: Handle, n: nat)
    decreases n
  {
    n == 0 || (o.code(RueckgabepufferFreigeben(a)) == ERIC_OK && Releases(o, a + 1, n - 1))
  }

  /** Releasing the handles `Handles(a, n)` one by one is releasing the `n`
      buffers from `a` on. */
  lemma {:induction false} ReleasesHandles(o: Oracle, a: Handle, n: nat)
    ensures ClosesCleanly(o, Handles(a, n)) <==> Releases(o, a, n)
    decreases n
  {
    if n > 0 {
      ReleasesHandles(o, a + 1, n - 1);
      HandlesConsecutive(a, n);
      var hs := Handles(a, n);
      assert hs[0] == a && hs[1..] == Handles(a + 1, n - 1);
      if ClosesCleanly(o, hs) {
        assert forall i | 0 <= i < n - 1 :: hs[1..][i] == hs[i + 1];
      }
      if o.code(RueckgabepufferFreigeben(a)) == ERIC_OK && ClosesCleanly(o, hs[1..]) {
        forall i | 0 <= i < n
          ensures o.code(RueckgabepufferFreigeben(hs[i])) == ERIC_OK
        {
          if i > 0 {
            assert hs[i] == hs[1..][i - 1];
          }
        }
      }
    }
  }

  /** Whether releasing each buffer in `hs` returns zero. */
  predicate ClosesCleanly(o: Oracle, hs: seq<Handle>) {
    forall i | 0 <= i < |hs| :: o.code(RueckgabepufferFreigeben(hs[i])) == ERIC_OK
  }

  /** Creates `n` buffers one after the other; when one allocation returns
      null, the buffers already created are closed again before raising. */
  function CreateBuffers(s: Session, o: Oracle, n: nat): (st: Step<seq<Handle>>)
    ensures st.session.certs == s.certs && st.session.trace == s.trace
    ensures st.result.Success? <==> Allocates(o, s.next, n)
    ensures st.result.Success? ==> st.result.value == Handles(s.next, n)
    ensures st.session.buffers == if st.result.Success? then s.buffers + multiset(Handles(s.next, n)) else s.buffers
    decreases n
  {
    if n == 0 then Step(s, Success([]))
    else
      var first := CreateBuffer(s, o);
      match first.result
      case Failure(e) => Step(first.session, Failure(e))
      case Success(h) => CreateMore(s, o, n, first.session)
  }

  /** The rest of `CreateBuffers` once its first buffer `s.next` exists. */
  function CreateMore(s: Session, o: Oracle, n: nat, s1: Session): (st: Step<seq<Handle>>)
    requires n > 0 && o.allocates(s.next) && s1 == CreateBuffer(s, o).session
    ensures st.session.certs == s.certs && st.session.trace == s.trace
    ensures st.result.Success? <==> Allocates(o, s.next, n)
    ensures st.result.Success? ==> st.result.value == Handles(s.next, n)
    ensures st.session.buffers == if st.result.Success? then s.buffers + multiset(Handles(s.next, n)) else s.buffers
    decreases n, 0
  {
    var rest := CreateBuffers(s1, o, n - 1);
    match rest.result
    case Success(hs) => Step(rest.session, Success([s.next] + hs))
    case Failure(e) =>
      var closed := CloseBuffer(rest.session, o, s.next);
      Step(closed.session, Then(Failure(e), ToOutcome(closed.result)))
  }

  /** Closes every buffer in `hs`, each release in a `finally` of its own:
      every release is attempted, and the last error raised is the one that
      propagates. */
  function CloseBuffers(s: Session, o: Oracle, hs: seq<Handle>): (st: Step<()>)
    ensures st.session.buffers == s.buffers - multiset(hs)
    ensures st.session.certs == s.certs && st.session.trace == s.trace
    ensures st.result.Success? <==> ClosesCleanly(o, hs)
    decreases |hs|
  {
    if |hs| == 0 then Step(s, Success(()))
    else
      var first := CloseBuffer(s, o, hs[0]);
      var rest := CloseBuffers(first.session, o, hs[1..]);
      assert hs == [hs[0]] + hs[1..];
      MinusBoth(s.buffers, hs[0], hs[1..]);
      Step(rest.session, if rest.result.Failure? then rest.result else first.result)
  }

  /** Removing one handle and then several is removing all of them at once. */
  lemma MinusBoth(a: multiset<Handle>, h: Handle, rest: seq<Handle>)
    ensures (a - multiset{h}) - multiset(rest) == a - multiset([h] + rest)
  {
    assert multiset([h] + rest) == multiset{h} + multiset(rest);
  }

  /** Makes a native call that writes its outputs into the distinct buffers
      `outs`: the k-th buffer receives `o.output(c, k)`. */
  function Invoke(s: Session, o: Oracle, c: NativeCall, outs: seq<Handle>): (s': Session)
    requires Distinct(outs)
    ensures s'.buffers == s.buffers && s'.certs == s.certs
    ensures s'.trace == s.trace + (if Tracked(c) then [c] else [])
    ensures forall k | 0 <= k < |outs| :: outs[k] in s'.contents && s'.contents[outs[k]] == o.output(c, k)
  {
    Record(s, c).(contents := Written(s.contents, o, c, outs, 0))
  }

  /** The buffer contents after the outputs `k..` of call `c` are written. */
  function Written(bufs: map<Handle, string>, o: Oracle, c: NativeCall, outs: seq<Handle>, k: nat): (r: map<Handle, string>)
    requires k <= |outs| && Distinct(outs)
    ensures forall j | k <= j < |outs| :: outs[j] in r && r[outs[j]] == o.output(c, j)
    ensures forall h | h in bufs && h !in outs[k..] :: h in r && r[h] == bufs[h]
    decreases |outs| - k
  {
    if k == |outs| then bufs
    else Written(bufs[outs[k] := o.output(c, k)], o, c, outs, k + 1)
  }

  /** The texts call `c` writes into its first `n` output buffers. */
  function Outputs(o: Oracle, c: NativeCall, n: nat): (r: seq<string>)
    ensures |r| == n && forall k | 0 <= k < n :: r[k] == o.output(c, k)
  {
    seq(n, k requires 0 <= k => o.output(c, k))
  }

  /** `read_buffer` on each of `hs`, in order. */
  function ReadAll(s: Session, hs: seq<Handle>): (texts: seq<string>)
    requires forall i | 0 <= i < |hs| :: hs[i] in s.contents
    ensures |texts| == |hs| && forall i | 0 <= i < |hs| :: texts[i] == s.contents[hs[i]]
  {
    seq(|hs|, i requires 0 <= i < |hs| => ReadBuffer(s, hs[i]))
  }

  /** Calls `c` with the open buffers `hs` as its outputs, reads every buffer,
      closes every buffer, and raises on a nonzero code of the call. */
  function CallWith(s: Session, o: Oracle, c: NativeCall, hs: seq<Handle>): (st: Step<seq<string>>)
    requires Distinct(hs)
    ensures st.session.buffers == s.buffers - multiset(hs) && st.session.certs == s.certs
    ensures st.session.trace == s.trace + (if Tracked(c) then [c] else [])
    ensures st.result.Success? <==> o.code(c) == ERIC_OK && ClosesCleanly(o, hs)
    ensures st.result.Success? ==> st.result.value == Outputs(o, c, |hs|)
    ensures ClosesCleanly(o, hs) && o.code(c) != ERIC_OK ==> st.result == Failure(CheckResult(o.code(c)).error)
  {
    var called := Invoke(s, o, c, hs);
    var texts := ReadAll(called, hs);
    assert texts == Outputs(o, c, |hs|);
    var closed := CloseBuffers(called, o, hs);
    Step(closed.session, Then(ToResult(CheckResult(o.code(c)), texts), ToOutcome(closed.result)))
  }

  /** What creating `n` buffers from handle `s.next` on, calling `c` with
      them, reading and closing them does to a session: the ledger is as
      before, `c` enters the trace when all buffers exist and `c` is counted,
      and the exchange succeeds exactly when every buffer exists and `c` and
      every release return zero, yielding the texts `c` wrote. */
  ghost predicate Exchanged(s: Session, o: Oracle, c: NativeCall, n: nat, st: Step<seq<string>>) {
    && Balanced(s, st.session)
    && st.session.trace == s.trace + (if Allocates(o, s.next, n) && Tracked(c) then [c] else [])
    && (st.result.Success? <==> Allocates(o, s.next, n) && o.code(c) == ERIC_OK && Releases(o, s.next, n))
    && (st.result.Success? ==> st.result.value == Outputs(o, c, n))
  }

  /** The buffer discipline every native query follows: create `n` buffers
      (handles `s.next`, `s.next + 1`, ...), make the call `c` that writes
      into them, read them, close them, and raise on a nonzero code. */
  function Exchange(s: Session, o: Oracle, c: NativeCall, n: nat): (st: Step<seq<string>>)
    ensures Exchanged(s, o, c, n, st)
    ensures Allocates(o, s.next, n) && Releases(o, s.next, n) && o.code(c) != ERIC_OK ==>
              st.result == Failure(CheckResult(o.code(c)).error)
  {
    var created := CreateBuffers(s, o, n);
    match created.result
    case Failure(e) => Step(created.session, Failure(e))
    case Success(hs) =>
      HandlesDistinct(s.next, n);
      CallOnCreated(s, o, c, n, created);
      CallWith(created.session, o, c, hs)
  }

  /** Once all `n` buffers exist, calling, reading and closing them completes
      the exchange: the buffers just created are exactly the ones released. */
  lemma CallOnCreated(s: Session, o: Oracle, c: NativeCall, n: nat, created: Step<seq<Handle>>)
    requires created == CreateBuffers(s, o, n) && created.result.Success?
    requires Distinct(created.result.value)
    ensures var done := CallWith(created.session, o, c, created.result.value);
            && Exchanged(s, o, c, n, done)
            && (Releases(o, s.next, n) && o.code(c) != ERIC_OK ==> done.result == Failure(CheckResult(o.code(c)).error))
  {
    CreatedThenClosed(s, o, c, n, created);
    HandlesConsecutive(s.next, n);
    ReleasesHandles(o, s.next, n);
  }

  /** Closing the buffers just created restores the buffer ledger. */
  lemma CreatedThenClosed(s: Session, o: Oracle, c: NativeCall, n: nat, created: Step<seq<Handle>>)
    requires created == CreateBuffers(s, o, n) && created.result.Success?
    requires Distinct(created.result.value)
    ensures Balanced(s, CallWith(created.session, o, c, created.result.value).session)
  {
    var hs := created.result.value;
    var done := CallWith(created.session, o, c, hs);
    assert done.session.buffers == s.buffers + multiset(hs) - multiset(hs) == s.buffers;
  }

  // ---------------------------------------------------------------------
  // Processing calls

  /** What one processing call `c` writing into the two buffers from handle
      `b` on does to a session: the ledger is as before, `c` enters the trace
      exactly when both buffers could be created, and the call succeeds exactly
      when both buffers exist, `c` returns zero and every release returns zero
      (`releases` covers releases beyond the two buffers), in which case the
      response carries the texts `c` wrote and the document `pdf`. */
  ghost predicate Processed(s: Session, o: Oracle, c: NativeCall, b: Handle, releases: bool, pdf: Option<string>,
                            st: Step<EricResponse>) {
    && Balanced(s, st.session)
    && st.session.trace == s.trace + (if Allocates(o, b, 2) then [c] else [])
    && (st.result.Success? <==> Allocates(o, b, 2) && o.code(c) == ERIC_OK && Releases(o, b, 2) && releases)
    && (st.result.Success? ==> st.result.value == EricResponse(ERIC_OK, o.output(c, 0), o.output(c, 1), pdf))
  }

  /** The processing call `Process` makes once its two buffers exist. */
  function ProcessCall(s: Session, xml: string, version: string, flags: set<Flag>,
                       transfer: Option<string>, cert: Option<CertParams>, printing: Option<PrintParams>): NativeCall
  {
    BearbeiteVorgang(xml, version, flags, printing, cert, transfer, s.next, s.next + 1)
  }

  /** `process`: creates the eric-response and server-response buffers, calls
      EricMtBearbeiteVorgang, reads both buffers, closes both, and raises on a
      nonzero code. The response carries the texts the call wrote into the two
      buffers and no document. */
  function Process(s: Session, o: Oracle, xml: string, version: string, flags: set<Flag>,
                   transfer: Option<string>, cert: Option<CertParams>, printing: Option<PrintParams>): (st: Step<EricResponse>)
    ensures Processed(s, o, ProcessCall(s, xml, version, flags, transfer, cert, printing), s.next, true, None, st)
    ensures var c := ProcessCall(s, xml, version, flags, transfer, cert, printing);
            Allocates(o, s.next, 2) && Releases(o, s.next, 2) && o.code(c) != ERIC_OK ==>
              st.result == Failure(CheckResult(o.code(c)).error)
  {
    var c := ProcessCall(s, xml, version, flags, transfer, cert, printing);
    var ex := Exchange(s, o, c, 2);
    match ex.result
    case Success(texts) => Step(ex.session, Success(EricResponse(o.code(c), texts[0], texts[1], None)))
    case Failure(e) => Step(ex.session, Failure(e))
  }

  /** `validate`: one processing call with only the VALIDIERE flag and no
      certificate, print parameters or transfer handle. */
  function Validate(s: Session, o: Oracle, xml: string, version: string): (st: Step<EricResponse>)
    ensures Processed(s, o, BearbeiteVorgang(xml, version, ValidateOnly, None, None, None, s.next, s.next + 1), s.next, true, None, st)
  {
    var c := ProcessCall(s, xml, version, ValidateOnly, None, None, None);
    assert c == BearbeiteVorgang(xml, version, ValidateOnly, None, None, None, s.next, s.next + 1);
    var st := Process(s, o, xml, version, ValidateOnly, None, None, None);
    assert Processed(s, o, c, s.next, true, None, st);
    st
  }

  /** What acquiring a certificate handle, one processing call with the
      certificate parameters made from it, and the handle's release do to a
      session: when the handle cannot be acquired, nothing else happens and
      that code's error is raised; otherwise the call behaves as `Processed`
      says, with its buffers after the handle and the handle's release among
      the releases that must return zero. */
  ghost predicate CertProcessed(s: Session, o: Oracle, xml: string, version: string, flags: set<Flag>,
                                transfer: Option<string>, abrufCode: Option<string>,
                                printing: Option<PrintParams>, pdf: Option<string>, st: Step<EricResponse>) {
    && (o.code(GetHandleToCertificate(s.next)) != ERIC_OK ==>
          && Balanced(s, st.session) && st.session.trace == s.trace
          && st.result == Failure(CheckResult(o.code(GetHandleToCertificate(s.next))).error))
    && (o.code(GetHandleToCertificate(s.next)) == ERIC_OK ==>
          Processed(s, o, BearbeiteVorgang(xml, version, flags, printing, Some(CertParams(s.next, abrufCode)),
                                           transfer, s.next + 1, s.next + 2),
                    s.next + 1, o.code(CloseHandleToCertificate(s.next)) == ERIC_OK, pdf, st))
  }

  /** Acquires a certificate handle, runs `process` with the parameter blocks
      made from it, and closes the handle whatever `process` did. */
  function WithCertificate(s: Session, o: Oracle, xml: string, version: string, flags: set<Flag>,
                           transfer: Option<string>, abrufCode: Option<string>,
                           printing: Option<PrintParams>): (st: Step<EricResponse>)
    ensures CertProcessed(s, o, xml, version, flags, transfer, abrufCode, printing, None, st)
  {
    var got := GetCertHandle(s, o);
    match got.result
    case Failure(e) => Step(got.session, Failure(e))
    case Success(h) => CertifiedProcess(s, o, xml, version, flags, transfer, abrufCode, printing)
  }

  /** The part of `WithCertificate` after the handle `s.next` was acquired:
      `process` with the certificate parameters, then the handle's release. */
  function CertifiedProcess(s: Session, o: Oracle, xml: string, version: string, flags: set<Flag>,
                            transfer: Option<string>, abrufCode: Option<string>,
                            printing: Option<PrintParams>): (st: Step<EricResponse>)
    ensures Processed(s, o, BearbeiteVorgang(xml, version, flags, printing, Some(CertParams(s.next, abrufCode)),
                                             transfer, s.next + 1, s.next + 2),
                      s.next + 1, o.code(CloseHandleToCertificate(s.next)) == ERIC_OK, None, st)
  {
    var s1 := WithCert(s);
    var c := ProcessCall(s1, xml, version, flags, transfer, Some(CertParams(s.next, abrufCode)), printing);
    assert c == BearbeiteVorgang(xml, version, flags, printing, Some(CertParams(s.next, abrufCode)),
                                 transfer, s.next + 1, s.next + 2);
    var processed := Process(s1, o, xml, version, flags, transfer, Some(CertParams(s.next, abrufCode)), printing);
    ProcessedThenCloseCert(s, o, c, processed);
    var closed := CloseCertHandle(processed.session, o, s.next);
    Step(closed.session, Then(processed.result, ToOutcome(closed.result)))
  }

  /** Closing the certificate handle after a processing call balances the
      ledger again and adds its own return code to the success condition. */
  lemma ProcessedThenCloseCert(s: Session, o: Oracle, c: NativeCall, inner: Step<EricResponse>)
    requires Processed(WithCert(s), o, c, s.next + 1, true, None, inner)
    ensures var closed := CloseCertHandle(inner.session, o, s.next);
            Processed(s, o, c, s.next + 1, o.code(CloseHandleToCertificate(s.next)) == ERIC_OK, None,
                      Step(closed.session, Then(inner.result, ToOutcome(closed.result))))
  {
  }

  /** The processing call `validate_and_send` makes once the certificate
      handle `s.next` is acquired: SENDE|DRUCKE, printing to `pdfName`. */
  function SendCall(s: Session, xml: string, version: string, pdfName: string): NativeCall {
    BearbeiteVorgang(xml, version, SendAndPrint, PrintTo(pdfName), Some(CertParams(s.next, None)), None, s.next + 1, s.next + 2)
  }

  /** A step whose response, if any, carries the document `pdf`. */
  function WithPdf(st: Step<EricResponse>, pdf: Option<string>): (r: Step<EricResponse>)
    ensures r.session == st.session && (r.result.Success? <==> st.result.Success?)
    ensures r.result.Failure? ==> r.result == st.result
    ensures r.result.Success? ==> r.result.value == st.result.value.(pdf := pdf)
  {
    match st.result
    case Success(v) => Step(st.session, Success(v.(pdf := pdf)))
    case Failure(_) => st
  }

  /** `validate_and_send`: one processing call with SENDE|DRUCKE, the
      certificate parameters and print parameters naming the PDF file; the
      response is that call's, carrying the document the call printed into the
      file. */
  function ValidateAndSend(s: Session, o: Oracle, xml: string, version: string, pdfName: string): (st: Step<EricResponse>)
    ensures CertProcessed(s, o, xml, version, SendAndPrint, None, None, PrintTo(pdfName), o.pdf(SendCall(s, xml, version, pdfName)), st)
  {
    var sent := WithCertificate(s, o, xml, version, SendAndPrint, None, None, PrintTo(pdfName));
    WithPdf(sent, o.pdf(SendCall(s, xml, version, pdfName)))
  }

  /** `process_verfahren`: one processing call with SENDE|VALIDIERE, the
      certificate parameters and the caller's transfer handle (None by
      default), without print parameters. */
  function ProcessVerfahren(s: Session, o: Oracle, xml: string, verfahren: string,
                            abrufCode: Option<string>, transfer: Option<string>): (st: Step<EricResponse>)
    ensures CertProcessed(s, o, xml, verfahren, SendAndValidate, transfer, abrufCode, None, None, st)
  {
    WithCertificate(s, o, xml, verfahren, SendAndValidate, transfer, abrufCode, None)
  }

  // ---------------------------------------------------------------------
  // Single native queries

  /** `check_tax_number`: EricMtPruefeSteuernummer; zero means valid, the
      "invalid tax number" code means invalid, and every other code raises. */
  function CheckTaxNumber(s: Session, o: Oracle, taxNumber: string): (st: Step<bool>)
    ensures st.session == s
    ensures st.result == Success(true) <==> o.code(PruefeSteuernummer(taxNumber)) == ERIC_OK
    ensures st.result == Success(false) <==> o.code(PruefeSteuernummer(taxNumber)) == ERIC_GLOBAL_STEUERNUMMER_UNGUELTIG
    ensures st.result.Failure? ==> st.result.error == CheckResult(o.code(PruefeSteuernummer(taxNumber))).error
  {
    var c := PruefeSteuernummer(taxNumber);
    var code := o.code(c);
    Step(Record(s, c),
         if code == ERIC_OK then Success(true)
         else if code == ERIC_GLOBAL_STEUERNUMMER_UNGUELTIG then Success(false)
         else Failure(CheckResult(code).error))
  }

  /** What a query that writes one text into the buffer `b` does to a session:
      the ledger and trace are as before, and it succeeds exactly when the
      buffer exists, the query `c` and every release return zero (`releases`
      covers releases beyond the buffer), with the text `c` wrote as its
      result. */
  ghost predicate Answered(s: Session, o: Oracle, c: NativeCall, b: Handle, releases: bool, st: Step<string>) {
    && Balanced(s, st.session) && st.session.trace == s.trace
    && (st.result.Success? <==>
          o.allocates(b) && o.code(c) == ERIC_OK && o.code(RueckgabepufferFreigeben(b)) == ERIC_OK && releases)
    && (st.result.Success? ==> st.result.value == o.output(c, 0))
  }

  /** A single-shot query: one buffer (handle `s.next`) created before the
      call `c` that writes into it, and closed after reading it, whatever the
      call returned. */
  function Query(s: Session, o: Oracle, c: NativeCall): (st: Step<string>)
    requires !Tracked(c)
    ensures Answered(s, o, c, s.next, true, st)
  {
    var ex := Exchange(s, o, c, 1);
    match ex.result
    case Success(texts) => Step(ex.session, Success(texts[0]))
    case Failure(e) => Step(ex.session, Failure(e))
  }

  /** `get_tax_offices`: the tax offices of one state, as the native call wrote them. */
  function GetTaxOffices(s: Session, o: Oracle, stateId: string): (st: Step<string>)
    ensures Answered(s, o, HoleFinanzaemter(stateId, s.next), s.next, true, st)
  {
    Query(s, o, HoleFinanzaemter(stateId, s.next))
  }

  /** `get_state_id_list`: the list of state ids, as the native call wrote it. */
  function GetStateIdList(s: Session, o: Oracle): (st: Step<string>)
    ensures Answered(s, o, HoleFinanzamtLandNummern(s.next), s.next, true, st)
  {
    Query(s, o, HoleFinanzamtLandNummern(s.next))
  }

  /** `get_electronic_aktenzeichen`: the electronic file number computed from
      a tax number and a state. */
  function GetElectronicAktenzeichen(s: Session, o: Oracle, taxNumber: string, state: string): (st: Step<string>)
    ensures Answered(s, o, MakeElsterEWAz(taxNumber, state, s.next), s.next, true, st)
  {
    Query(s, o, MakeElsterEWAz(taxNumber, state, s.next))
  }

  /** `create_th`: the transfer header the native call wraps around `xml`. */
  function CreateTransferHeader(s: Session, o: Oracle, xml: string, datenart: string, verfahren: string,
                                vorgang: string, testmerker: string, herstellerId: string,
                                datenLieferant: string, versionClient: string): (st: Step<string>)
    ensures Answered(s, o, CreateTH(xml, datenart, verfahren, vorgang, testmerker, herstellerId,
                                    datenLieferant, versionClient, s.next), s.next, true, st)
  {
    Query(s, o, CreateTH(xml, datenart, verfahren, vorgang, testmerker, herstellerId,
                         datenLieferant, versionClient, s.next))
  }

  /** What parsing a server answer with the call `c`, which writes four
      fields into the buffers from `s.next` on, does to a session: the ledger
      and trace are as before, and it succeeds exactly when the four buffers
      exist and `c` and every release return zero, with the four texts `c`
      wrote as the fields, in buffer order. */
  ghost predicate Parsed(s: Session, o: Oracle, c: NativeCall, st: Step<ErrorFields>) {
    && Balanced(s, st.session) && st.session.trace == s.trace
    && (st.result.Success? <==> Allocates(o, s.next, 4) && o.code(c) == ERIC_OK && Releases(o, s.next, 4))
    && (st.result.Success? ==>
          st.result.value == ErrorFields(o.output(c, 0), o.output(c, 1), o.output(c, 2), o.output(c, 3)))
  }

  /** `get_error_message_from_xml_response`: four buffers, one native parse of
      the server answer, and its four fields in order. */
  function GetErrorMessageFromXmlResponse(s: Session, o: Oracle, xml: string): (st: Step<ErrorFields>)
    ensures Parsed(s, o, GetErrormessagesFromXMLAnswer(xml, s.next, s.next + 1, s.next + 2, s.next + 3), st)
  {
    var c := GetErrormessagesFromXMLAnswer(xml, s.next, s.next + 1, s.next + 2, s.next + 3);
    var ex := Exchange(s, o, c, 4);
    ExchangedFields(s, o, c, ex);
    AsFields(ex)
  }

  /** A four-text exchange, read as fields, is a parse as `Parsed` describes it. */
  lemma ExchangedFields(s: Session, o: Oracle, c: NativeCall, ex: Step<seq<string>>)
    requires Exchanged(s, o, c, 4, ex) && !Tracked(c)
    ensures ex.result.Success? ==> |ex.result.value| == 4
    ensures Parsed(s, o, c, AsFields(ex))
  {
  }

  /** The four texts of a successful exchange as the fields they stand for. */
  function AsFields(ex: Step<seq<string>>): (st: Step<ErrorFields>)
    requires ex.result.Success? ==> |ex.result.value| == 4
    ensures st.session == ex.session && (st.result.Success? <==> ex.result.Success?)
    ensures st.result.Success? ==>
              var v := ex.result.value; st.result.value == ErrorFields(v[0], v[1], v[2], v[3])
  {
    match ex.result
    case Success(v) => Step(ex.session, Success(ErrorFields(v[0], v[1], v[2], v[3])))
    case Failure(e) => Step(ex.session, Failure(e))
  }

  /** What a query through a certificate handle does: the handle is acquired
      at `s.next`, the query `c` writes into the buffer `s.next + 1`, and, when
      `release` holds, the handle is closed again. The buffer and the trace
      are as before; the handle stays open only when it is not released; and
      the query succeeds exactly when the handle is acquired, the buffer
      exists, and `c` and every release return zero. */
  ghost predicate CertAnswered(s: Session, o: Oracle, c: NativeCall, release: bool, st: Step<string>) {
    && st.session.buffers == s.buffers && st.session.trace == s.trace
    && st.session.certs == (if release || o.code(GetHandleToCertificate(s.next)) != ERIC_OK then s.certs
                            else s.certs + multiset{s.next})
    && (st.result.Success? <==>
          && o.code(GetHandleToCertificate(s.next)) == ERIC_OK
          && o.allocates(s.next + 1)
          && o.code(c) == ERIC_OK
          && o.code(RueckgabepufferFreigeben(s.next + 1)) == ERIC_OK
          && (release ==> o.code(CloseHandleToCertificate(s.next)) == ERIC_OK))
    && (st.result.Success? ==> st.result.value == o.output(c, 0))
  }

  /** Acquires a certificate handle (`s.next`), runs the single-shot query
      `c` made with it and the buffer `s.next + 1`, and, when `release`
      holds, closes the handle whatever the query did. */
  function CertQuery(s: Session, o: Oracle, c: NativeCall, release: bool): (st: Step<string>)
    requires !Tracked(c)
    ensures CertAnswered(s, o, c, release, st)
  {
    var got := GetCertHandle(s, o);
    match got.result
    case Failure(e) => Step(got.session, Failure(e))
    case Success(h) => HeldQuery(s, o, c, release)
  }

  /** The part of `CertQuery` after the handle `s.next` was acquired. */
  function HeldQuery(s: Session, o: Oracle, c: NativeCall, release: bool): (st: Step<string>)
    requires !Tracked(c) && o.code(GetHandleToCertificate(s.next)) == ERIC_OK
    ensures CertAnswered(s, o, c, release, st)
  {
    var queried := Query(WithCert(s), o, c);
    if release then
      QueryThenCloseCert(s, o, c, queried);
      var closed := CloseCertHandle(queried.session, o, s.next);
      Step(closed.session, Then(queried.result, ToOutcome(closed.result)))
    else
      QueryKeepsCert(s, o, c, queried);
      queried
  }

  /** Closing the certificate handle after the query balances the ledger
      again and adds its own return code to the success condition. */
  lemma QueryThenCloseCert(s: Session, o: Oracle, c: NativeCall, q: Step<string>)
    requires o.code(GetHandleToCertificate(s.next)) == ERIC_OK
    requires Answered(WithCert(s), o, c, s.next + 1, true, q)
    ensures var closed := CloseCertHandle(q.session, o, s.next);
            CertAnswered(s, o, c, true, Step(closed.session, Then(q.result, ToOutcome(closed.result))))
  {
  }

  /** Without the release, the handle acquired for the query stays open. */
  lemma QueryKeepsCert(s: Session, o: Oracle, c: NativeCall, q: Step<string>)
    requires o.code(GetHandleToCertificate(s.next)) == ERIC_OK
    requires Answered(WithCert(s), o, c, s.next + 1, true, q)
    ensures CertAnswered(s, o, c, false, q)
  {
  }

  /** `get_cert_properties`: the certificate's properties, read through a
      certificate handle and a buffer that are both closed again. */
  function GetCertProperties(s: Session, o: Oracle): (st: Step<string>)
    ensures CertAnswered(s, o, HoleZertifikatEigenschaften(s.next, s.next + 1), true, st)
  {
    CertQuery(s, o, HoleZertifikatEigenschaften(s.next, s.next + 1), true)
  }

  /** `decrypt_data` as the wrapper's tests exercise it: the certificate
      handle it acquires for the native call is never closed. */
  function DecryptDataAsWritten(s: Session, o: Oracle, data: string): (st: Step<string>)
    ensures CertAnswered(s, o, DekodiereDaten(s.next, data, s.next + 1), false, st)
  {
    CertQuery(s, o, DekodiereDaten(s.next, data, s.next + 1), false)
  }

  /** `decrypt_data` with the certificate handle released like every other
      resource: the decrypted text, and nothing left open. */
  function DecryptData(s: Session, o: Oracle, data: string): (st: Step<string>)
    ensures CertAnswered(s, o, DekodiereDaten(s.next, data, s.next + 1), true, st)
  {
    CertQuery(s, o, DekodiereDaten(s.next, data, s.next + 1), true)
  }

  /** Whenever its handle acquisition succeeds, the as-written `decrypt_data`
      ends with one more certificate handle open than before, even when the
      decryption itself raised; the corrected one leaves the ledger as it was. */
  lemma DecryptLeaksCertificate(s: Session, o: Oracle, data: string)
    requires o.code(GetHandleToCertificate(s.next)) == ERIC_OK
    ensures DecryptDataAsWritten(s, o, data).session.certs[s.next] == s.certs[s.next] + 1
    ensures Balanced(s, DecryptData(s, o, data).session)
  {
  }
}
