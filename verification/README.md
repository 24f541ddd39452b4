# erica, modelled in Dafny

erica is DigitalService4Germany's service that sends tax data to the German
tax authorities' ELSTER system. It does so through ERiC, the authorities'
native library. This project models four parts of erica as immutable Dafny
datatypes and pure functions, and proves what the repository's code and tests
promise about them.

1. **The call protocol of `EricWrapper`** (`EricErrors`, `EricWrapper`,
   `EricSession`). This is the Python wrapper around ERiC.
   - The native library is an oracle (`EricWrapper.Oracle`). It fixes every
     call's return code, whether the buffer allocator hands out a handle or
     null, and what each call writes into its output buffers.
   - A session is the wrapper's ledger. It holds the open buffers and
     certificate handles as multisets, their contents, and the trace of the
     native calls that create or release the instance or process data.
   - Every wrapper call is a function from a session to a `Step`: the session
     afterwards plus the result or the raised error.
   - `EricSession.WithEricWrapper` is the `with get_eric_wrapper()` block
     around any sequence of wrapper calls.
2. **Requests and jobs** (`Requests`, `Repository`, `Jobs`).
   - A stored request and the projection of its five statuses onto the three
     job states a polling client sees.
   - The responses of the unlock-code endpoints and the `Location` header of
     a queued request.
   - The request repository: a finite map with creation and update
     timestamps.
   - The unlock-code job step.
3. **Property-tax field encodings** (`Digits`, `ElsterifyFields`,
   `ElsterGrundstueck`, `ElsterEigentuemer`, `ElsterDataRepresentation`).
   - Salutation, property-type and date codes.
   - The house-number split.
   - Parcel records and the land area computed from the parcels' shares.
   - Owner, representative and recipient records, and the ownership-relation
     code.
   - The first declaration page (`EGW1`), the header block (`EVorsatz`) and
     the envelope around them.
4. **Small utilities** (`DongleStatus`, `RequestLogging`, `PyericUtils`).
   - The cached health reading of the signature stick.
   - The redaction of tax numbers from logged request paths.
   - The blank-line filter used after XML pretty-printing.
   - The placeholder error body.

`Wrappers` holds the `Option` and `Result` types. `Digits` holds decimal digit
strings, with padding and value lemmas.

The module implementing the wrapper (`erica/erica_legacy/pyeric/eric.py`) and
the ELSTER record classes are not modelled directly. Their behaviour is taken
from the tests that pin it down, and the table below cites those tests.

## Model

| member | source | states |
|---|---|---|
| EricErrors.CheckResult | tests/erica_legacy/pyeric/test_eric.py:122-142 | Code 0 passes. Any other code, positive or negative, raises an error that counts as `EricProcessNotSuccessful` and carries that code. The error is the global variant exactly for codes in the global block. |
| EricErrors.CheckHandle | tests/erica_legacy/pyeric/test_eric.py:582-585 | A null handle raises `EricNullReturnedError`, which is not a `ProcessNotSuccessful`. A non-null handle is passed on unchanged. |
| EricWrapper.Initialise | tests/erica_legacy/pyeric/test_eric.py:87-105 | Makes the instance-creation call exactly once and adds it to the trace. Raises exactly when that call's code is nonzero, with that code's error. Opens and closes nothing. |
| EricWrapper.Shutdown | tests/erica_legacy/pyeric/test_eric.py:122-153 | Makes the instance-release call exactly once. Succeeds exactly on code 0; otherwise raises that code's error. |
| EricWrapper.CreateBuffer | tests/erica_legacy/pyeric/test_eric.py:553-595 | Succeeds exactly when the allocator hands out a handle. The new handle then enters the ledger. A null handle raises `NullReturned` and leaves the ledger as it was. |
| EricWrapper.CloseBuffer | tests/erica_legacy/pyeric/test_eric.py:630-678 | Removes the buffer from the ledger. Succeeds exactly on code 0; otherwise raises that code's error. |
| EricWrapper.GetCertHandle | tests/erica_legacy/pyeric/test_eric.py:304-369 | On code 0, opens one certificate handle and returns it. On any other code, raises that code's error with the ledger unchanged. |
| EricWrapper.CloseCertHandle | tests/erica_legacy/pyeric/test_eric.py:371-423 | Removes the handle from the ledger. Succeeds exactly on code 0; otherwise raises that code's error. |
| EricWrapper.CloseBuffers | tests/erica_legacy/pyeric/test_eric.py:1249-1253 | Attempts the release of every buffer given and removes all of them from the ledger. Succeeds exactly when every release returns 0. |
| EricWrapper.ReleasesHandles | tests/erica_legacy/pyeric/test_eric.py:1249-1253 | Closing the consecutive handles `a`..`a+n-1` succeeds exactly when each of their releases returns 0. |
| EricWrapper.Exchange | tests/erica_legacy/pyeric/test_eric.py:974-991 | Creates the buffers, makes the native call into them, then reads and closes them. The ledger ends as it began. It succeeds exactly when every buffer exists and the call and every release return 0, and it then yields exactly the texts the call wrote. A nonzero call code otherwise raises that code's error. |
| EricWrapper.CallOnCreated | tests/erica_legacy/pyeric/test_eric.py:1249-1253 | After creating the buffers, the call-read-close step releases exactly the buffers just created, so the ledger balances. |
| EricWrapper.Process | tests/erica_legacy/pyeric/test_eric.py:425-551 | Makes one processing call with two fresh buffers and the flags, transfer handle, certificate and print parameters as given. It returns code 0 with the response and server texts the call wrote, and no document. It raises on a nonzero code (positive or negative), and the ledger balances either way. |
| EricWrapper.Validate | tests/erica_legacy/pyeric/test_eric.py:177-182 | Exactly one processing call, with only VALIDIERE and no certificate, print parameters or transfer handle. The response carries no document. |
| EricWrapper.WithCertificate | tests/erica_legacy/pyeric/test_eric.py:190-213 | When the handle cannot be acquired, raises that code's error and calls nothing else. Otherwise processes once with parameters made from the handle and releases the handle; the call succeeds only if that release does. |
| EricWrapper.ValidateAndSend | tests/erica_legacy/pyeric/test_eric.py:215-245 | One processing call with SENDE and DRUCKE, the certificate parameters and the print file. The response texts are what the call wrote, and its document is the one that call printed into the print file. Failures are as in `WithCertificate`. |
| EricWrapper.ProcessVerfahren | tests/erica_legacy/pyeric/test_eric.py:833-878 | One processing call with SENDE and VALIDIERE. The transfer handle is passed through as given (absent by default), with the certificate parameters and the optional retrieval code. The response carries no document. |
| EricWrapper.CheckTaxNumber | tests/erica_legacy/pyeric/test_eric.py:888-933 | True exactly on code 0. False exactly on the invalid-tax-number code 610001034. Any other code raises its error (610001001 raises the global error). Nothing is opened. |
| EricWrapper.Query | tests/erica_legacy/pyeric/test_eric.py:758-785 | A single-shot call creates one buffer and closes it whatever the call returned. The result is exactly the text the call wrote. It raises on a nonzero code or a failing release. |
| EricWrapper.GetTaxOffices | tests/erica_legacy/pyeric/test_eric.py:1010-1047 | The tax offices are the buffer content of one `HoleFinanzaemter` call. Raises on a nonzero code; the ledger balances. |
| EricWrapper.GetStateIdList | tests/erica_legacy/pyeric/test_eric.py:1064-1102 | The state list is the buffer content of one `HoleFinanzamtLandNummern` call. Raises on a nonzero code; the ledger balances. |
| EricWrapper.GetElectronicAktenzeichen | tests/erica_legacy/pyeric/test_eric.py:1117-1132 | The file number is the buffer content of one `MakeElsterEWAz` call. Raises on a nonzero code; the ledger balances. |
| EricWrapper.CreateTransferHeader | tests/erica_legacy/pyeric/test_eric.py:709-814 | One `CreateTH` call with every argument passed through. The result is the buffer content; any nonzero code raises. |
| EricWrapper.GetErrorMessageFromXmlResponse | tests/erica_legacy/pyeric/test_eric.py:1154-1198 | One parse call with four buffers. The transfer ticket, header code, header message and business message are the four texts written, in buffer order. Raises on a nonzero code; all four buffers are closed. |
| EricWrapper.CertQuery | tests/erica_legacy/pyeric/test_eric.py:1221-1253 | A query through a certificate handle. It fails with the handle's code when the handle cannot be acquired. Otherwise its result is the text written. The handle stays open exactly when it is not released. |
| EricWrapper.GetCertProperties | tests/erica_legacy/pyeric/test_eric.py:1234-1253 | Returns the text the properties call wrote. Raises on a nonzero code. Closes both its buffer and its certificate handle. |
| EricWrapper.DecryptDataAsWritten | tests/erica_legacy/pyeric/test_eric.py:936-991 | `decrypt_data` as written: a certificate handle and one buffer; the result is the buffer content; a nonzero decode code raises. The handle is never released. |
| EricWrapper.DecryptLeaksCertificate | tests/erica_legacy/pyeric/test_eric.py:936-952 | Once the handle is acquired, the as-written decryption leaves one more certificate handle open than before. The corrected `DecryptData` leaves the ledger balanced. |
| EricWrapper.DecryptData | tests/erica_legacy/pyeric/test_eric.py:954-991 | Decryption with the handle released. The result, the error cases and the buffer discipline are as in the as-written version, and the ledger ends balanced. |
| EricSession.WithEricWrapper | tests/erica_legacy/pyeric/test_eric.py:19-38 | The trace is: one instance creation, then only processing calls, then one release, made exactly when the creation succeeded. A failing creation or release raises that code's error. Every buffer is closed again. Certificate handles are never closed by the block; they are all closed again when decryption releases its handle, and with `decrypt_data` as written they can only grow. |
| EricSession.FreshWrapperReleasesEverything | tests/erica_legacy/pyeric/test_eric.py:19-38 | A fresh wrapper used as a context manager creates the instance exactly once. It releases it exactly once when the creation succeeded. It ends with no buffer open, and with no certificate handle open when decryption releases its handle. |
| EricSession.AsWrittenWrapperLeaks | tests/erica_legacy/pyeric/test_eric.py:936-952 | A fresh wrapper whose block only decrypts once, with `decrypt_data` as written, ends with exactly that decryption's certificate handle open. |
| EricSession.DecryptBodyLeaks | tests/erica_legacy/pyeric/test_eric.py:936-952 | One as-written decryption inside the block adds exactly its certificate handle to the open ones. |
| EricSession.InstanceCallsOnce | tests/erica_legacy/pyeric/test_eric.py:20-38 | A trace of creation, processing calls and release holds the creation exactly once and the release exactly once. |
| EricSession.RunAll | tests/erica_legacy/pyeric/test_eric.py:19-38 | Any sequence of wrapper calls inside the block leaves the open buffers as they were and adds only processing calls to the trace. Open certificate handles stay as they were when decryption releases its handle, and otherwise only grow. On success there is one answer per call. |
| Requests.MapStatus | erica/application/FreischaltCode/FreischaltCodeService.py:35 | SUCCESS exactly for the success status and FAILURE exactly for the failed status; every other status is PROCESSING. |
| Requests.MapStatusPreimage | tests/api/test_api.py:244-313 | The projection agrees with the independent table: new, scheduled and processing map to PROCESSING, success to SUCCESS, failed to FAILURE. Every job state is reached. |
| Requests.Project | erica/application/FreischaltCode/FreischaltCodeService.py:33-66 | The response carries the mapped status, a result exactly when the request succeeded, and error code and message copied verbatim exactly when it failed. The projection fails only on a success whose stored result lacks a key. |
| Requests.BuildResultFields | erica/application/FreischaltCode/FreischaltCodeService.py:37-40 | The result holds exactly the result keys of the request type, each copied from the stored result. `idnr` is read from the payload for the types that report it, and is absent for the others. |
| Requests.ProjectSuccessCarriesResult | tests/api/test_api.py:59-160 | A successful projection of a successful request has a stored result, and copies its fields and the payload's `idnr`. |
| Requests.ProjectDependsOnMappedStatus | erica/application/FreischaltCode/FreischaltCodeService.py:34-49 | The projection branches only on the mapped status: two statuses with the same job state give the same response. |
| Requests.Location | tests/api/test_api.py:30-56 | The `Location` header is the endpoint prefix followed by the request id. |
| Requests.LocationRoundTrip | tests/api/test_api.py:30-56 | Parsing a `Location` header gives back the request type and the id it was built from. |
| Requests.LocationInjective | tests/api/test_api.py:30-56 | Different requests get different `Location` headers. |
| Repository.Create | tests/infrastructure/sqlalechemy/repositories/test_erica_request_repository.py:35-51 | Stores the entity under its id with both timestamps equal to now, keeping every other entry. Fails exactly when the id is already stored. |
| Repository.Get | tests/infrastructure/sqlalechemy/repositories/test_erica_request_repository.py:54-73 | Returns the stored entity; a missing id raises `EntityNotFound`. |
| Repository.Changed | tests/infrastructure/sqlalechemy/repositories/test_erica_request_repository.py:134-153 | The changed attributes are exactly those whose values differ. |
| Repository.ChangedSuffices | tests/infrastructure/sqlalechemy/repositories/test_erica_request_repository.py:134-153 | Writing only the changed attributes onto the old record gives the new record. Nothing is written exactly when nothing changed. |
| Repository.Update | tests/infrastructure/sqlalechemy/repositories/test_erica_request_repository.py:76-153 | Returns the new object and writes exactly the changed attributes, under the model's request id. A missing id raises `EntityNotFound`. Re-keying onto another stored id fails with `AlreadyExists`, and these are the only failures. Other entries are kept. |
| Repository.UpdateAdvancesClock | tests/infrastructure/sqlalechemy/repositories/test_erica_request_repository.py:110-132 | An update keeps `created_at` and makes `updated_at` strictly later. |
| Repository.UpdateThenGet | tests/infrastructure/sqlalechemy/repositories/test_erica_request_repository.py:89-100 | After an update, reading the new id gives the new object. Reading an old id that was re-keyed raises `EntityNotFound`. |
| Repository.Delete | tests/infrastructure/sqlalechemy/repositories/test_erica_request_repository.py:156-174 | Removes exactly that entry and reports success. A missing id raises `EntityNotFound`. |
| Repository.CreateGetDelete | tests/infrastructure/sqlalechemy/repositories/test_erica_request_repository.py:35-174 | A created entity reads back unchanged, and deleting it restores the store it was added to. |
| Jobs.RequestFreischaltCode | src/application/FreischaltCode/Jobs/jobs.py:13-36 | The entity is loaded first, so a missing id sends nothing. The payload is sent exactly once. On success the entity is marked successful, carries the response text and is written back under its own id, with every other entity kept. A raised ERiC error propagates with nothing written. |
| Jobs.JobKeepsPayloads | src/application/FreischaltCode/Jobs/jobs.py:22-32 | Whatever the outcome, every payload stays as it was. Only the job's own entity can change status, and only to success. |
| Jobs.Poll | tests/api/test_api.py:316-364 | An unknown id answers error code -1 with the fixed not-found message. A known id answers with its mapped job status, and fails exactly when its projection does. |
| Jobs.PollAfterCreate | tests/api/test_api.py:244-313 | A freshly created request is reported as PROCESSING, with no result and no error fields. |
| ElsterifyFields.ElsterifyAnrede | tests/erica_legacy/elster_xml/common/test_elsterify_fields.py:11-26 | The known salutations get two-digit codes. Any other key raises `KeyError` with that key. |
| ElsterifyFields.AnredeKeys | tests/erica_legacy/elster_xml/common/test_elsterify_fields.py:11-26 | A key has a code exactly when it is the value of one of the salutation members. |
| ElsterifyFields.AnredeCode | tests/erica_legacy/elster_xml/common/test_elsterify_fields.py:11-22 | Every salutation member has a code in the table. |
| ElsterifyFields.AnredeRoundTrip | tests/erica_legacy/elster_xml/common/test_elsterify_fields.py:11-22 | Codes and salutations correspond one to one: decoding undoes encoding and vice versa. |
| ElsterifyFields.ElsterifyGrundstuecksart | tests/erica_legacy/elster_xml/common/test_elsterify_fields.py:29-57 | The known property types get a code in {1, 2, 3, 5}, and each type's code is one that stands for it. Any other type raises `KeyError`. |
| ElsterifyFields.GrundstuecksartDecodes | tests/erica_legacy/elster_xml/common/test_elsterify_fields.py:29-53 | A type is written with a code exactly when it is one of the types that code stands for, by an independent table: 1 for baureif and abweichendeEntwicklung, 2 for einfamilienhaus, 3 for zweifamilienhaus, 5 for wohnungseigentum. |
| ElsterifyFields.GrundstuecksartExamples | tests/erica_legacy/elster_xml/common/test_elsterify_fields.py:29-53 | baureif and abweichendeEntwicklung give 1, einfamilienhaus 2, zweifamilienhaus 3 and wohnungseigentum 5. |
| ElsterifyFields.GrundstuecksartCollisions | tests/erica_legacy/elster_xml/common/test_elsterify_fields.py:29-53 | Two different types share a code exactly when they are baureif and abweichendeEntwicklung: the encoding is not injective, and only that pair collides. |
| ElsterifyFields.ElsterifyDate | tests/erica_legacy/elster_xml/common/test_elsterify_fields.py:60-67 | An absent date stays absent. A present date is written so that parsing gives it back. |
| ElsterifyFields.FormatThenParse | tests/erica_legacy/elster_xml/common/test_elsterify_fields.py:60-63 | A formatted date ("DD.MM.YYYY", zero-padded) parses back to the date. |
| ElsterifyFields.ParseThenFormat | tests/erica_legacy/elster_xml/common/test_elsterify_fields.py:60-63 | Each date has exactly one spelling: any text that parses is the formatting of its date. |
| ElsterifyFields.DateExample | tests/erica_legacy/elster_xml/common/test_elsterify_fields.py:61-63 | 1 February 1987 is written "01.02.1987". |
| ElsterGrundstueck.NoneIfEmpty | tests/erica_legacy/elster_xml/grundsteuer/test_elster_grundstueck.py:68-79 | An absent or empty field becomes `None`; any other value is kept. |
| ElsterGrundstueck.SplitHausnummer | tests/erica_legacy/elster_xml/grundsteuer/test_elster_grundstueck.py:6-53 | The number and the suffix together spell the house number. The number is at most four digits and takes every leading digit it can. An empty part is `None`. |
| ElsterGrundstueck.SplitUnique | tests/erica_legacy/elster_xml/grundsteuer/test_elster_grundstueck.py:31-45 | A house number has only one such split. |
| ElsterGrundstueck.HausnummerSuffixExamples | tests/erica_legacy/elster_xml/grundsteuer/test_elster_grundstueck.py:15-29 | "1a" gives ("1", "a"), "0A" gives ("0", "A") with the case kept, and "42a" gives ("42", "a"). |
| ElsterGrundstueck.HausnummerLengthExamples | tests/erica_legacy/elster_xml/grundsteuer/test_elster_grundstueck.py:7-53 | "123" gives ("123", None), "1234abc" gives ("1234", "abc"), "12345" gives ("1234", "5"), and "" gives (None, None). |
| ElsterGrundstueck.MakeELage | tests/erica_legacy/elster_xml/grundsteuer/test_elster_grundstueck.py:55-79 | Street, additional details, postcode and town are copied, with empty ones becoming `None`. The house number is split as above. |
| ElsterGrundstueck.ELageEmpty | tests/erica_legacy/elster_xml/grundsteuer/test_elster_grundstueck.py:68-79 | Every location field is `None` exactly when every address field is absent or empty. |
| ElsterGrundstueck.EFlurstueckPassesThrough | tests/erica_legacy/elster_xml/grundsteuer/test_elster_grundstueck.py:90-111 | A parcel record reads back as the parcel it was made from, the size copied exactly. |
| ElsterGrundstueck.Gemarkungen | tests/erica_legacy/elster_xml/grundsteuer/test_elster_data_representation.py:109-116 | One record per parcel, in order, each reading back as its parcel. |
| ElsterGrundstueck.FormatThenParseDecimal | tests/erica_legacy/elster_xml/grundsteuer/test_elster_grundstueck.py:124-154 | The decimal share text reads exactly the value and the number of places it shows, so "1.2345" is 12345 ten-thousandths. |
| ElsterGrundstueck.ParcelFraction | tests/erica_legacy/elster_xml/grundsteuer/test_elster_grundstueck.py:124-154 | The parcel's exact area is a fraction with a positive denominator. It fails exactly on a malformed share or a zero denominator. |
| ElsterGrundstueck.ParcelFractionValue | tests/erica_legacy/elster_xml/grundsteuer/test_elster_grundstueck.py:124-154 | The exact area is the size times the share's decimal value ("1.2345" is 1.2345) divided by the share's denominator. |
| ElsterGrundstueck.ParcelArea | tests/erica_legacy/elster_xml/grundsteuer/test_elster_grundstueck.py:124-154 | One parcel's area is its exact area truncated toward zero: at most the exact value, and less than one square metre below it. |
| ElsterGrundstueck.ShareExamples | tests/erica_legacy/elster_xml/grundsteuer/test_elster_grundstueck.py:124-154 | 1000 m² at shares 1.0000/2, 1.2345/2, 1.0000/3 and 2.0000/3 give 500, 617, 333 and 666. |
| ElsterGrundstueck.ShareTextExample | tests/erica_legacy/elster_xml/grundsteuer/test_elster_grundstueck.py:132-138 | The share text "1.2345" reads as 12345 ten-thousandths, and 1000 m² at "1.2345" over 2 gives the area 617. |
| ElsterGrundstueck.TotalArea | tests/erica_legacy/elster_xml/grundsteuer/test_elster_grundstueck.py:156-164 | The area over several parcels succeeds exactly when every parcel's area does. |
| ElsterGrundstueck.TotalAreaBounds | tests/erica_legacy/elster_xml/grundsteuer/test_elster_grundstueck.py:156-164 | The sum of the truncated areas is at most the exact total and less than one square metre per parcel below it. |
| ElsterGrundstueck.MakeEAngFlaeche | tests/erica_legacy/elster_xml/grundsteuer/test_elster_grundstueck.py:114-122 | The area field is the total area, and the land value text is passed through unchanged. |
| ElsterEigentuemer.MakeEKontakt | tests/erica_legacy/elster_xml/grundsteuer/test_elster_eigentuemer.py:19-54 | A representative's or recipient's record carries the elsterified salutation code. |
| ElsterEigentuemer.KontaktRoundTrip | tests/erica_legacy/elster_xml/grundsteuer/test_elster_eigentuemer.py:171-206 | The eleven-field contact record reads back as the contact it was made from, so absent optionals stay absent. |
| ElsterEigentuemer.MakeEAnteil | tests/erica_legacy/elster_xml/grundsteuer/test_elster_eigentuemer.py:9-16 | Numerator and denominator are copied unchanged. |
| ElsterEigentuemer.MakeEPersonData | tests/erica_legacy/elster_xml/grundsteuer/test_elster_eigentuemer.py:57-129 | `Beteiligter` is the index plus one. The representative record is present exactly when a representative is given. The birth date is present exactly when given, and it is the date elsterified. |
| ElsterEigentuemer.PersonRoundTrip | tests/erica_legacy/elster_xml/grundsteuer/test_elster_eigentuemer.py:82-129 | The sixteen-field person record reads back as the person and its index, optional fields included. |
| ElsterEigentuemer.Eigentumsverhaeltnis | tests/erica_legacy/elster_xml/grundsteuer/test_elster_eigentuemer.py:132-168 | "0" exactly for one owner and "4" exactly for a married couple; "6" otherwise. |
| ElsterDataRepresentation.MakeEErgAngaben | tests/erica_legacy/elster_xml/grundsteuer/test_elster_data_representation.py:20-25 | The flag is 1 and the text is copied. |
| ElsterDataRepresentation.PersonRecords | tests/erica_legacy/elster_xml/grundsteuer/test_elster_data_representation.py:59-77 | One record per owner, the i-th numbered i + 1. |
| ElsterDataRepresentation.MakeEGW1 | tests/erica_legacy/elster_xml/grundsteuer/test_elster_data_representation.py:28-134 | The location, parcels and ownership code come from their inputs. `Mehrere_Gemeinden` is present exactly when the property is not within one municipality. `Empfangsv` is absent exactly without a recipient. `Erg_Angaben` is absent exactly without free text, and otherwise holds flag 1 and the text. There is one owner entry per person, numbered in order. |
| ElsterDataRepresentation.OwnersRoundTrip | tests/erica_legacy/elster_xml/grundsteuer/test_elster_data_representation.py:59-77 | The page's owner records read back as the owner list, order included. |
| ElsterDataRepresentation.RecipientRoundTrip | tests/erica_legacy/elster_xml/grundsteuer/test_elster_data_representation.py:29-57 | The page's recipient record reads back as the recipient given, or is absent when none was given. |
| ElsterDataRepresentation.MakeEVorsatz | tests/erica_legacy/elster_xml/grundsteuer/test_elster_data_representation.py:149-176 | The constants are Unterfallart "88", Vorgang "01", Zeitraum "2022", OrdNrArt "S", the copyright line and Bescheid "2". The tax number is copied. AbsName is the first owner's first name, a space and the name. The sender address is the first owner's. It fails exactly when there is no owner. |
| ElsterDataRepresentation.FullRepresentation | tests/erica_legacy/elster_xml/grundsteuer/test_elster_data_representation.py:179-225 | The document has recipient id "F", header version "11", form version "2" and the form namespace, around the header block and first page built from the declaration. |
| ElsterDataRepresentation.DocumentReadsBack | tests/erica_legacy/elster_xml/grundsteuer/test_elster_data_representation.py:149-225 | A built document's owner records read back as the declaration's owners, its tax number is the declaration's, and its header names the first of those owners, with their address, as sender. |
| DongleStatus.Get | erica/__init__.py:39-46 | The stick is consulted exactly when more than 60 seconds (strictly) have passed since the last check. A consultation records now and reads 1 exactly when the stick answers. Otherwise the cached reading is returned and the state is unchanged. |
| DongleStatus.FirstReading | erica/__init__.py:35-46 | From the initial state (last check 0, reading 1), the first call consults the stick exactly when now > 60, and otherwise reports the stick as up. |
| DongleStatus.CacheWindow | erica/__init__.py:42-46 | After a consultation at t, a call up to t + 60 returns the same reading without consulting, whatever the stick would say. |
| DongleStatus.RunSpaced | erica/__init__.py:42-46 | Over any sequence of calls, consecutive consultations are more than 60 seconds apart, and the cache holds the time of the last one. |
| RequestLogging.Find | erica/__init__.py:67 | The index of the first occurrence of the pattern, or `None` exactly when it does not occur. |
| RequestLogging.RemoveAll | erica/__init__.py:68 | `str.replace(pat, "")` never lengthens the text. It leaves the text unchanged when the pattern is empty or does not occur. |
| RequestLogging.RemoveAllByFind | erica/__init__.py:68 | With a pattern that occurs, the text before its first occurrence is kept, that occurrence is dropped, and the rest is treated the same way. |
| RequestLogging.RemoveAllShrinks | erica/__init__.py:68 | Removing a non-empty pattern that occurs shortens the text by at least the pattern's length. |
| RequestLogging.RedactAsWritten | erica/__init__.py:67-70 | A path without the marker is logged unchanged. With the marker, the path is logged unchanged exactly when nothing follows the first marker; otherwise the logged path is shorter by at least the length of what follows. |
| RequestLogging.AgreeWhenTailFirst | erica/__init__.py:67-70 | When the text after the first marker occurs nowhere earlier in the path, the code as written logs the intended path. |
| RequestLogging.AgreeWhenNothingFollows | erica/__init__.py:67-70 | A path ending at its first marker is logged whole by both redactions. |
| RequestLogging.TrailingSlashLosesPrefix | erica/__init__.py:68 | "/tax_number_validity/" is logged as "tax_number_validity" by the code as written, where "/tax_number_validity" is intended. |
| RequestLogging.Redact | erica/__init__.py:65-70 | The corrected redaction keeps the path up to and including the first marker, and leaves paths without it unchanged. |
| RequestLogging.RedactEndsAtMarker | erica/__init__.py:65-68 | The redacted path ends with the marker and contains no earlier marker, so nothing after the first marker is logged. |
| RequestLogging.RedactIdempotent | erica/__init__.py:65-68 | Redacting a redacted path changes nothing. |
| PyericUtils.SplitLines | erica/pyeric/utils.py:11 | No split line contains a newline. |
| PyericUtils.JoinSplitLines | erica/pyeric/utils.py:11 | Joining the split lines with "\n" gives the text back, less one final newline. |
| PyericUtils.NonBlank | erica/pyeric/utils.py:11 | The kept lines are exactly the non-blank input lines, and none is blank. |
| PyericUtils.NonBlankAppend | erica/pyeric/utils.py:11 | The filter keeps the order of the lines: filtering a concatenation concatenates the filtered parts. |
| PyericUtils.NoBlankLines | erica/pyeric/utils.py:9-11 | No line of the filtered text is empty or whitespace only. |
| PyericUtils.NonBlankLinesSplit | erica/pyeric/utils.py:9-11 | The lines of the filtered text are exactly the non-blank lines of the input, in order. |
| PyericUtils.SplitJoin | erica/pyeric/utils.py:11 | Splitting lines joined by "\n" gives them back when none is empty or holds a newline. |
| PyericUtils.DropBlankLinesIdempotent | erica/pyeric/utils.py:9-11 | Filtering twice is filtering once. |
| PyericUtils.NoTrailingNewline | erica/pyeric/utils.py:11 | The filtered text neither starts nor ends with a newline. |
| PyericUtils.DummyErrorResponse | erica/pyeric/utils.py:14-18 | Always error code -1 with the fixed "not yet implemented" message. |

## Left out

- The native library itself: ctypes, library and plugin loading, log-path encoding and certificate selection. The library is the `Oracle` parameter, so return codes, allocation results and buffer contents are arbitrary.
- The numeric values of the ERiC flags. A set of flags stands for their bitwise OR.
- The temporary PDF file behind `validate_and_send`. Its name is the parameter `pdfName`, and the bytes read back from it are the oracle's document for the sending call.
- The wrapper's flag recording that the instance was created. The trace stands in for it, so a call made outside a `with` block is not rejected by the model.
- EricSession.WithEricWrapper: `get_eric_wrapper` is not part of this model. The instance is taken to be created before the `try`, so a failing creation raises without a release, and to be released exactly when creation succeeded. The tests pin only the success path.
- EricSession.RunAll: with `decrypt_data` as written, the model states only that open certificate handles grow. The exact count, one per successful decryption, is stated for a block that decrypts once.
- ElsterEigentuemer.Eigentumsverhaeltnis: a couple whose marital status is not given gets "6". The tests pin only a given status.
- The content of the sample server answer in the error-extraction test (`test_eric.py:1200-1216`). The XML parse happens inside the native call, so the model proves only that the four fields are what that call wrote, in order.
- EricWrapper.CreateBuffers: when one of several allocations returns null, the model closes the buffers already created before raising. The wrapper module is not part of this model, and the tests exercise only a single allocation, so this cleanup is assumed. Code that creates all its buffers before its `try` would leak the earlier ones; the balanced ledgers of `Exchange`, `Process`, `Query` and `WithEricWrapper` on that path rest on this assumption.
- EricWrapper.CloseBuffers: the model treats each release as its own enclosing `finally`, as nested `try`/`finally` blocks do. So every release runs, and when several fail, the error of the last one propagates. The order of the releases is taken to be the creation order; the wrapper module, which fixes that order, is not part of this model.
- EricErrors.CheckResult: only 610001001 is pinned as a global error; the model takes the block 610001001..610001999 as global.
- The reading and decoding of buffer bytes. Texts are strings.
- Requests.Project: the record is fetched exactly once, by a lookup outside the model; the model projects the record it is given. A success without the expected result keys, which would raise `KeyError` in Python, is the error `MissingKey`.
- Jobs.RequestFreischaltCode: two defects in the job file are not reproduced. First, the method object `response.__str__` is stored instead of a string; the model stores the response text. Second, `FreischaltCodeServiceInterface` is used without an import. The send service is the parameter `send`.
- The queue transport, its retry wiring, the worker pool and concurrency.
- FastAPI routers, middleware setup, Prometheus and Sentry. Of `log_requests`, only the path redaction is modelled.
- HTTP status codes.
- Dependency-injection modules and build tasks.
- SQL and ORM details. The database clock is the `now` parameter, assumed to advance between calls.
- Repository.Update: re-keying an entry onto a request id that is already stored fails with `AlreadyExists`, as the unique constraint would; the tests do not exercise it.
- Repository.Create: a colliding request id fails with `AlreadyExists`, as the table's unique constraint would; the tests do not exercise it.
- ElsterifyFields.ElsterifyDate: dates are typed, so the test that passes a string and expects `AttributeError` has no counterpart.
- ElsterGrundstueck.ParcelArea: the share is read as an exact decimal ("ddd" or "ddd.dddd"), so floating point does not enter. Because the share is non-negative, truncation toward zero is floor division.
- ElsterGrundstueck.TotalArea: each parcel is truncated, then the areas are summed. The tests do not tell this apart from truncating the sum; `TotalAreaBounds` bounds the difference.
- The second declaration page (`EGW2`) and the building part of the declaration.
- The tax number is taken as already in ELSTER's thirteen-digit form. The tax office number inside the recipient text is not modelled.
- XML serialisation and the validity check through ElementTree.
- ElsterDataRepresentation.MakeEVorsatz: an empty owner list, which would raise `IndexError` in Python, is the error `NoOwner`.
- `minidom` pretty-printing. Only the blank-line filter after it is modelled.
- PyericUtils.SplitLines: lines are split at "\n" only. `str.splitlines` also splits at "\r", "\r\n" and the other Unicode line boundaries, which pretty-printed XML does not produce between elements.
- Float time from `time.time()`. Time is an integer number of seconds. The stick's answer is the parameter `stickUp`, standing for `verify_using_stick()`.

## Findings

| source | as written | input that shows it | evidently intended | confidence | as-written member | corrected member |
|---|---|---|---|---|---|---|
| erica/__init__.py:68 | `path.replace(path.split("tax_number_validity", 1)[1], "")` removes every occurrence of the text after the first marker, anywhere in the path | the path "/tax_number_validity/": the text after the marker is "/", so every slash is removed and "tax_number_validity" is logged | log the path up to and including the first marker, "/tax_number_validity" | high, not executed | RequestLogging.TrailingSlashLosesPrefix | RequestLogging.Redact |
| tests/erica_legacy/pyeric/test_eric.py:936-991 | `decrypt_data` acquires a certificate handle and never closes it. Its test setup stubs the handle's acquisition but not its release, while `get_cert_properties` is tested to close both resources | any call of `decrypt_data` whose handle acquisition returns 0 leaves one more certificate handle open | release the handle in a `finally`, as `get_cert_properties` does | medium, not executed | EricWrapper.DecryptLeaksCertificate | EricWrapper.DecryptData |
