/** This machine's platform enrollment and its renewal
    (crates/auth-internal/src/enrollment.rs, renewal.rs). */
module Enrollments {
  import opened Wrappers

  datatype Validity = Validity(notBefore: int, notAfter: int)
  datatype RouterEndpoint = RouterEndpoint(host: string, port: nat)

  datatype EnrollmentDocument = EnrollmentDocument(
    version: nat, apiUrl: string, workspaceId: string, projectId: string, peerId: string, peerName: string,
    zenohId: string, namespace: string, router: RouterEndpoint, enrolledAt: int)

  const ENROLLMENT_VERSION := 1

  /** The platform's answer to an enrollment or a renewal. */
  datatype RouterPeerEnrolled = RouterPeerEnrolled(
    peerId: string, peerName: string, address: RouterEndpoint, certificate: string, chain: string,
    trustAnchor: string, zenohId: string, namespace: string, zenohConfig: string)

  /** What is loaded; the paths beside it are the same for every enrollment of a machine. */
  datatype Enrollment = Enrollment(document: EnrollmentDocument, certificate: Validity)

  datatype IssuedMaterial = IssuedMaterial(
    document: EnrollmentDocument, certificate: Validity, peerCertificatePem: string, trustAnchorPem: string,
    chainPem: string, platformZenohConfig: string)

  datatype Error = Unparsable | WrongVersion | Missing(file: File) | NotCertificate | DifferentIdentity
                 | Refused | Changed | NotEnrolled | WriteFailed
  datatype Result<+T> = Ok(value: T) | Err(error: Error)

  /** The files of the peer directory. */
  datatype File = Key | Certificate | TrustAnchor | Chain | ZenohConfig | Document
  type Files = map<File, string>

  /** The X.509 and json5 libraries. */
  datatype Libraries = Libraries(
    parsePem: string -> Option<Validity>,
    parseDocument: string -> Option<EnrollmentDocument>,
    printDocument: EnrollmentDocument -> string)

  /** A document that is written reads back as itself. */
  ghost predicate RoundTrips(libs: Libraries) {
    forall d :: libs.parseDocument(libs.printDocument(d)) == Some(d)
  }

  // --- Reading ---

  function LoadDocument(libs: Libraries, files: Files): Result<Option<EnrollmentDocument>> {
    if Document !in files then Ok(None)
    else match libs.parseDocument(files[Document])
      case None => Err(Unparsable)
      case Some(document) => if document.version != ENROLLMENT_VERSION then Err(WrongVersion) else Ok(Some(document))
  }

  function Load(libs: Libraries, files: Files): Result<Option<Enrollment>> {
    match LoadDocument(libs, files)
    case Err(error) => Err(error)
    case Ok(None) => Ok(None)
    case Ok(Some(document)) =>
      if Certificate !in files then Err(Missing(Certificate))
      else match libs.parsePem(files[Certificate])
        case None => Err(NotCertificate)
        case Some(validity) =>
          if Key !in files then Err(Missing(Key))
          else if TrustAnchor !in files then Err(Missing(TrustAnchor))
          else if Chain !in files then Err(Missing(Chain))
          else Ok(Some(Enrollment(document, validity)))
  }

  /** What loads: nothing without a document; and with one of the right version, the leaf
      a certificate and all four PEM files there, that document and the leaf's validity.
      Everything else is an error. */
  lemma LoadsExactly(libs: Libraries, files: Files, e: Enrollment)
    ensures Load(libs, files) == Ok(None) <==> Document !in files
    ensures Load(libs, files) == Ok(Some(e)) <==>
              && files.Keys >= {Document, Certificate, Key, TrustAnchor, Chain}
              && libs.parseDocument(files[Document]) == Some(e.document) && e.document.version == ENROLLMENT_VERSION
              && libs.parsePem(files[Certificate]) == Some(e.certificate)
  {
  }

  /** What a daemon runs under: the namespace, and the router id when enrolled. */
  datatype FederationIdentity = FederationIdentity(namespace: string, routerId: Option<string>)

  function IdentityOf(enrollment: Option<Enrollment>): FederationIdentity {
    match enrollment
    case Some(e) => FederationIdentity(e.document.namespace, Some(e.document.zenohId))
    case None => FederationIdentity("local", None)
  }

  function IdentityOnDisk(libs: Libraries, files: Files): Result<FederationIdentity> {
    match Load(libs, files)
    case Ok(enrollment) => Ok(IdentityOf(enrollment))
    case Err(error) => Err(error)
  }

  /** Whether a generation under `namespace` and `routerId` runs under the identity. */
  predicate IsRunBy(identity: FederationIdentity, namespace: string, routerId: Option<string>) {
    identity.namespace == namespace && (identity.routerId.None? || routerId == identity.routerId)
  }

  /** The identity tells the namespace and, when enrolled, the router id, and no more:
      an unenrolled generation may run under any router id. */
  lemma IdentityTells(a: Option<Enrollment>, b: Option<Enrollment>, namespace: string, routerId: Option<string>)
    ensures a.Some? && b.Some? ==>
              (IdentityOf(a) == IdentityOf(b) <==> a.value.document.namespace == b.value.document.namespace
                                                   && a.value.document.zenohId == b.value.document.zenohId)
    ensures a.Some? && b.None? ==> IdentityOf(a) != IdentityOf(b)
    ensures a.Some? ==> (IsRunBy(IdentityOf(a), namespace, routerId) <==>
                           namespace == a.value.document.namespace && routerId == Some(a.value.document.zenohId))
    ensures a.None? ==> (IsRunBy(IdentityOf(a), namespace, routerId) <==> namespace == "local")
  {
  }

  // --- What the platform issues ---

  function WithDocument(libs: Libraries, document: EnrollmentDocument, issued: RouterPeerEnrolled): Result<IssuedMaterial> {
    match libs.parsePem(issued.certificate)
    case None => Err(NotCertificate)
    case Some(validity) =>
      Ok(IssuedMaterial(document, validity, issued.certificate, issued.trustAnchor, issued.chain, issued.zenohConfig))
  }

  /** The answer is for the peer of the document: the same peer, zenoh id, namespace
      and router, and a leaf that is a certificate. */
  predicate IsForPeer(libs: Libraries, enrolled: EnrollmentDocument, renewed: RouterPeerEnrolled) {
    && renewed.peerId == enrolled.peerId && renewed.zenohId == enrolled.zenohId
    && renewed.namespace == enrolled.namespace && renewed.address == enrolled.router
    && libs.parsePem(renewed.certificate).Some?
  }

  function ForRenewal(libs: Libraries, enrolled: EnrollmentDocument, renewed: RouterPeerEnrolled): (r: Result<IssuedMaterial>)
    ensures r.Ok? <==> IsForPeer(libs, enrolled, renewed)
    ensures r.Ok? ==> IsRenewalOf(libs, r.value, enrolled) && IsIssuedFrom(libs, r.value, renewed)
  {
    if || renewed.peerId != enrolled.peerId || renewed.zenohId != enrolled.zenohId
       || renewed.namespace != enrolled.namespace || renewed.address != enrolled.router
    then Err(DifferentIdentity)
    else WithDocument(libs, enrolled.(peerName := renewed.peerName), renewed)
  }

  /** The material is the answer's: its name, and each file of it in its place. */
  ghost predicate IsIssuedFrom(libs: Libraries, issued: IssuedMaterial, answer: RouterPeerEnrolled) {
    && issued.document.peerName == answer.peerName
    && issued.peerCertificatePem == answer.certificate && libs.parsePem(answer.certificate) == Some(issued.certificate)
    && issued.trustAnchorPem == answer.trustAnchor && issued.chainPem == answer.chain
    && issued.platformZenohConfig == answer.zenohConfig
  }

  /** Material for the same peer: a leaf, and a document that differs in the name at most. */
  ghost predicate IsRenewalOf(libs: Libraries, issued: IssuedMaterial, enrolled: EnrollmentDocument) {
    && libs.parsePem(issued.peerCertificatePem) == Some(issued.certificate)
    && issued.document.(peerName := enrolled.peerName) == enrolled
  }

  // --- Writing, one atomic file after the other ---

  type Write = (File, string)

  function IssuedWrites(libs: Libraries, issued: IssuedMaterial): (writes: seq<Write>)
    ensures |writes| == 5
  {
    [(Certificate, issued.peerCertificatePem), (TrustAnchor, issued.trustAnchorPem), (Chain, issued.chainPem),
     (ZenohConfig, issued.platformZenohConfig), (Document, libs.printDocument(issued.document))]
  }

  /** The files once the first `n` writes are published. */
  function After(files: Files, writes: seq<Write>, n: nat): Files
    requires n <= |writes|
  {
    if n == 0 then files else After(files, writes, n - 1)[writes[n - 1].0 := writes[n - 1].1]
  }

  function Saved(libs: Libraries, key: string, issued: IssuedMaterial): seq<Write> {
    [(Key, key)] + IssuedWrites(libs, issued)
  }

  /** The peer directory; `fate` says which of the writes go through. A write
      that does not is an error of the disk or the end of the process. */
  class PeerDir {
    var files: Files
    var writes: nat
    const fate: nat -> bool

    constructor (files: Files, fate: nat -> bool)
      ensures this.files == files && writes == 0 && this.fate == fate
    {
      this.files, writes, this.fate := files, 0, fate;
    }

    method Publish(file: File, content: string) returns (ok: bool)
      modifies this
      ensures ok == fate(old(writes)) && writes == old(writes) + 1
      ensures files == if ok then old(files)[file := content] else old(files)
    {
      ok := fate(writes);
      writes := writes + 1;
      if ok { files := files[file := content]; }
    }
  }

  /** Whether the next `n` writes go through. */
  ghost predicate AllGoThrough(dir: PeerDir, n: nat)
    reads dir
  {
    forall k :: dir.writes <= k < dir.writes + n ==> dir.fate(k)
  }

  method PublishAll(dir: PeerDir, writes: seq<Write>) returns (r: Result<()>, ghost n: nat)
    modifies dir
    ensures n <= |writes| && dir.files == After(old(dir.files), writes, n)
    ensures r == if n == |writes| then Ok(()) else Err(WriteFailed)
    ensures n == |writes| <==> old(AllGoThrough(dir, |writes|))
  {
    n := 0;
    for i := 0 to |writes|
      invariant n == i && dir.writes == old(dir.writes) + i && dir.files == After(old(dir.files), writes, i)
      invariant forall k :: old(dir.writes) <= k < dir.writes ==> dir.fate(k)
    {
      var ok := dir.Publish(writes[i].0, writes[i].1);
      if !ok { return Err(WriteFailed), n; }
      n := i + 1;
    }
    return Ok(()), n;
  }

  /** Writes a new enrollment: the key first, the document last. */
  method Save(libs: Libraries, dir: PeerDir, key: string, issued: IssuedMaterial) returns (r: Result<()>, ghost n: nat)
    modifies dir
    ensures n <= 6 && dir.files == After(old(dir.files), Saved(libs, key, issued), n)
    ensures r == if n == 6 then Ok(()) else Err(WriteFailed)
    ensures n == 6 <==> old(AllGoThrough(dir, 6))
  {
    r, n := PublishAll(dir, Saved(libs, key, issued));
  }

  method SaveRenewal(libs: Libraries, dir: PeerDir, renewed: IssuedMaterial) returns (r: Result<()>, ghost n: nat)
    modifies dir
    ensures n <= 5 && dir.files == After(old(dir.files), IssuedWrites(libs, renewed), n)
    ensures old(Key !in dir.files) ==> r == Err(Missing(Key)) && n == 0
    ensures old(Key in dir.files) ==> r == if n == 5 then Ok(()) else Err(WriteFailed)
    ensures old(Key in dir.files) ==> (n == 5 <==> old(AllGoThrough(dir, 5)))
  {
    if Key !in dir.files { return Err(Missing(Key)), 0; }
    r, n := PublishAll(dir, IssuedWrites(libs, renewed));
  }

  /** Removes the directory. A removal that fails leaves some of the files. */
  method Remove(dir: PeerDir, left: set<File>) returns (r: Result<()>)
    modifies dir
    ensures dir.files == if r.Ok? then map[] else map f | f in old(dir.files) && f in left :: old(dir.files)[f]
  {
    var ok := dir.fate(dir.writes);
    dir.writes := dir.writes + 1;
    if ok {
      dir.files := map[];
      return Ok(());
    }
    dir.files := map f | f in dir.files && f in left :: dir.files[f];
    return Err(WriteFailed);
  }

  // --- What each crash point reads as ---

  /** What `file` holds once the first `n` writes of the material are published: the
      leaf is first, then the trust anchor, the chain, the zenoh config, the document. */
  function Issued(libs: Libraries, files: Files, issued: IssuedMaterial, n: nat, file: File): Option<string> {
    match file
    case Certificate => if n >= 1 then Some(issued.peerCertificatePem) else Held(files, file)
    case TrustAnchor => if n >= 2 then Some(issued.trustAnchorPem) else Held(files, file)
    case Chain => if n >= 3 then Some(issued.chainPem) else Held(files, file)
    case ZenohConfig => if n >= 4 then Some(issued.platformZenohConfig) else Held(files, file)
    case Document => if n >= 5 then Some(libs.printDocument(issued.document)) else Held(files, file)
    case Key => Held(files, file)
  }

  function Held(files: Files, file: File): Option<string> {
    if file in files then Some(files[file]) else None
  }

  lemma {:induction false} AfterIssuedAt(libs: Libraries, files: Files, issued: IssuedMaterial, n: nat, file: File)
    requires n <= 5
    ensures Held(After(files, IssuedWrites(libs, issued), n), file) == Issued(libs, files, issued, n, file)
  {
    if n > 0 {
      AfterIssuedAt(libs, files, issued, n - 1, file);
      var writes := IssuedWrites(libs, issued);
      assert n == 1 || n == 2 || n == 3 || n == 4 || n == 5;
      assert writes[n - 1].0 == file ==> Some(writes[n - 1].1) == Issued(libs, files, issued, n, file);
      assert writes[n - 1].0 != file ==> Issued(libs, files, issued, n - 1, file) == Issued(libs, files, issued, n, file);
    }
  }

  /** What the files hold after `n` writes of issued material, file by file. */
  lemma AfterIssued(libs: Libraries, files: Files, issued: IssuedMaterial, n: nat)
    requires n <= 5
    ensures var after := After(files, IssuedWrites(libs, issued), n);
            && Held(after, Key) == Held(files, Key)
            && Held(after, Certificate) == Issued(libs, files, issued, n, Certificate)
            && Held(after, TrustAnchor) == Issued(libs, files, issued, n, TrustAnchor)
            && Held(after, Chain) == Issued(libs, files, issued, n, Chain)
            && Held(after, ZenohConfig) == Issued(libs, files, issued, n, ZenohConfig)
            && Held(after, Document) == Issued(libs, files, issued, n, Document)
  {
    AfterIssuedAt(libs, files, issued, n, Key);
    AfterIssuedAt(libs, files, issued, n, Certificate);
    AfterIssuedAt(libs, files, issued, n, TrustAnchor);
    AfterIssuedAt(libs, files, issued, n, Chain);
    AfterIssuedAt(libs, files, issued, n, ZenohConfig);
    AfterIssuedAt(libs, files, issued, n, Document);
  }

  /** At every point of the write of a renewal the enrollment loads, under the same
      identity and key, with the old leaf or the new one; at the end it is the new one. */
  lemma RenewalCrashPoints(libs: Libraries, files: Files, issued: IssuedMaterial, enrolled: Enrollment, n: nat)
    requires RoundTrips(libs) && Load(libs, files) == Ok(Some(enrolled)) && IsRenewalOf(libs, issued, enrolled.document) && n <= 5
    ensures var after := After(files, IssuedWrites(libs, issued), n);
            && Load(libs, after) == Ok(Some(Enrollment(if n < 5 then enrolled.document else issued.document,
                                                       if n == 0 then enrolled.certificate else issued.certificate)))
            && IdentityOnDisk(libs, after) == IdentityOnDisk(libs, files)
            && after[Key] == files[Key]
            && after[Certificate] == if n == 0 then files[Certificate] else issued.peerCertificatePem
  {
    AfterIssued(libs, files, issued, n);
    var after := After(files, IssuedWrites(libs, issued), n);
    if n == 5 {
      assert libs.parseDocument(libs.printDocument(issued.document)) == Some(issued.document);
    }
    assert LoadDocument(libs, after) == Ok(Some(if n < 5 then enrolled.document else issued.document));
  }

  lemma AfterSaved(libs: Libraries, files: Files, key: string, issued: IssuedMaterial, n: nat)
    requires n <= 5
    ensures After(files, Saved(libs, key, issued), n + 1) == After(files[Key := key], IssuedWrites(libs, issued), n)
  {
    var writes, rest := Saved(libs, key, issued), IssuedWrites(libs, issued);
    if n == 0 {
      assert After(files, writes, 0) == files;
    } else {
      AfterSaved(libs, files, key, issued, n - 1);
      assert writes[n] == rest[n - 1];
    }
  }

  /** A first enrollment cut off anywhere reads as not enrolled; done, it loads. Where
      a document was there before, no crash point reads as not enrolled. */
  lemma SaveCrashPoints(libs: Libraries, files: Files, key: string, issued: IssuedMaterial, n: nat)
    requires RoundTrips(libs) && n <= 6
    requires libs.parsePem(issued.peerCertificatePem) == Some(issued.certificate) && issued.document.version == ENROLLMENT_VERSION
    ensures var after := After(files, Saved(libs, key, issued), n);
            && (Load(libs, after) == Ok(None) <==> n < 6 && Document !in files)
            && (n == 6 ==> Load(libs, after) == Ok(Some(Enrollment(issued.document, issued.certificate))))
            && (n == 6 ==> Held(after, Key) == Some(key) && Held(after, Certificate) == Some(issued.peerCertificatePem)
                           && Held(after, TrustAnchor) == Some(issued.trustAnchorPem) && Held(after, Chain) == Some(issued.chainPem)
                           && Held(after, ZenohConfig) == Some(issued.platformZenohConfig))
  {
    if n > 0 {
      AfterSaved(libs, files, key, issued, n - 1);
      AfterIssued(libs, files[Key := key], issued, n - 1);
    }
    assert libs.parseDocument(libs.printDocument(issued.document)) == Some(issued.document);
  }
}

module Renewals {
  import opened Wrappers
  import opened Enrollments

  /** The renewal may write: the enrollment still loads as it did before the platform was asked. */
  predicate IsUnchanged(libs: Libraries, before: Files, meanwhile: Files) {
    Load(libs, before).Ok? && Load(libs, before).value.Some? && Load(libs, meanwhile) == Load(libs, before)
  }

  /** What one renewal leaves: what was there when it looked again, or that with
      the first `n` writes of material for the same peer. */
  ghost predicate Leaves(libs: Libraries, before: Files, meanwhile: Files, after: Files) {
    || after == meanwhile
    || (&& IsUnchanged(libs, before, meanwhile)
        && exists issued, n :: && n <= 5 && IsRenewalOf(libs, issued, Load(libs, before).value.value.document)
                               && after == After(meanwhile, IssuedWrites(libs, issued), n))
  }

  /** Every file of the answer is in its place, the key is the one that was there, and the
      document is the old one with the answer's name. */
  ghost predicate IsWritten(libs: Libraries, before: Files, after: Files, enrolled: EnrollmentDocument, answer: RouterPeerEnrolled) {
    && Held(after, Certificate) == Some(answer.certificate) && Held(after, TrustAnchor) == Some(answer.trustAnchor)
    && Held(after, Chain) == Some(answer.chain) && Held(after, ZenohConfig) == Some(answer.zenohConfig)
    && Held(after, Document) == Some(libs.printDocument(enrolled.(peerName := answer.peerName)))
    && Held(after, Key) == Held(before, Key)
  }

  /** Renews the certificate. While the platform answers, others may leave the
      directory as `meanwhile`; `answer` is what the platform says. */
  method RenewWith(libs: Libraries, dir: PeerDir, meanwhile: Files, answer: Result<RouterPeerEnrolled>)
    returns (r: Result<Enrollment>, ghost asked: bool)
    requires RoundTrips(libs)
    modifies dir
    ensures asked <==> old(Load(libs, dir.files)).Ok? && old(Load(libs, dir.files)).value.Some?
    ensures !asked ==> r.Err? && dir.files == old(dir.files)
    ensures asked ==> Leaves(libs, old(dir.files), meanwhile, dir.files)
    ensures asked && !IsUnchanged(libs, old(dir.files), meanwhile) ==> r.Err? && dir.files == meanwhile
    ensures asked && answer.Err? ==> r.Err? && dir.files == meanwhile
    ensures asked && answer.Ok? && !IsForPeer(libs, old(Load(libs, dir.files)).value.value.document, answer.value) ==>
              r.Err? && dir.files == meanwhile
    ensures r.Ok? ==> Load(libs, dir.files) == Ok(Some(r.value))
    ensures r.Ok? ==> answer.Ok? && IsWritten(libs, meanwhile, dir.files, old(Load(libs, dir.files)).value.value.document, answer.value)
    ensures r.Ok? <==> && asked && answer.Ok? && IsForPeer(libs, old(Load(libs, dir.files)).value.value.document, answer.value)
                       && IsUnchanged(libs, old(dir.files), meanwhile) && old(AllGoThrough(dir, 5))
  {
    var loaded := Load(libs, dir.files);
    asked := false;
    if loaded.Err? { return Err(loaded.error), asked; }
    if loaded.value.None? { return Err(NotEnrolled), asked; }
    var enrolled := loaded.value.value;
    asked := true;
    dir.files := meanwhile;
    if answer.Err? { return Err(answer.error), asked; }
    var renewed := ForRenewal(libs, enrolled.document, answer.value);
    if renewed.Err? { return Err(renewed.error), asked; }
    var again := Load(libs, dir.files);
    if again.Err? { return Err(again.error), asked; }
    if again.value != Some(enrolled) { return Err(Changed), asked; }
    var saved, n := SaveRenewal(libs, dir, renewed.value);
    RenewalCrashPoints(libs, meanwhile, renewed.value, enrolled, n);
    AfterIssued(libs, meanwhile, renewed.value, n);
    if saved.Err? { return Err(saved.error), asked; }
    return Ok(Enrollment(renewed.value.document, renewed.value.certificate)), asked;
  }

  /** A renewal changes neither the identity nor the key of what it finds, and what
      loaded when it looked again still loads after it, wherever it is cut off. */
  lemma LeavesKeeps(libs: Libraries, before: Files, meanwhile: Files, after: Files)
    requires RoundTrips(libs) && Leaves(libs, before, meanwhile, after)
    ensures IdentityOnDisk(libs, after) == IdentityOnDisk(libs, meanwhile)
    ensures Key in after <==> Key in meanwhile
    ensures Key in meanwhile ==> after[Key] == meanwhile[Key]
    ensures !IsUnchanged(libs, before, meanwhile) ==> after == meanwhile
  {
    if after != meanwhile {
      var enrolled := Load(libs, before).value.value;
      var issued, n :| n <= 5 && IsRenewalOf(libs, issued, enrolled.document) && after == After(meanwhile, IssuedWrites(libs, issued), n);
      RenewalCrashPoints(libs, meanwhile, issued, enrolled, n);
    }
  }

  /** A run of renewals: `found[k]` is what the others left when renewal `k` looked again. */
  ghost predicate IsRun(libs: Libraries, states: seq<Files>, found: seq<Files>) {
    && |states| == |found| + 1
    && forall k :: 0 <= k < |found| ==> Leaves(libs, states[k], found[k], states[k + 1])
  }

  /** Whoever else enrolls and unenrolls: at every point of every run the identity
      and the key on disk are those the last of the others left, however many
      renewals there were since, and wherever each was cut off. */
  lemma {:induction false} OnlyOthersChangeIdentity(libs: Libraries, states: seq<Files>, found: seq<Files>, j: nat, k: nat)
    requires RoundTrips(libs) && IsRun(libs, states, found) && j < k <= |found|
    requires forall i :: j < i < k ==> found[i] == states[i]
    ensures IdentityOnDisk(libs, states[k]) == IdentityOnDisk(libs, found[j])
    ensures Key in states[k] <==> Key in found[j]
    ensures Key in found[j] ==> states[k][Key] == found[j][Key]
  {
    LeavesKeeps(libs, states[k - 1], found[k - 1], states[k - 1 + 1]);
    if j < k - 1 { OnlyOthersChangeIdentity(libs, states, found, j, k - 1); }
  }

  /** Renewals that nobody interferes with, each cut off anywhere: at every point the
      machine is enrolled under the identity and the key it started with. */
  lemma {:induction false} RenewalsKeepEnrollment(libs: Libraries, states: seq<Files>, found: seq<Files>, k: nat)
    requires RoundTrips(libs) && IsRun(libs, states, found) && k <= |found|
    requires forall i :: 0 <= i < |found| ==> found[i] == states[i]
    requires Load(libs, states[0]).Ok? && Load(libs, states[0]).value.Some?
    ensures Load(libs, states[k]).Ok? && Load(libs, states[k]).value.Some?
    ensures IdentityOnDisk(libs, states[k]) == IdentityOnDisk(libs, states[0])
    ensures Key in states[0] && Key in states[k] && states[k][Key] == states[0][Key]
  {
    if k > 0 {
      RenewalsKeepEnrollment(libs, states, found, k - 1);
      LeavesKeeps(libs, states[k - 1], found[k - 1], states[k - 1 + 1]);
    }
  }

  /** What others left is safe from a renewal, whatever the platform answers and
      wherever it is cut off, exactly when it no longer loads as it did before. */
  lemma UntouchedExactlyWhenChanged(libs: Libraries, before: Files, meanwhile: Files)
    requires RoundTrips(libs) && Load(libs, before).Ok? && Load(libs, before).value.Some?
    ensures (forall after :: Leaves(libs, before, meanwhile, after) ==> after == meanwhile) <==> Load(libs, meanwhile) != Load(libs, before)
  {
    if IsUnchanged(libs, before, meanwhile) {
      var enrolled := Load(libs, before).value.value;
      var issued := IssuedMaterial(enrolled.document, enrolled.certificate, meanwhile[Certificate], "", meanwhile[Chain] + "x", "");
      AfterIssued(libs, meanwhile, issued, 3);
      var after := After(meanwhile, IssuedWrites(libs, issued), 3);
      assert after[Chain] == meanwhile[Chain] + "x" != meanwhile[Chain];
      assert IsRenewalOf(libs, issued, enrolled.document);
      assert Leaves(libs, before, meanwhile, after) && after != meanwhile;
    }
  }

  /** The second look compares the document and the validity of the leaf: a directory
      whose key was replaced and whose leaf has the same dates is taken for unchanged. */
  lemma ReplacedKeyExample(libs: Libraries, before: Files, key: string)
    requires Load(libs, before).Ok? && Load(libs, before).value.Some? && key != before[Key]
    ensures before[Key := key] != before && IsUnchanged(libs, before, before[Key := key])
  {
    assert before[Key := key][Key] == key;
    assert LoadDocument(libs, before[Key := key]) == LoadDocument(libs, before);
  }
}
