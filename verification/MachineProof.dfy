/** The proof of a machine's key (crates/auth-internal/src/machine_proof.rs): the
    bytes that are signed, the proofs a daemon makes, and the receiver's check. */
module SignedBytes {

  type Byte = b: int | 0 <= b < 256

  /** What a Rust string or slice can hold: its length fits the 64 bits written for it. */
  type Field = f: seq<Byte> | |f| < 0x1_0000_0000_0000_0000

  type PublicKey = k: seq<Byte> | |k| == 32 witness seq(32, i => 0)

  const BOOT_STATEMENT_CONTEXT: seq<Byte> :=
    // peppy/boot-statement/v1
    [112, 101, 112, 112, 121, 47, 98, 111, 111, 116, 45, 115, 116, 97, 116, 101, 109, 101, 110, 116, 47, 118, 49]

  const ENDORSEMENT_CONTEXT: seq<Byte> :=
    // peppy/endorsement/v1
    [112, 101, 112, 112, 121, 47, 101, 110, 100, 111, 114, 115, 101, 109, 101, 110, 116, 47, 118, 49]

  predicate IsAscii(bytes: seq<Byte>, text: string) {
    |bytes| == |text| && forall i :: 0 <= i < |text| ==> bytes[i] == text[i] as int
  }

  lemma ContextsAreText()
    ensures IsAscii(BOOT_STATEMENT_CONTEXT, "peppy/boot-statement/v1") && IsAscii(ENDORSEMENT_CONTEXT, "peppy/endorsement/v1")
  {
  }

  function Pow256(n: nat): nat {
    if n == 0 then 1 else 256 * Pow256(n - 1)
  }

  /** The low `width` bytes of `n`, most significant first. */
  function BigEndian(n: nat, width: nat): (b: seq<Byte>)
    ensures |b| == width
  {
    if width == 0 then [] else BigEndian(n / 256, width - 1) + [n % 256]
  }

  /** The number that bytes stand for, the first of them weighing most. */
  function ValueOf(bytes: seq<Byte>): nat {
    if bytes == [] then 0 else bytes[0] * Pow256(|bytes| - 1) + ValueOf(bytes[1..])
  }

  lemma {:induction false} ValueOfMore(bytes: seq<Byte>, last: Byte)
    ensures ValueOf(bytes + [last]) == 256 * ValueOf(bytes) + last
  {
    if bytes == [] {
      assert ([] + [last])[1..] == [];
    } else {
      assert (bytes + [last])[1..] == bytes[1..] + [last];
      ValueOfMore(bytes[1..], last);
      assert 256 * (bytes[0] * Pow256(|bytes| - 1)) == bytes[0] * (256 * Pow256(|bytes| - 1));
    }
  }

  /** The bytes of a number stand for it, the first of them weighing most. */
  lemma {:induction false} BigEndianValue(n: nat, width: nat)
    requires n < Pow256(width)
    ensures ValueOf(BigEndian(n, width)) == n
  {
    if width > 0 {
      BigEndianValue(n / 256, width - 1);
      ValueOfMore(BigEndian(n / 256, width - 1), n % 256);
    }
  }

  /** The length of a field as the 64 bits written before it. */
  function Length(f: Field): (b: seq<Byte>)
    ensures |b| == 8
  {
    BigEndian(|f|, 8)
  }

  /** Context, then each field after its length, then the key. */
  function Framed(fields: seq<Field>): seq<Byte> {
    if fields == [] then []
    else Length(fields[0]) + fields[0] + Framed(fields[1..])
  }

  function Message(context: seq<Byte>, fields: seq<Field>, key: PublicKey): seq<Byte> {
    context + Framed(fields) + key
  }

  /** Builds the signed bytes the way the source does, field after field. */
  method SignedBytes(context: seq<Byte>, fields: seq<Field>, key: PublicKey) returns (bytes: seq<Byte>)
    ensures bytes == Message(context, fields, key)
  {
    bytes := context;
    for k := 0 to |fields|
      invariant bytes == context + Framed(fields[..k])
    {
      FramedSnoc(fields[..k], fields[k]);
      assert fields[..k + 1] == fields[..k] + [fields[k]];
      bytes := bytes + Length(fields[k]);
      bytes := bytes + fields[k];
    }
    assert fields[..|fields|] == fields;
    bytes := bytes + key;
  }

  lemma {:induction false} FramedSnoc(fields: seq<Field>, last: Field)
    ensures Framed(fields + [last]) == Framed(fields) + Length(last) + last
  {
    if fields == [] {
      assert fields + [last] == [last];
      assert [last][1..] == [];
    } else {
      assert (fields + [last])[1..] == fields[1..] + [last];
      FramedSnoc(fields[1..], last);
    }
  }

  lemma {:induction false} BigEndianInjective(m: nat, n: nat, width: nat)
    requires m < Pow256(width) && n < Pow256(width) && BigEndian(m, width) == BigEndian(n, width)
    ensures m == n
  {
    if width > 0 {
      var a, b := BigEndian(m, width), BigEndian(n, width);
      assert a[width - 1] == m % 256 && b[width - 1] == n % 256;
      assert a[..width - 1] == BigEndian(m / 256, width - 1);
      assert b[..width - 1] == BigEndian(n / 256, width - 1);
      BigEndianInjective(m / 256, n / 256, width - 1);
    }
  }

  lemma Width8(n: nat)
    requires n < 0x1_0000_0000_0000_0000
    ensures n < Pow256(8)
  {
    assert Pow256(8) == 256 * Pow256(7) == 65536 * Pow256(6) == 0x100_0000 * Pow256(5) == 0x1_0000_0000 * Pow256(4);
    assert Pow256(4) == 256 * Pow256(3) == 65536 * Pow256(2);
    assert Pow256(2) == 256 * Pow256(1);
  }

  lemma LengthInjective(a: Field, b: Field)
    requires Length(a) == Length(b)
    ensures |a| == |b|
  {
    Width8(|a|);
    Width8(|b|);
    BigEndianInjective(|a|, |b|, 8);
  }

  lemma SplitEqual(a: seq<Byte>, b: seq<Byte>, c: seq<Byte>, d: seq<Byte>)
    requires a + b == c + d && |a| == |c|
    ensures a == c && b == d
  {
    assert (a + b)[..|a|] == a && (c + d)[..|a|] == c;
    assert (a + b)[|a|..] == b && (c + d)[|a|..] == d;
  }

  lemma FramedHead(fields: seq<Field>, key: PublicKey)
    requires fields != []
    ensures Framed(fields) + key == Length(fields[0]) + (fields[0] + (Framed(fields[1..]) + key))
  {
  }

  /** The first field of framed bytes is read back from them. */
  lemma FirstFieldInjective(f: Field, rest: seq<Byte>, g: Field, other: seq<Byte>)
    requires Length(f) + (f + rest) == Length(g) + (g + other)
    ensures f == g && rest == other
  {
    SplitEqual(Length(f), f + rest, Length(g), g + other);
    LengthInjective(f, g);
    SplitEqual(f, rest, g, other);
  }

  lemma {:induction false} FramedInjective(a: seq<Field>, b: seq<Field>, j: PublicKey, k: PublicKey)
    requires Framed(a) + j == Framed(b) + k
    ensures a == b && j == k
  {
    if a != [] && b != [] {
      FramedHead(a, j);
      FramedHead(b, k);
      FirstFieldInjective(a[0], Framed(a[1..]) + j, b[0], Framed(b[1..]) + k);
      FramedInjective(a[1..], b[1..], j, k);
      assert a == [a[0]] + a[1..] && b == [b[0]] + b[1..];
    } else {
      assert |Framed(a)| == |Framed(b)|;
      assert Framed(a) + j == j && Framed(b) + k == k;
    }
  }

  /** The signed bytes of one context name their fields and their key: whatever
      the fields hold, and however many there are. */
  lemma MessageInjective(context: seq<Byte>, a: seq<Field>, b: seq<Field>, j: PublicKey, k: PublicKey)
    requires Message(context, a, j) == Message(context, b, k)
    ensures a == b && j == k
  {
    var x, y := Message(context, a, j), Message(context, b, k);
    assert x[|context|..] == Framed(a) + j && y[|context|..] == Framed(b) + k;
    FramedInjective(a, b, j, k);
  }

  /** No boot statement is an endorsement, whatever either holds. */
  lemma ContextsSeparate(a: seq<Field>, b: seq<Field>, j: PublicKey, k: PublicKey)
    ensures Message(BOOT_STATEMENT_CONTEXT, a, j) != Message(ENDORSEMENT_CONTEXT, b, k)
  {
    assert Message(BOOT_STATEMENT_CONTEXT, a, j)[6] == 98;
    assert Message(ENDORSEMENT_CONTEXT, b, k)[6] == 101;
  }
}

module MachineProofs {
  import opened Wrappers
  import opened SignedBytes

  datatype Algorithm = EcdsaP256Sha256 | EcdsaP384Sha384 | Ed25519 | RsaPkcs1Sha256

  /** The public half of a signing key. A boot key is an Ed25519 key, and nothing
      keeps it apart from the Ed25519 key of a machine certificate. */
  datatype VerifyingKey = VerifyingKey(algorithm: Algorithm, bytes: seq<Byte>)

  datatype Signature = Signature(signer: VerifyingKey, message: seq<Byte>, value: seq<Byte>)

  /** A certificate: the key it certifies, and its common name when it parses. */
  datatype Certificate = Certificate(key: VerifyingKey, commonName: Option<Field>)

  datatype CaKind = Platform | Operator

  /** The CA of a federation: the chains it accepts at a time, and how they name machines. */
  datatype MachineTrust = MachineTrust(accepts: (seq<Certificate>, int) -> bool, kind: CaKind)

  datatype BootStatement = BootStatement(namespace: Field, coreNode: Field, instanceId: Field, publicKey: PublicKey,
                                         algorithm: Algorithm, signature: seq<Byte>, certificates: seq<Certificate>)

  datatype Endorsement = Endorsement(client: Field, publicKey: PublicKey, signature: seq<Byte>)

  datatype MachineProof = MachineProof(boot: BootStatement, endorsement: Option<Endorsement>)

  datatype ClaimedSender = ClaimedSender(namespace: Field, coreNode: Field, instanceId: Field)

  datatype ProvenKey = ProvenKey(key: PublicKey, isDaemon: bool)

  datatype ProofError = Decode | NamesAnother | Chain | CommonName | BadBootStatement | NoEndorsement | BadEndorsement

  datatype Result<+T> = Ok(value: T) | Err(error: ProofError)

  function BootBytes(namespace: Field, coreNode: Field, instanceId: Field, key: PublicKey): seq<Byte> {
    Message(BOOT_STATEMENT_CONTEXT, [namespace, coreNode, instanceId], key)
  }

  function EndorsementBytes(namespace: Field, coreNode: Field, instanceId: Field, client: Field, key: PublicKey): seq<Byte> {
    Message(ENDORSEMENT_CONTEXT, [namespace, coreNode, instanceId, client], key)
  }

  function BootKey(key: PublicKey): VerifyingKey {
    VerifyingKey(Ed25519, key)
  }

  // --- Runs: what daemons sign ---

  /** A daemon boots and signs its statement with its machine key, or endorses
      the key of a client with the key of its boot. */
  datatype Event =
    | Boots(machine: VerifyingKey, namespace: Field, coreNode: Field, instanceId: Field, bootKey: PublicKey, signature: seq<Byte>)
    | Endorses(bootKey: PublicKey, namespace: Field, coreNode: Field, instanceId: Field,
               client: Field, clientKey: PublicKey, signature: seq<Byte>)

  function Signs(e: Event): Signature {
    match e
    case Boots(machine, ns, core, id, key, sig) => Signature(machine, BootBytes(ns, core, id, key), sig)
    case Endorses(boot, ns, core, id, client, key, sig) => Signature(BootKey(boot), EndorsementBytes(ns, core, id, client, key), sig)
  }

  /** Ideal signatures: one verifies exactly when the run made it. */
  predicate Verifies(run: seq<Event>, signer: VerifyingKey, message: seq<Byte>, value: seq<Byte>) {
    exists k :: 0 <= k < |run| && Signs(run[k]) == Signature(signer, message, value)
  }

  // --- What a daemon makes ---

  /** The boot credential a machine of `chain` makes, its key being the leaf's. */
  function BootCredential(chain: seq<Certificate>, algorithm: Algorithm, namespace: Field, coreNode: Field, instanceId: Field,
                          bootKey: PublicKey, signature: seq<Byte>): BootStatement
  {
    BootStatement(namespace, coreNode, instanceId, bootKey, algorithm, signature, chain)
  }

  function DaemonProof(boot: BootStatement): MachineProof {
    MachineProof(boot, None)
  }

  function ClientProof(boot: BootStatement, client: Field, clientKey: PublicKey, signature: seq<Byte>): MachineProof {
    MachineProof(boot, Some(Endorsement(client, clientKey, signature)))
  }

  // --- What a receiver checks ---

  function Verify(trust: MachineTrust, run: seq<Event>, decoded: Option<MachineProof>, sender: ClaimedSender, now: int): Result<ProvenKey> {
    if decoded.None? then Err(Decode) else
    var boot := decoded.value.boot;
    if boot.namespace != sender.namespace || boot.coreNode != sender.coreNode then Err(NamesAnother)
    else if boot.certificates == [] then Err(Decode)
    else if !trust.accepts(boot.certificates, now) then Err(Chain) else
    var leaf := boot.certificates[0];
    if trust.kind.Operator? && leaf.commonName.None? then Err(Decode)
    else if trust.kind.Operator? && leaf.commonName.value != boot.coreNode then Err(CommonName)
    else if leaf.key.algorithm != boot.algorithm
         || !Verifies(run, leaf.key, BootBytes(boot.namespace, boot.coreNode, boot.instanceId, boot.publicKey), boot.signature)
    then Err(BadBootStatement)
    else if sender.instanceId == boot.instanceId then Ok(ProvenKey(boot.publicKey, true)) else
    VerifyEndorsement(run, boot, decoded.value.endorsement, sender)
  }

  function VerifyEndorsement(run: seq<Event>, boot: BootStatement, given: Option<Endorsement>, sender: ClaimedSender): Result<ProvenKey> {
    if given.None? || given.value.client != sender.instanceId then Err(NoEndorsement) else
    var e := given.value;
    if !Verifies(run, BootKey(boot.publicKey),
                 EndorsementBytes(boot.namespace, boot.coreNode, boot.instanceId, e.client, e.publicKey), e.signature)
    then Err(BadEndorsement)
    else Ok(ProvenKey(e.publicKey, false))
  }

  // --- A signature tells what was signed ---

  lemma BootSignatureTells(run: seq<Event>, signer: VerifyingKey, ns: Field, core: Field, id: Field, key: PublicKey, value: seq<Byte>)
    requires Verifies(run, signer, BootBytes(ns, core, id, key), value)
    ensures Boots(signer, ns, core, id, key, value) in run
  {
    var k :| 0 <= k < |run| && Signs(run[k]) == Signature(signer, BootBytes(ns, core, id, key), value);
    match run[k] {
      case Boots(m, n, c, i, b, s) =>
        MessageInjective(BOOT_STATEMENT_CONTEXT, [n, c, i], [ns, core, id], b, key);
        assert [n, c, i][0] == n && [n, c, i][1] == c && [n, c, i][2] == i;
      case Endorses(b, n, c, i, client, ck, s) =>
        ContextsSeparate([ns, core, id], [n, c, i, client], key, ck);
    }
  }

  lemma EndorsementSignatureTells(run: seq<Event>, boot: PublicKey, ns: Field, core: Field, id: Field, client: Field, key: PublicKey, value: seq<Byte>)
    requires Verifies(run, BootKey(boot), EndorsementBytes(ns, core, id, client, key), value)
    ensures Endorses(boot, ns, core, id, client, key, value) in run
  {
    var k :| 0 <= k < |run| && Signs(run[k]) == Signature(BootKey(boot), EndorsementBytes(ns, core, id, client, key), value);
    match run[k] {
      case Boots(m, n, c, i, b, s) =>
        ContextsSeparate([n, c, i], [ns, core, id, client], b, key);
      case Endorses(b, n, c, i, cl, ck, s) =>
        var f := [n, c, i, cl];
        MessageInjective(ENDORSEMENT_CONTEXT, f, [ns, core, id, client], ck, key);
        assert f[0] == n && f[1] == c && f[2] == i && f[3] == cl;
    }
  }

  // --- Agreement ---

  /** `boot` is a boot of the run that binds the sender's namespace and core node
      with a machine key under a chain the CA accepts. */
  ghost predicate BoundBy(trust: MachineTrust, run: seq<Event>, boot: Event, sender: ClaimedSender, now: int) {
    && boot in run && boot.Boots?
    && boot.namespace == sender.namespace && boot.coreNode == sender.coreNode
    && exists chain: seq<Certificate> :: chain != [] && trust.accepts(chain, now) && chain[0].key == boot.machine
         && (trust.kind.Operator? ==> chain[0].commonName == Some(sender.coreNode))
  }

  /** An accepted key was bound to exactly the sender that was claimed: as the
      key of a boot under that id, or through an endorsement by that same boot. */
  lemma Agreement(trust: MachineTrust, run: seq<Event>, decoded: Option<MachineProof>, sender: ClaimedSender, now: int)
    requires Verify(trust, run, decoded, sender, now).Ok?
    ensures var proven := Verify(trust, run, decoded, sender, now).value;
            exists boot :: BoundBy(trust, run, boot, sender, now)
              && (if proven.isDaemon then boot.instanceId == sender.instanceId && boot.bootKey == proven.key
                  else boot.instanceId != sender.instanceId
                       && exists sig :: Endorses(boot.bootKey, sender.namespace, sender.coreNode, boot.instanceId,
                                                 sender.instanceId, proven.key, sig) in run)
  {
    var proof := decoded.value;
    var b := proof.boot;
    BootSignatureTells(run, b.certificates[0].key, b.namespace, b.coreNode, b.instanceId, b.publicKey, b.signature);
    var boot := Boots(b.certificates[0].key, b.namespace, b.coreNode, b.instanceId, b.publicKey, b.signature);
    assert BoundBy(trust, run, boot, sender, now);
    if sender.instanceId != b.instanceId {
      var e := proof.endorsement.value;
      EndorsementSignatureTells(run, b.publicKey, b.namespace, b.coreNode, b.instanceId, e.client, e.publicKey, e.signature);
    }
  }

  /** What a receiver is shown, as events: the boot that `boot` claims, and the
      endorsement of a client by it. */
  function BootOf(boot: BootStatement): Event
    requires boot.certificates != []
  {
    Boots(boot.certificates[0].key, boot.namespace, boot.coreNode, boot.instanceId, boot.publicKey, boot.signature)
  }

  function EndorsementOf(boot: BootStatement, e: Endorsement): Event {
    Endorses(boot.publicKey, boot.namespace, boot.coreNode, boot.instanceId, e.client, e.publicKey, e.signature)
  }

  /** What makes a key the sender's: the chain is taken, the machine of its leaf made that
      boot with the algorithm it states, and the key is the boot's under the boot's own
      id, or endorsed by that boot for the sender's. */
  ghost predicate Proves(trust: MachineTrust, run: seq<Event>, proof: MachineProof, sender: ClaimedSender, now: int, key: ProvenKey) {
    var boot := proof.boot;
    && boot.namespace == sender.namespace && boot.coreNode == sender.coreNode
    && Takes(trust, boot.certificates, boot.coreNode, now)
    && boot.certificates[0].key.algorithm == boot.algorithm && BootOf(boot) in run
    && if sender.instanceId == boot.instanceId then key == ProvenKey(boot.publicKey, true)
       else && proof.endorsement.Some? && proof.endorsement.value.client == sender.instanceId
            && EndorsementOf(boot, proof.endorsement.value) in run
            && key == ProvenKey(proof.endorsement.value.publicKey, false)
  }

  lemma SignedBootVerifies(run: seq<Event>, e: Event)
    requires e in run
    ensures var s := Signs(e); Verifies(run, s.signer, s.message, s.value)
  {
    var k :| 0 <= k < |run| && run[k] == e;
    assert Signs(run[k]) == Signs(e);
  }

  /** A receiver accepts exactly what proves the sender's key, in terms of what the
      daemons did: no byte of an encoding is left in it. */
  lemma AcceptsExactly(trust: MachineTrust, run: seq<Event>, proof: MachineProof, sender: ClaimedSender, now: int, key: ProvenKey)
    ensures Verify(trust, run, Some(proof), sender, now) == Ok(key) <==> Proves(trust, run, proof, sender, now, key)
  {
    var b := proof.boot;
    if b.certificates != [] {
      if BootOf(b) in run { SignedBootVerifies(run, BootOf(b)); }
      if Verifies(run, b.certificates[0].key, BootBytes(b.namespace, b.coreNode, b.instanceId, b.publicKey), b.signature) {
        BootSignatureTells(run, b.certificates[0].key, b.namespace, b.coreNode, b.instanceId, b.publicKey, b.signature);
      }
    }
    if proof.endorsement.Some? {
      var e := proof.endorsement.value;
      if EndorsementOf(b, e) in run { SignedBootVerifies(run, EndorsementOf(b, e)); }
      if Verifies(run, BootKey(b.publicKey), EndorsementBytes(b.namespace, b.coreNode, b.instanceId, e.client, e.publicKey), e.signature) {
        EndorsementSignatureTells(run, b.publicKey, b.namespace, b.coreNode, b.instanceId, e.client, e.publicKey, e.signature);
      }
    }
  }

  /** A refusal says what is wrong. */
  lemma RefusalTells(trust: MachineTrust, run: seq<Event>, proof: MachineProof, sender: ClaimedSender, now: int)
    ensures var boot, answer := proof.boot, Verify(trust, run, Some(proof), sender, now);
            && (answer == Err(NamesAnother) <==> boot.namespace != sender.namespace || boot.coreNode != sender.coreNode)
            && (answer == Err(Chain) ==> boot.certificates != [] && !trust.accepts(boot.certificates, now))
            && (answer == Err(CommonName) ==> trust.kind.Operator? && boot.certificates[0].commonName != Some(sender.coreNode))
            && (answer == Err(BadBootStatement) ==>
                  boot.certificates[0].key.algorithm != boot.algorithm || BootOf(boot) !in run)
            && (answer == Err(NoEndorsement) ==>
                  && sender.instanceId != boot.instanceId
                  && (proof.endorsement.None? || proof.endorsement.value.client != sender.instanceId))
            && (answer == Err(BadEndorsement) ==> proof.endorsement.Some? && EndorsementOf(boot, proof.endorsement.value) !in run)
            && (answer == Err(Decode) ==> boot.certificates == [] || (trust.kind.Operator? && boot.certificates[0].commonName.None?))
  {
    var b := proof.boot;
    if b.certificates != [] && BootOf(b) in run { SignedBootVerifies(run, BootOf(b)); }
    if proof.endorsement.Some? && EndorsementOf(b, proof.endorsement.value) in run {
      SignedBootVerifies(run, EndorsementOf(b, proof.endorsement.value));
    }
  }

  /** Whether the CA takes `chain` for a machine of `coreNode`. */
  predicate Takes(trust: MachineTrust, chain: seq<Certificate>, coreNode: Field, now: int) {
    chain != [] && trust.accepts(chain, now) && (trust.kind.Operator? ==> chain[0].commonName == Some(coreNode))
  }

  /** The proof of a daemon proves its boot key to every receiver whose CA takes
      its chain, and nothing to any other. */
  lemma DaemonProofAccepted(trust: MachineTrust, run: seq<Event>, chain: seq<Certificate>, ns: Field, core: Field, id: Field,
                            bootKey: PublicKey, sig: seq<Byte>, now: int)
    requires chain != [] && Boots(chain[0].key, ns, core, id, bootKey, sig) in run
    ensures var proof := DaemonProof(BootCredential(chain, chain[0].key.algorithm, ns, core, id, bootKey, sig));
            var answer := Verify(trust, run, Some(proof), ClaimedSender(ns, core, id), now);
            if Takes(trust, chain, core, now) then answer == Ok(ProvenKey(bootKey, true)) else answer.Err?
  {
    var k :| 0 <= k < |run| && run[k] == Boots(chain[0].key, ns, core, id, bootKey, sig);
    assert Signs(run[k]) == Signature(chain[0].key, BootBytes(ns, core, id, bootKey), sig);
  }

  /** The proof of a client proves the client's key to every receiver whose CA
      takes the chain, exactly when its id is not the one of the boot: a client
      that bears the id of the boot is taken for the daemon. */
  lemma ClientProofAccepted(trust: MachineTrust, run: seq<Event>, chain: seq<Certificate>, ns: Field, core: Field, id: Field,
                            bootKey: PublicKey, sig: seq<Byte>, client: Field, clientKey: PublicKey, endorsed: seq<Byte>, now: int)
    requires chain != [] && Boots(chain[0].key, ns, core, id, bootKey, sig) in run
    requires Endorses(bootKey, ns, core, id, client, clientKey, endorsed) in run
    ensures var boot := BootCredential(chain, chain[0].key.algorithm, ns, core, id, bootKey, sig);
            var answer := Verify(trust, run, Some(ClientProof(boot, client, clientKey, endorsed)), ClaimedSender(ns, core, client), now);
            if !Takes(trust, chain, core, now) then answer.Err?
            else if client == id then answer == Ok(ProvenKey(bootKey, true))
            else answer == Ok(ProvenKey(clientKey, false))
  {
    var k :| 0 <= k < |run| && run[k] == Boots(chain[0].key, ns, core, id, bootKey, sig);
    assert Signs(run[k]) == Signature(chain[0].key, BootBytes(ns, core, id, bootKey), sig);
    var j :| 0 <= j < |run| && run[j] == Endorses(bootKey, ns, core, id, client, clientKey, endorsed);
    assert Signs(run[j]) == Signature(BootKey(bootKey), EndorsementBytes(ns, core, id, client, clientKey), endorsed);
  }
}
