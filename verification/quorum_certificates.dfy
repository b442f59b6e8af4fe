/**
 Quorum certificates: which certificates verify, and their bytes, a signature and the signers as a set of
 positions in the sorted list of validators. Cryptography is a parameter.
 */
module QuorumCertificates {
  import opened Wrappers
  import opened BigInts
  import opened Collections
  import Canoto

  /** A node ID, as the number its bytes spell; the order of IDs is the order of these numbers. */
  datatype NodeID = NodeID(value: nat)

  datatype PublicKey = PublicKey(bytes: seq<Byte>)

  datatype Signature = Signature(bytes: seq<Byte>)

  datatype Validator = Validator(nodeID: NodeID, publicKey: seq<Byte>)

  /** The operations of the signature scheme and of the message codec. */
  datatype Scheme = Scheme(
    parseKey: seq<Byte> -> Option<PublicKey>,
    validSignature: seq<Byte> -> bool,
    aggregateKeys: seq<PublicKey> -> Option<PublicKey>,
    aggregateSignatures: seq<Signature> -> Option<Signature>,
    encodeMessage: seq<Byte> -> Option<seq<Byte>>,
    verify: (PublicKey, Signature, seq<Byte>) -> bool,
    quorum: nat -> nat)

  datatype Verifier = Verifier(
    keys: map<NodeID, PublicKey>,
    canonical: seq<NodeID>,
    indices: map<NodeID, nat>)

  datatype QC = QC(sig: Signature, signers: seq<NodeID>)

  datatype Error =
    | UnexpectedSigners
    | DuplicateSigner
    | SignerNotFound
    | AggregationFailed
    | EncodingFailed
    | VerificationFailed
    | ParseFailed
    | InvalidSignature
    | InvalidBitSet
    | NodeNotFound
    | InvalidKey

  // ---------------------------------------------------------------------------------------
  // The canonical order of the validators.
  // ---------------------------------------------------------------------------------------

  predicate ByValue(a: NodeID, b: NodeID) {
    a.value <= b.value
  }

  /** Every listed node has a key, and the indices lead from each node to a position where it is listed. */
  ghost predicate Valid(v: Verifier) {
    && Sorted(v.canonical, ByValue)
    && v.keys.Keys == Elements(v.canonical) == v.indices.Keys
    && forall id :: id in v.indices ==> v.indices[id] < |v.canonical| && v.canonical[v.indices[id]] == id
  }

  /** The indices are the inverse of the canonical order. */
  ghost predicate Inverse(v: Verifier) {
    forall i :: 0 <= i < |v.canonical| ==> v.canonical[i] in v.indices && v.indices[v.canonical[i]] == i
  }

  /** The index map inverts the order exactly when no node is listed twice. */
  lemma InverseIffDistinct(v: Verifier)
    requires Valid(v)
    ensures Inverse(v) <==> Distinct(v.canonical)
  {
    if Distinct(v.canonical) {
      forall i | 0 <= i < |v.canonical|
        ensures v.canonical[i] in v.indices && v.indices[v.canonical[i]] == i
      {
        assert v.canonical[i] in v.canonical;
      }
    }
  }

  function IDs(validators: seq<Validator>): seq<NodeID> {
    seq(|validators|, i requires 0 <= i < |validators| => validators[i].nodeID)
  }

  /** The key of the last of the first n validators with this ID, if it parses. */
  ghost function LastKey(scheme: Scheme, validators: seq<Validator>, n: nat, id: NodeID): Option<PublicKey>
    requires n <= |validators|
  {
    if n == 0 then None
    else if validators[n - 1].nodeID == id then scheme.parseKey(validators[n - 1].publicKey)
    else LastKey(scheme, validators, n - 1, id)
  }

  method ParseKeys(scheme: Scheme, validators: seq<Validator>) returns (keys: Option<map<NodeID, PublicKey>>)
    ensures keys.Some? <==> forall i :: 0 <= i < |validators| ==> scheme.parseKey(validators[i].publicKey).Some?
    ensures keys.Some? ==> keys.value.Keys == Elements(IDs(validators))
    ensures keys.Some? ==> forall id :: id in keys.value ==>
      LastKey(scheme, validators, |validators|, id) == Some(keys.value[id])
  {
    var parsed: map<NodeID, PublicKey> := map[];
    for i := 0 to |validators|
      invariant forall j :: 0 <= j < i ==> scheme.parseKey(validators[j].publicKey).Some?
      invariant parsed.Keys == Elements(IDs(validators)[..i])
      invariant forall id :: id in parsed ==> LastKey(scheme, validators, i, id) == Some(parsed[id])
    {
      var key := scheme.parseKey(validators[i].publicKey);
      if key.None? {
        return None;
      }
      parsed := parsed[validators[i].nodeID := key.value];
      assert IDs(validators)[..i + 1] == IDs(validators)[..i] + [validators[i].nodeID];
    }
    assert IDs(validators)[..|validators|] == IDs(validators);
    return Some(parsed);
  }

  /** The keys and the canonical order of the configured validators. */
  method CreateVerifier(scheme: Scheme, validators: seq<Validator>) returns (r: Result<Verifier, Error>)
    ensures r.Ok? <==> forall i :: 0 <= i < |validators| ==> scheme.parseKey(validators[i].publicKey).Some?
    ensures r.Ok? ==> Valid(r.value) && multiset(r.value.canonical) == multiset(IDs(validators))
    ensures r.Ok? ==> forall id :: id in r.value.keys ==>
      LastKey(scheme, validators, |validators|, id) == Some(r.value.keys[id])
  {
    var keys := ParseKeys(scheme, validators);
    if keys.None? {
      return Err(InvalidKey);
    }
    var nodeIDs := IDs(validators);
    var canonical := Sort(nodeIDs, ByValue);
    SortSorts(nodeIDs, ByValue);
    SameElements(canonical, nodeIDs);
    var indices := IndexAll(canonical);
    return Ok(Verifier(keys.value, canonical, indices));
  }

  lemma SameElements(a: seq<NodeID>, b: seq<NodeID>)
    requires multiset(a) == multiset(b)
    ensures Elements(a) == Elements(b)
  {
    assert forall x :: x in a <==> x in multiset(a);
    assert forall x :: x in b <==> x in multiset(b);
  }

  method IndexAll(canonical: seq<NodeID>) returns (indices: map<NodeID, nat>)
    ensures indices.Keys == Elements(canonical)
    ensures forall id :: id in indices ==> indices[id] < |canonical| && canonical[indices[id]] == id
  {
    indices := map[];
    for i := 0 to |canonical|
      invariant indices.Keys == Elements(canonical[..i])
      invariant forall id :: id in indices ==> indices[id] < |canonical| && canonical[indices[id]] == id
    {
      indices := indices[canonical[i] := i];
      assert canonical[..i + 1] == canonical[..i] + [canonical[i]];
    }
    assert canonical[..|canonical|] == canonical;
  }

  // ---------------------------------------------------------------------------------------
  // Verification.
  // ---------------------------------------------------------------------------------------

  function KeysOf(keys: map<NodeID, PublicKey>, signers: seq<NodeID>): seq<PublicKey>
    requires forall i :: 0 <= i < |signers| ==> signers[i] in keys
  {
    seq(|signers|, i requires 0 <= i < |signers| => keys[signers[i]])
  }

  /** The signers are distinct members, as many as a quorum has. */
  ghost predicate IsQuorumOf(scheme: Scheme, keys: map<NodeID, PublicKey>, signers: seq<NodeID>) {
    && |signers| == scheme.quorum(|keys|)
    && Distinct(signers)
    && forall i :: 0 <= i < |signers| ==> signers[i] in keys
  }

  /** The aggregate of the signers' keys verifies the signature of the message. */
  ghost predicate SignatureHolds(scheme: Scheme, keys: map<NodeID, PublicKey>, qc: QC, msg: seq<Byte>)
    requires forall i :: 0 <= i < |qc.signers| ==> qc.signers[i] in keys
  {
    var key := scheme.aggregateKeys(KeysOf(keys, qc.signers));
    var encoded := scheme.encodeMessage(msg);
    key.Some? && encoded.Some? && scheme.verify(key.value, qc.sig, encoded.value)
  }

  /** The certificates of a message: a quorum whose signature holds. */
  ghost predicate Accepts(scheme: Scheme, v: Verifier, qc: QC, msg: seq<Byte>) {
    IsQuorumOf(scheme, v.keys, qc.signers) && SignatureHolds(scheme, v.keys, qc, msg)
  }

  method Verify(scheme: Scheme, v: Verifier, qc: QC, msg: seq<Byte>) returns (r: Result<(), Error>)
    ensures r.Ok? <==> Accepts(scheme, v, qc, msg)
    ensures r == Err(UnexpectedSigners) <==> |qc.signers| != scheme.quorum(|v.keys|)
    ensures r == Err(DuplicateSigner) ==> !Distinct(qc.signers)
    ensures r == Err(SignerNotFound) ==> !(Elements(qc.signers) <= v.keys.Keys)
  {
    var quorum := scheme.quorum(|v.keys|);
    if |qc.signers| != quorum {
      return Err(UnexpectedSigners);
    }

    var uniqueSigners: set<NodeID> := {};
    var pks: seq<PublicKey> := [];
    for i := 0 to |qc.signers|
      invariant uniqueSigners == Elements(qc.signers[..i]) && Distinct(qc.signers[..i])
      invariant forall j :: 0 <= j < i ==> qc.signers[j] in v.keys
      invariant pks == KeysOf(v.keys, qc.signers[..i])
    {
      var signer := qc.signers[i];
      if signer in uniqueSigners {
        assert exists j :: 0 <= j < i && qc.signers[..i][j] == signer;
        assert !Distinct(qc.signers);
        return Err(DuplicateSigner);
      }
      if signer !in v.keys {
        assert signer in Elements(qc.signers);
        return Err(SignerNotFound);
      }
      uniqueSigners := uniqueSigners + {signer};
      pks := pks + [v.keys[signer]];
      assert qc.signers[..i + 1] == qc.signers[..i] + [signer];
    }
    assert qc.signers[..|qc.signers|] == qc.signers;

    var aggregate := scheme.aggregateKeys(pks);
    if aggregate.None? {
      return Err(AggregationFailed);
    }
    var message := scheme.encodeMessage(msg);
    if message.None? {
      return Err(EncodingFailed);
    }
    if !scheme.verify(aggregate.value, qc.sig, message.value) {
      return Err(VerificationFailed);
    }
    return Ok(());
  }

  lemma {:induction false} DistinctCount(s: seq<NodeID>)
    requires Distinct(s)
    ensures |Elements(s)| == |s|
  {
    if s != [] {
      var front := s[..|s| - 1];
      DistinctCount(front);
      assert s == front + [s[|s| - 1]];
      assert Elements(s) == Elements(front) + {s[|s| - 1]};
      assert s[|s| - 1] !in front;
    }
  }

  lemma UnionCount(a: set<NodeID>, b: set<NodeID>)
    ensures |a + b| + |a * b| == |a| + |b|
  {
    assert |a + b| == |a| + |b - a|;
    assert b == (b - a) + (a * b);
  }

  /** Any two quorums of the same n members share at least 2 * quorum - n of them, whatever the quorum function. */
  lemma QuorumsIntersect(scheme: Scheme, keys: map<NodeID, PublicKey>, a: seq<NodeID>, b: seq<NodeID>)
    requires IsQuorumOf(scheme, keys, a) && IsQuorumOf(scheme, keys, b)
    ensures |Elements(a) * Elements(b)| >= 2 * scheme.quorum(|keys|) - |keys|
    ensures Elements(a) * Elements(b) <= keys.Keys
  {
    DistinctCount(a);
    DistinctCount(b);
    UnionCount(Elements(a), Elements(b));
    SubsetCount(Elements(a) + Elements(b), keys.Keys);
    assert |keys.Keys| == |keys|;
  }

  datatype SignerSignature = SignerSignature(signer: NodeID, value: seq<Byte>)

  function Signers(signatures: seq<SignerSignature>): seq<NodeID> {
    seq(|signatures|, i requires 0 <= i < |signatures| => signatures[i].signer)
  }

  function Values(signatures: seq<SignerSignature>): seq<Signature> {
    seq(|signatures|, i requires 0 <= i < |signatures| => Signature(signatures[i].value))
  }

  /** Signatures of members that all parse and can be aggregated. */
  ghost predicate Aggregable(scheme: Scheme, v: Verifier, signatures: seq<SignerSignature>) {
    && (forall i :: 0 <= i < |signatures| ==> signatures[i].signer in v.keys)
    && (forall i :: 0 <= i < |signatures| ==> scheme.validSignature(signatures[i].value))
    && scheme.aggregateSignatures(Values(signatures)).Some?
  }

  /** The certificate is made of the first quorum of signatures. */
  ghost predicate IsAggregateOf(scheme: Scheme, v: Verifier, signatures: seq<SignerSignature>, qc: QC) {
    var quorum := scheme.quorum(|v.keys|);
    && |signatures| >= quorum
    && Aggregable(scheme, v, signatures[..quorum])
    && qc.signers == Signers(signatures[..quorum])
    && Some(qc.sig) == scheme.aggregateSignatures(Values(signatures[..quorum]))
  }

  /** The certificate of the first quorum of signatures. */
  method Aggregate(scheme: Scheme, v: Verifier, signatures: seq<SignerSignature>) returns (r: Result<QC, Error>)
    ensures
      var quorum := scheme.quorum(|v.keys|);
      && (r.Ok? <==> |signatures| >= quorum && Aggregable(scheme, v, signatures[..quorum]))
      && (r.Ok? ==> IsAggregateOf(scheme, v, signatures, r.value))
      && (r == Err(UnexpectedSigners) <==> |signatures| < quorum)
  {
    var quorum := scheme.quorum(|v.keys|);
    if |signatures| < quorum {
      return Err(UnexpectedSigners);
    }
    var first := signatures[..quorum];
    var signers: seq<NodeID> := [];
    var sigs: seq<Signature> := [];
    for i := 0 to quorum
      invariant signers == Signers(first)[..i] && sigs == Values(first)[..i]
      invariant forall j :: 0 <= j < i ==> first[j].signer in v.keys && scheme.validSignature(first[j].value)
    {
      if first[i].signer !in v.keys {
        return Err(SignerNotFound);
      }
      if !scheme.validSignature(first[i].value) {
        return Err(InvalidSignature);
      }
      signers := signers + [first[i].signer];
      sigs := sigs + [Signature(first[i].value)];
    }
    assert signers == Signers(first) && sigs == Values(first);
    var sig := scheme.aggregateSignatures(sigs);
    if sig.None? {
      return Err(AggregationFailed);
    }
    return Ok(QC(sig.value, signers));
  }

  /** The signature is that of the named member over the message. */
  ghost predicate SignedBy(scheme: Scheme, v: Verifier, msg: seq<Byte>, signature: SignerSignature) {
    var encoded := scheme.encodeMessage(msg);
    && signature.signer in v.keys
    && scheme.validSignature(signature.value)
    && encoded.Some?
    && scheme.verify(v.keys[signature.signer], Signature(signature.value), encoded.value)
  }

  /** A single vote: the signature of one member over the message. */
  method VerifyVote(scheme: Scheme, v: Verifier, msg: seq<Byte>, vote: SignerSignature) returns (r: Result<(), Error>)
    ensures r.Ok? <==> SignedBy(scheme, v, msg, vote)
    ensures r == Err(SignerNotFound) <==> vote.signer !in v.keys
  {
    if vote.signer !in v.keys {
      return Err(SignerNotFound);
    }
    if !scheme.validSignature(vote.value) {
      return Err(InvalidSignature);
    }
    var message := scheme.encodeMessage(msg);
    if message.None? {
      return Err(EncodingFailed);
    }
    if !scheme.verify(v.keys[vote.signer], Signature(vote.value), message.value) {
      return Err(VerificationFailed);
    }
    return Ok(());
  }

  ghost predicate EachVerifies(scheme: Scheme, keys: seq<PublicKey>, sigs: seq<Signature>, encoded: seq<Byte>) {
    && |keys| == |sigs|
    && forall i :: 0 <= i < |keys| ==> scheme.verify(keys[i], sigs[i], encoded)
  }

  ghost predicate AggregateVerifies(scheme: Scheme, keys: seq<PublicKey>, sigs: seq<Signature>, encoded: seq<Byte>) {
    var key, sig := scheme.aggregateKeys(keys), scheme.aggregateSignatures(sigs);
    key.Some? && sig.Some? && scheme.verify(key.value, sig.value, encoded)
  }

  ghost predicate ByMembers(v: Verifier, signatures: seq<SignerSignature>) {
    forall i :: 0 <= i < |signatures| ==> signatures[i].signer in v.keys
  }

  /**
   The law of the scheme, for the first quorum of signatures: if each verifies the message under its member's key, their
   aggregate verifies it under the aggregate of the keys. Keys that cancel out need not obey it.
   */
  ghost predicate Lawful(scheme: Scheme, v: Verifier, signatures: seq<SignerSignature>, encoded: seq<Byte>)
    requires scheme.quorum(|v.keys|) <= |signatures| && ByMembers(v, signatures)
  {
    var first := signatures[..scheme.quorum(|v.keys|)];
    var keys, sigs := KeysOf(v.keys, Signers(first)), Values(first);
    EachVerifies(scheme, keys, sigs, encoded) ==> AggregateVerifies(scheme, keys, sigs, encoded)
  }

  /**
   A quorum of valid votes for a message always aggregates, and the certificate verifies for that message exactly when
   no member is among the first quorum of votes twice; aggregating does not look for repeated signers.
   */
  lemma AggregateVerifiesIff(scheme: Scheme, v: Verifier, signatures: seq<SignerSignature>, msg: seq<Byte>)
    returns (qc: QC)
    requires scheme.quorum(|v.keys|) <= |signatures| && scheme.encodeMessage(msg).Some? && ByMembers(v, signatures)
    requires forall i :: 0 <= i < |signatures| ==> SignedBy(scheme, v, msg, signatures[i])
    requires Lawful(scheme, v, signatures, scheme.encodeMessage(msg).value)
    ensures IsAggregateOf(scheme, v, signatures, qc)
    ensures Accepts(scheme, v, qc, msg) <==> Distinct(Signers(signatures[..scheme.quorum(|v.keys|)]))
  {
    var first := signatures[..scheme.quorum(|v.keys|)];
    var signers, sigs := Signers(first), Values(first);
    var keys := KeysOf(v.keys, signers);
    var encoded := scheme.encodeMessage(msg).value;
    forall i | 0 <= i < |keys|
      ensures scheme.verify(keys[i], sigs[i], encoded)
    {
      assert SignedBy(scheme, v, msg, signatures[i]);
    }
    assert EachVerifies(scheme, keys, sigs, encoded);
    assert AggregateVerifies(scheme, keys, sigs, encoded);
    qc := QC(scheme.aggregateSignatures(sigs).value, signers);
  }

  /** Any two votes of the first quorum by one member make a certificate that verifies for no message at all. */
  lemma RepeatedVoteIsRejected(scheme: Scheme, v: Verifier, signatures: seq<SignerSignature>, qc: QC, i: nat, j: nat)
    requires IsAggregateOf(scheme, v, signatures, qc)
    requires i < j < scheme.quorum(|v.keys|) && signatures[i].signer == signatures[j].signer
    ensures forall msg :: !Accepts(scheme, v, qc, msg)
  {
    assert qc.signers[i] == qc.signers[j];
  }

  /** A scheme in which every signature verifies and every member has to vote. */
  ghost function PermissiveScheme(): Scheme {
    Scheme(bytes => Some(PublicKey(bytes)), _ => true, _ => Some(PublicKey([])), _ => Some(Signature([])),
           msg => Some(msg), (_, _, _) => true, n => n)
  }

  const ONE := NodeID(1)
  const TWO := NodeID(2)

  ghost function TwoMembers(): Verifier {
    Verifier(map[ONE := PublicKey([]), TWO := PublicKey([])], [ONE, TWO], map[ONE := 0, TWO := 1])
  }

  lemma TwoMembersAreValid()
    ensures Valid(TwoMembers()) && Inverse(TwoMembers())
  {
    var v := TwoMembers();
    assert Elements(v.canonical) == {ONE, TWO};
    assert v.keys.Keys == {ONE, TWO};
    assert v.indices.Keys == {ONE, TWO};
    assert Sorted(v.canonical, ByValue);
  }

  /** Two valid votes of one of two members aggregate without an error, to a certificate nobody accepts. */
  lemma RepeatedVoteAggregates() returns (scheme: Scheme, v: Verifier, signatures: seq<SignerSignature>, qc: QC)
    ensures Valid(v) && Inverse(v) && scheme.quorum(|v.keys|) == |signatures| && ByMembers(v, signatures)
    ensures forall msg, i :: 0 <= i < |signatures| ==> SignedBy(scheme, v, msg, signatures[i])
    ensures forall encoded :: Lawful(scheme, v, signatures, encoded)
    ensures IsAggregateOf(scheme, v, signatures, qc)
    ensures forall msg :: !Accepts(scheme, v, qc, msg)
  {
    hide Valid, Inverse, Accepts;
    scheme, v := PermissiveScheme(), TwoMembers();
    TwoMembersAreValid();
    assert |v.keys| == 2;
    var vote := SignerSignature(ONE, []);
    signatures := [vote, vote];
    assert signatures[..2] == signatures;
    qc := QC(Signature([]), Signers(signatures));
    RepeatedVoteIsRejected(scheme, v, signatures, qc, 0, 1);
  }

  /** Enough distinct members. */
  method IsQuorum(scheme: Scheme, v: Verifier, nodes: seq<NodeID>) returns (r: bool)
    ensures r <==> Elements(nodes) <= v.keys.Keys && |Elements(nodes)| >= scheme.quorum(|v.keys|)
  {
    var uniqueNodes: set<NodeID> := {};
    for i := 0 to |nodes|
      invariant uniqueNodes == Elements(nodes[..i]) && uniqueNodes <= v.keys.Keys
    {
      if nodes[i] !in v.keys {
        assert nodes[i] in Elements(nodes);
        return false;
      }
      uniqueNodes := uniqueNodes + {nodes[i]};
      assert nodes[..i + 1] == nodes[..i] + [nodes[i]];
    }
    assert nodes[..|nodes|] == nodes;
    return |uniqueNodes| >= scheme.quorum(|v.keys|);
  }

  // ---------------------------------------------------------------------------------------
  // Bytes.
  // ---------------------------------------------------------------------------------------

  /** The position of a signer; a node that is not listed gets position 0. */
  function IndexOf(v: Verifier, signer: NodeID): nat {
    if signer in v.indices then v.indices[signer] else 0
  }

  /** The set of the signers' positions. */
  function BitSet(v: Verifier, signers: seq<NodeID>): nat {
    if signers == [] then 0 else SetBit(BitSet(v, signers[..|signers| - 1]), IndexOf(v, signers[|signers| - 1]))
  }

  method CreateSignersBitSet(v: Verifier, signers: seq<NodeID>) returns (b: seq<Byte>)
    ensures b == ToBytes(BitSet(v, signers))
  {
    var bitset := 0;
    for i := 0 to |signers|
      invariant bitset == BitSet(v, signers[..i])
    {
      bitset := SetBit(bitset, IndexOf(v, signers[i]));
      assert signers[..i + 1][..i] == signers[..i];
    }
    assert signers[..|signers|] == signers;
    return ToBytes(bitset);
  }

  /** A position is in the set exactly when some signer has it. */
  lemma {:induction false} BitSetBits(v: Verifier, signers: seq<NodeID>, i: nat)
    ensures Bit(BitSet(v, signers), i) <==> exists k :: 0 <= k < |signers| && IndexOf(v, signers[k]) == i
  {
    if signers == [] {
      ZeroHasNoBits(i);
    } else {
      var front, last := signers[..|signers| - 1], signers[|signers| - 1];
      BitSetBits(v, front, i);
      SetBitBits(BitSet(v, front), IndexOf(v, last), i);
      assert forall k :: 0 <= k < |front| ==> front[k] == signers[k];
    }
  }

  /** The listed nodes whose position is in the set, in the canonical order. */
  function Filter(indices: nat, nodes: seq<NodeID>, from: nat): seq<NodeID>
    requires from <= |nodes|
    decreases |nodes| - from
  {
    if from == |nodes| then []
    else if Bit(indices, from) then [nodes[from]] + Filter(indices, nodes, from + 1)
    else Filter(indices, nodes, from + 1)
  }

  method FilterNodes(indices: nat, nodes: seq<NodeID>) returns (r: Result<seq<NodeID>, Error>)
    ensures r == if BitLen(indices) > |nodes| then Err(NodeNotFound) else Ok(Filter(indices, nodes, 0))
  {
    if BitLen(indices) > |nodes| {
      return Err(NodeNotFound);
    }
    var filtered: seq<NodeID> := [];
    for i := 0 to |nodes|
      invariant filtered + Filter(indices, nodes, i) == Filter(indices, nodes, 0)
    {
      if Bit(indices, i) {
        assert filtered + ([nodes[i]] + Filter(indices, nodes, i + 1)) ==
               filtered + [nodes[i]] + Filter(indices, nodes, i + 1);
        filtered := filtered + [nodes[i]];
      }
    }
    assert filtered + [] == filtered;
    return Ok(filtered);
  }

  function SignersFromBytes(v: Verifier, b: seq<Byte>): Result<seq<NodeID>, Error> {
    var indices := FromBytes(b);
    if ToBytes(indices) != b then Err(InvalidBitSet)
    else if BitLen(indices) > |v.canonical| then Err(NodeNotFound)
    else Ok(Filter(indices, v.canonical, 0))
  }

  function Serialize(v: Verifier, qc: QC): seq<Byte> {
    Canoto.Marshal(Canoto.CERTIFICATE, [qc.sig.bytes, ToBytes(BitSet(v, qc.signers))])
  }

  function Deserialize(scheme: Scheme, v: Verifier, b: seq<Byte>): Result<QC, Error> {
    var m := Canoto.Unmarshal(Canoto.CERTIFICATE, b);
    if m.Err? then Err(ParseFailed)
    else if !scheme.validSignature(m.value[0]) then Err(InvalidSignature)
    else match SignersFromBytes(v, m.value[1])
      case Err(_) => Err(InvalidBitSet)
      case Ok(signers) => Ok(QC(Signature(m.value[0]), signers))
  }

  method QCBytes(v: Verifier, qc: QC) returns (b: seq<Byte>)
    ensures b == Serialize(v, qc)
  {
    var signers := CreateSignersBitSet(v, qc.signers);
    b := Canoto.MarshalCanoto(Canoto.CERTIFICATE, [qc.sig.bytes, signers]);
  }

  method DeserializeQuorumCertificate(scheme: Scheme, v: Verifier, b: seq<Byte>) returns (r: Result<QC, Error>)
    ensures r == Deserialize(scheme, v, b)
  {
    var m := Canoto.UnmarshalCanoto(Canoto.CERTIFICATE, b);
    if m.Err? {
      return Err(ParseFailed);
    }
    if !scheme.validSignature(m.value[0]) {
      return Err(InvalidSignature);
    }
    var indices := FromBytes(m.value[1]);
    if ToBytes(indices) != m.value[1] {
      return Err(InvalidBitSet);
    }
    var signers := FilterNodes(indices, v.canonical);
    if signers.Err? {
      return Err(InvalidBitSet);
    }
    return Ok(QC(Signature(m.value[0]), signers.value));
  }

  // Filtering and the set of positions undo each other.

  lemma {:induction false} FilterElements(indices: nat, nodes: seq<NodeID>, from: nat, id: NodeID)
    requires from <= |nodes|
    ensures id in Filter(indices, nodes, from) <==> exists i :: from <= i < |nodes| && nodes[i] == id && Bit(indices, i)
    decreases |nodes| - from
  {
    if from < |nodes| {
      FilterElements(indices, nodes, from + 1, id);
    }
  }

  /** The order of the signers is that of their positions, without repetition. */
  ghost predicate InCanonicalOrder(v: Verifier, signers: seq<NodeID>) {
    && (forall i :: 0 <= i < |signers| ==> signers[i] in v.indices)
    && forall i, j :: 0 <= i < j < |signers| ==> IndexOf(v, signers[i]) < IndexOf(v, signers[j])
  }

  lemma {:induction false} FilterIsOrdered(v: Verifier, indices: nat, from: nat)
    requires Valid(v) && Inverse(v) && from <= |v.canonical|
    ensures InCanonicalOrder(v, Filter(indices, v.canonical, from))
    ensures forall i :: 0 <= i < |Filter(indices, v.canonical, from)| ==>
      from <= IndexOf(v, Filter(indices, v.canonical, from)[i])
    decreases |v.canonical| - from
  {
    hide Valid, Inverse, IndexOf, Bit;
    if from < |v.canonical| {
      IndexOfCanonical(v, from);
      FilterIsOrdered(v, indices, from + 1);
    }
  }

  lemma IndexOfCanonical(v: Verifier, i: nat)
    requires Inverse(v) && i < |v.canonical|
    ensures v.canonical[i] in v.indices && IndexOf(v, v.canonical[i]) == i
  {
  }

  /** The positions of the filtered nodes are the positions that were asked for. */
  lemma BitSetOfFilter(v: Verifier, indices: nat)
    requires Valid(v) && Inverse(v) && BitLen(indices) <= |v.canonical|
    ensures BitSet(v, Filter(indices, v.canonical, 0)) == indices
  {
    hide BitSet, Bit, BitLen, Filter, Valid;
    var signers := Filter(indices, v.canonical, 0);
    FilterIsOrdered(v, indices, 0);
    forall i: nat
      ensures Bit(BitSet(v, signers), i) <==> Bit(indices, i)
    {
      BitSetBits(v, signers, i);
      if Bit(indices, i) {
        BitBelowLen(indices, i);
        FilterElements(indices, v.canonical, 0, v.canonical[i]);
      }
      if k :| 0 <= k < |signers| && IndexOf(v, signers[k]) == i {
        FilterElements(indices, v.canonical, 0, signers[k]);
      }
    }
    SameBits(BitSet(v, signers), indices);
  }

  lemma BitSetBelow(v: Verifier, signers: seq<NodeID>)
    requires Valid(v) && forall k :: 0 <= k < |signers| ==> signers[k] in v.indices
    ensures BitLen(BitSet(v, signers)) <= |v.canonical|
  {
    var n := BitSet(v, signers);
    if n != 0 {
      TopBit(n);
      BitSetBits(v, signers, BitLen(n) - 1);
    }
  }

  lemma FilterOfBitSet(v: Verifier, signers: seq<NodeID>)
    requires Valid(v) && Inverse(v) && forall k :: 0 <= k < |signers| ==> signers[k] in v.indices
    ensures Elements(Filter(BitSet(v, signers), v.canonical, 0)) == Elements(signers)
  {
    hide BitSet, Bit, Filter;
    var n := BitSet(v, signers);
    forall id
      ensures id in Filter(n, v.canonical, 0) <==> id in signers
    {
      FilterElements(n, v.canonical, 0, id);
      if id in signers {
        BitSetBits(v, signers, IndexOf(v, id));
      }
      if i :| 0 <= i < |v.canonical| && v.canonical[i] == id && Bit(n, i) {
        BitSetBits(v, signers, i);
      }
    }
  }

  lemma SerializedMessage(v: Verifier, qc: QC)
    requires |qc.sig.bytes| == Canoto.SIGNATURE_LEN && |ToBytes(BitSet(v, qc.signers))| < Canoto.UINT64_LIMIT
    ensures Canoto.Unmarshal(Canoto.CERTIFICATE, Serialize(v, qc)) ==
      Ok([qc.sig.bytes, ToBytes(BitSet(v, qc.signers))])
  {
    Canoto.RoundTrip(Canoto.CERTIFICATE, [qc.sig.bytes, ToBytes(BitSet(v, qc.signers))]);
  }

  /** A certificate read back has the same signature and the same set of signers, in canonical order, exactly when
      all its signers are listed. */
  lemma DeserializeSerialize(scheme: Scheme, v: Verifier, qc: QC)
    requires Valid(v) && Distinct(v.canonical) && |v.canonical| < Canoto.UINT64_LIMIT
    requires scheme.validSignature(qc.sig.bytes) && |qc.sig.bytes| == Canoto.SIGNATURE_LEN
    ensures
      var r := Deserialize(scheme, v, Serialize(v, qc));
      (r.Ok? && r.value.sig == qc.sig && InCanonicalOrder(v, r.value.signers)
       && Elements(r.value.signers) == Elements(qc.signers))
      <==> Elements(qc.signers) <= Elements(v.canonical)
  {
    InverseIffDistinct(v);
    var n := BitSet(v, qc.signers);
    BytesRoundTrip(n);
    if Elements(qc.signers) <= Elements(v.canonical) {
      assert forall k :: 0 <= k < |qc.signers| ==> qc.signers[k] in Elements(qc.signers);
      BitSetBelow(v, qc.signers);
      BytesLength(n, |v.canonical|);
      SerializedMessage(v, qc);
      FilterOfBitSet(v, qc.signers);
      FilterIsOrdered(v, n, 0);
    }
    var r := Deserialize(scheme, v, Serialize(v, qc));
    if r.Ok? && Elements(r.value.signers) == Elements(qc.signers) {
      forall id | id in qc.signers
        ensures id in v.canonical
      {
        assert id in Elements(r.value.signers);
        DeserializedAreListed(scheme, v, Serialize(v, qc), id);
      }
    }
  }

  lemma {:induction false} BytesLength(n: nat, k: nat)
    requires BitLen(n) <= k
    ensures |ToBytes(n)| <= k
  {
    if n != 0 {
      HalvesOfByte(n);
      BytesLength(n / 256, k - 1);
    }
  }

  lemma HalvesOfByte(n: nat)
    requires n != 0
    ensures BitLen(n / 256) < BitLen(n)
  {
    BitLenMonotone(n / 256, n / 2);
  }

  lemma {:induction false} BitLenMonotone(a: nat, b: nat)
    requires a <= b
    ensures BitLen(a) <= BitLen(b)
  {
    if a != 0 {
      BitLenMonotone(a / 2, b / 2);
    }
  }

  lemma DeserializedAreListed(scheme: Scheme, v: Verifier, b: seq<Byte>, id: NodeID)
    requires Deserialize(scheme, v, b).Ok? && id in Deserialize(scheme, v, b).value.signers
    ensures id in v.canonical
  {
    var m := Canoto.Unmarshal(Canoto.CERTIFICATE, b).value;
    FilterElements(FromBytes(m[1]), v.canonical, 0, id);
  }

  /** Certificates have one byte string each: what is accepted is written back as it was. */
  lemma SerializeDeserialize(scheme: Scheme, v: Verifier, b: seq<Byte>)
    requires Valid(v) && Distinct(v.canonical)
    requires Deserialize(scheme, v, b).Ok?
    ensures Serialize(v, Deserialize(scheme, v, b).value) == b
    ensures InCanonicalOrder(v, Deserialize(scheme, v, b).value.signers)
  {
    InverseIffDistinct(v);
    Canoto.Canonical(Canoto.CERTIFICATE, b);
    var m := Canoto.Unmarshal(Canoto.CERTIFICATE, b).value;
    var n := FromBytes(m[1]);
    BitSetOfFilter(v, n);
    FilterIsOrdered(v, n, 0);
    assert m == [m[0], m[1]];
  }
}
