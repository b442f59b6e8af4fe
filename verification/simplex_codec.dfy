/**
 What the Simplex storage relies on from its encodings: distinct database keys, block digests that identify blocks,
 and finalizations that are read back as they were stored.
 */
module SimplexCodec {
  import opened Wrappers
  import opened BigInts
  import opened Collections
  import Canoto
  import QuorumCertificates
  import Model = SimplexStorageModel
  import BlockTree

  const FINALIZATION_PREFIX: seq<Byte> := [0x66]
  const BLACKLIST_PREFIX: seq<Byte> := [0x62]

  function Pow256(k: nat): nat {
    if k == 0 then 1 else 256 * Pow256(k - 1)
  }

  /** The k lowest bytes of a number, most significant first. */
  function BigEndian(n: nat, k: nat): (b: seq<Byte>)
    ensures |b| == k
  {
    if k == 0 then [] else BigEndian(n / 256, k - 1) + [n % 256]
  }

  function FinalizationKey(sequence: nat): seq<Byte> {
    FINALIZATION_PREFIX + BigEndian(sequence, 8)
  }

  function BlacklistKey(sequence: nat): seq<Byte> {
    BLACKLIST_PREFIX + BigEndian(sequence, 8)
  }

  lemma {:induction false} BigEndianIsInjective(m: nat, n: nat, k: nat)
    requires m < Pow256(k) && n < Pow256(k) && BigEndian(m, k) == BigEndian(n, k)
    ensures m == n
  {
    if k > 0 {
      var a, b := BigEndian(m, k), BigEndian(n, k);
      assert a[k - 1] == m % 256 && b[k - 1] == n % 256;
      assert a[..k - 1] == BigEndian(m / 256, k - 1) && b[..k - 1] == BigEndian(n / 256, k - 1);
      BigEndianIsInjective(m / 256, n / 256, k - 1);
    }
  }

  /** The bytes are the digits of the number, most significant first. */
  lemma {:induction false} BigEndianValue(n: nat, k: nat)
    requires n < Pow256(k)
    ensures FromBytes(BigEndian(n, k)) == n
  {
    if k > 0 {
      BigEndianValue(n / 256, k - 1);
      assert BigEndian(n, k)[..k - 1] == BigEndian(n / 256, k - 1);
    }
  }

  lemma EightBytes(n: nat)
    requires n < Canoto.UINT64_LIMIT
    ensures n < Pow256(8)
  {
    assert Pow256(4) == 0x1_0000_0000;
    assert Pow256(8) == 256 * (256 * (256 * (256 * Pow256(4))));
  }

  /** Every 64-bit sequence number has its own key of each kind, and the kinds do not overlap. */
  lemma KeysAreDistinct(m: nat, n: nat)
    requires m < Canoto.UINT64_LIMIT && n < Canoto.UINT64_LIMIT
    ensures FinalizationKey(m) != BlacklistKey(n)
    ensures FinalizationKey(m) == FinalizationKey(n) <==> m == n
    ensures BlacklistKey(m) == BlacklistKey(n) <==> m == n
  {
    assert FinalizationKey(m)[0] == 0x66 && BlacklistKey(n)[0] == 0x62;
    if FinalizationKey(m) == FinalizationKey(n) || BlacklistKey(m) == BlacklistKey(n) {
      assert FinalizationKey(m)[1..] == BigEndian(m, 8) && FinalizationKey(n)[1..] == BigEndian(n, 8);
      assert BlacklistKey(m)[1..] == BigEndian(m, 8) && BlacklistKey(n)[1..] == BigEndian(n, 8);
      EightBytes(m);
      EightBytes(n);
      BigEndianIsInjective(m, n, 8);
    }
  }

  // ---------------------------------------------------------------------------------------
  // Blocks.
  // ---------------------------------------------------------------------------------------

  /** The bytes of the parts of a block. */
  datatype Codec = Codec(
    metadata: Model.Metadata -> seq<Byte>,
    inner: BlockTree.InnerBlock -> seq<Byte>,
    blacklist: Model.Blacklist -> seq<Byte>)

  function Parts(c: Codec, m: Model.Metadata, i: BlockTree.InnerBlock, l: Model.Blacklist): Canoto.Message {
    [c.metadata(m), c.inner(i), c.blacklist(l)]
  }

  function BlockBytes(c: Codec, m: Model.Metadata, i: BlockTree.InnerBlock, l: Model.Blacklist): seq<Byte> {
    Canoto.Marshal(Canoto.BLOCK, Parts(c, m, i, l))
  }

  /** No two parts have the same bytes. */
  ghost predicate Faithful(c: Codec) {
    && (forall m, m' :: c.metadata(m) == c.metadata(m') ==> m == m')
    && (forall i, i' :: c.inner(i) == c.inner(i') ==> i == i')
    && (forall l, l' :: c.blacklist(l) == c.blacklist(l') ==> l == l')
  }

  /** Blocks with the same bytes are the same block, so a hash without collisions identifies blocks. */
  lemma BlockBytesIdentify(
    c: Codec, m: Model.Metadata, i: BlockTree.InnerBlock, l: Model.Blacklist,
    m': Model.Metadata, i': BlockTree.InnerBlock, l': Model.Blacklist)
    requires Faithful(c)
    requires Canoto.WellFormed(Canoto.BLOCK, Parts(c, m, i, l)) && Canoto.WellFormed(Canoto.BLOCK, Parts(c, m', i', l'))
    ensures BlockBytes(c, m, i, l) == BlockBytes(c, m', i', l') <==> m == m' && i == i' && l == l'
  {
    if BlockBytes(c, m, i, l) == BlockBytes(c, m', i', l') {
      Canoto.RoundTrip(Canoto.BLOCK, Parts(c, m, i, l));
      Canoto.RoundTrip(Canoto.BLOCK, Parts(c, m', i', l'));
      var a, b := Parts(c, m, i, l), Parts(c, m', i', l');
      assert a == b;
      assert a[0] == b[0] && a[1] == b[1] && a[2] == b[2];
    }
  }

  // ---------------------------------------------------------------------------------------
  // Finalizations.
  // ---------------------------------------------------------------------------------------

  /** The signed header of a finalization, and its codec. */
  datatype Header = Header(metadata: Model.Metadata, digest: Model.Digest)

  datatype HeaderCodec = HeaderCodec(encode: Header -> seq<Byte>, decode: seq<Byte> -> Option<Header>)

  datatype Signed = Signed(header: Header, qc: QuorumCertificates.QC)

  function FinalizationToBytes(h: HeaderCodec, v: QuorumCertificates.Verifier, f: Signed): seq<Byte> {
    Canoto.Marshal(Canoto.FINALIZATION, [h.encode(f.header), QuorumCertificates.Serialize(v, f.qc)])
  }

  function FinalizationFromBytes(
    h: HeaderCodec, scheme: QuorumCertificates.Scheme, v: QuorumCertificates.Verifier, b: seq<Byte>): Option<Signed>
  {
    var m := Canoto.Unmarshal(Canoto.FINALIZATION, b);
    if m.Err? then None
    else
      var header, qc := h.decode(m.value[0]), QuorumCertificates.Deserialize(scheme, v, m.value[1]);
      if header.None? || qc.Err? then None else Some(Signed(header.value, qc.value))
  }

  /** A stored finalization is read back with its header, its signature and its signers, in canonical order. */
  lemma FinalizationRoundTrip(
    h: HeaderCodec, scheme: QuorumCertificates.Scheme, v: QuorumCertificates.Verifier, f: Signed)
    requires h.decode(h.encode(f.header)) == Some(f.header)
    requires QuorumCertificates.Valid(v) && Distinct(v.canonical)
    requires |v.canonical| < Canoto.UINT64_LIMIT
    requires scheme.validSignature(f.qc.sig.bytes) && |f.qc.sig.bytes| == Canoto.SIGNATURE_LEN
    requires Elements(f.qc.signers) <= Elements(v.canonical)
    requires |h.encode(f.header)| < Canoto.UINT64_LIMIT
    requires |QuorumCertificates.Serialize(v, f.qc)| < Canoto.UINT64_LIMIT
    ensures var r := FinalizationFromBytes(h, scheme, v, FinalizationToBytes(h, v, f));
      && r.Some? && r.value.header == f.header && r.value.qc.sig == f.qc.sig
      && Elements(r.value.qc.signers) == Elements(f.qc.signers)
      && QuorumCertificates.InCanonicalOrder(v, r.value.qc.signers)
  {
    Canoto.RoundTrip(Canoto.FINALIZATION, [h.encode(f.header), QuorumCertificates.Serialize(v, f.qc)]);
    QuorumCertificates.DeserializeSerialize(scheme, v, f.qc);
  }
}
