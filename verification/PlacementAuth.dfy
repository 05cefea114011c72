/**
 The placement fingerprint: six length-prefixed components fed to a digest.

 The digest is the free constructor `Sha256`, that is, an injective function about which
 nothing else is known.  What is proved is that the encoding in front of it is uniquely
 decodable, so equal fingerprints mean equal placements of the same partition.
 */
module PlacementAuth {
  import opened Options
  import opened Bytes

  datatype ClaimRef = ClaimRef(namespace: GoString, name: GoString, uid: GoString)

  datatype Digest = Sha256(preimage: seq<byte>)

  // ---------------------------------------------------------------- encoding

  function Power256(k: nat): nat {
    if k == 0 then 1 else 256 * Power256(k - 1)
  }

  /** The `k` low-order bytes of `n`, most significant first. */
  function BigEndian(n: nat, k: nat): (bytes: seq<byte>)
    ensures |bytes| == k
  {
    if k == 0 then [] else BigEndian(n / 256, k - 1) + [(n % 256) as byte]
  }

  function Value(bytes: seq<byte>): nat {
    if bytes == [] then 0 else Value(bytes[..|bytes| - 1]) * 256 + bytes[|bytes| - 1] as nat
  }

  lemma {:induction false} BigEndianRoundTrip(n: nat, k: nat)
    requires n < Power256(k)
    ensures Value(BigEndian(n, k)) == n
  {
    if k > 0 {
      BigEndianRoundTrip(n / 256, k - 1);
      var bytes := BigEndian(n, k);
      assert bytes[..|bytes| - 1] == BigEndian(n / 256, k - 1);
    }
  }

  lemma LengthFitsEightBytes(s: GoString)
    ensures |s| < Power256(8)
  {
    assert Power256(4) == 0x1_0000_0000;
    assert Power256(8) == 256 * 256 * 256 * 256 * Power256(4);
  }

  /** writeComponent: an 8-byte big-endian length, then the bytes. */
  function Component(s: GoString): seq<byte> {
    BigEndian(|s|, 8) + s
  }

  function Encode(components: seq<GoString>): seq<byte> {
    if components == [] then [] else Component(components[0]) + Encode(components[1..])
  }

  /** Reads `count` components and returns them with the unread rest. */
  function Decode(bytes: seq<byte>, count: nat): Option<(seq<seq<byte>>, seq<byte>)> {
    if count == 0 then Some(([], bytes))
    else if |bytes| < 8 then None
    else
      var length := Value(bytes[..8]);
      if |bytes| < 8 + length then None
      else
        match Decode(bytes[8 + length..], count - 1)
        case None => None
        case Some((components, rest)) => Some(([bytes[8..8 + length]] + components, rest))
  }

  lemma ComponentParts(s: GoString, tail: seq<byte>)
    ensures (Component(s) + tail)[..8] == BigEndian(|s|, 8)
    ensures (Component(s) + tail)[8..8 + |s|] == s
    ensures (Component(s) + tail)[8 + |s|..] == tail
    ensures Value(BigEndian(|s|, 8)) == |s|
  {
    LengthFitsEightBytes(s);
    BigEndianRoundTrip(|s|, 8);
  }

  /** Whatever follows an encoding, decoding it returns exactly the components. */
  lemma {:induction false} DecodeEncode(components: seq<GoString>, rest: seq<byte>)
    ensures Decode(Encode(components) + rest, |components|) == Some((components, rest))
  {
    if components == [] {
      assert Encode(components) + rest == rest;
    } else {
      var s := components[0];
      var tail := Encode(components[1..]) + rest;
      assert Encode(components) + rest == Component(s) + tail;
      ComponentParts(s, tail);
      DecodeEncode(components[1..], rest);
      assert [s] + components[1..] == components;
    }
  }

  /** Unique decodability: no two component lists share an encoding, even as prefixes. */
  lemma EncodingIsUnambiguous(a: seq<GoString>, b: seq<GoString>, x: seq<byte>, y: seq<byte>)
    requires |a| == |b| && Encode(a) + x == Encode(b) + y
    ensures a == b && x == y
  {
    DecodeEncode(a, x);
    DecodeEncode(b, y);
  }

  // ---------------------------------------------------------------- fingerprint

  predicate Complete(partitionUid: GoString, node: GoString, serial: GoString, claim: Option<ClaimRef>) {
    && partitionUid != [] && node != [] && serial != [] && claim.Some?
    && claim.value.namespace != [] && claim.value.name != [] && claim.value.uid != []
  }

  /** The value Fingerprint returns; None stands for the empty string. */
  function FingerprintOf(partitionUid: GoString, node: GoString, serial: GoString, claim: Option<ClaimRef>): Option<Digest> {
    if !Complete(partitionUid, node, serial, claim) then None
    else Some(Sha256(Encode([partitionUid, node, serial, claim.value.namespace, claim.value.name, claim.value.uid])))
  }

  lemma {:induction false} EncodeAppend(a: seq<GoString>, s: GoString)
    ensures Encode(a + [s]) == Encode(a) + Component(s)
  {
    if a == [] {
      assert Encode([s]) == Component(s) + Encode([]);
    } else {
      EncodeAppend(a[1..], s);
      assert (a + [s])[1..] == a[1..] + [s];
    }
  }

  /** Fingerprint: feeds the digest one component at a time. */
  method Fingerprint(partitionUid: GoString, node: GoString, serial: GoString, claim: Option<ClaimRef>)
    returns (r: Option<Digest>)
    ensures r == FingerprintOf(partitionUid, node, serial, claim)
  {
    if !Complete(partitionUid, node, serial, claim) {
      return None;
    }
    var components: seq<GoString> := [partitionUid, node, serial, claim.value.namespace, claim.value.name, claim.value.uid];
    var written: seq<byte> := [];
    for i := 0 to |components|
      invariant written == Encode(components[..i])
    {
      EncodeAppend(components[..i], components[i]);
      assert components[..i] + [components[i]] == components[..i + 1];
      written := written + BigEndian(|components[i]|, 8) + components[i];
    }
    assert components[..|components|] == components;
    r := Some(Sha256(written));
  }

  /** Equal fingerprints bind the same partition, node, device and exact claim. */
  lemma FingerprintBindsPlacement(
      uid: GoString, node: GoString, serial: GoString, claim: Option<ClaimRef>,
      uid': GoString, node': GoString, serial': GoString, claim': Option<ClaimRef>)
    requires FingerprintOf(uid, node, serial, claim).Some?
    requires FingerprintOf(uid, node, serial, claim) == FingerprintOf(uid', node', serial', claim')
    ensures uid == uid' && node == node' && serial == serial' && claim == claim'
  {
    var a: seq<GoString> := [uid, node, serial, claim.value.namespace, claim.value.name, claim.value.uid];
    var b: seq<GoString> := [uid', node', serial', claim'.value.namespace, claim'.value.name, claim'.value.uid];
    EncodingIsUnambiguous(a, b, [], []);
    assert a[0] == b[0] && a[1] == b[1] && a[2] == b[2] && a[3] == b[3] && a[4] == b[4] && a[5] == b[5];
  }
}
