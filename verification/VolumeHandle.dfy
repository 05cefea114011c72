/**
 CSI volume handles: "distort-v1" and three unpadded base64url fields joined by dots
 (alphabet of section 5, no padding as in section 3.2 of RFC 4648), and the NQN naming.
 The decoder is Go's: it skips CR and LF and ignores the unused low bits of a final
 character, so it accepts more texts than the encoder produces.
 */
module VolumeHandle {
  import opened Options
  import opened Bytes
  import opened Text

  const HANDLE_PREFIX := "distort-v1"
  const NQN_PREFIX := "nqn.2026-02.io.distort:volume-"

  /** The backend name; the truncated digest of the UID is taken to be injective. */
  datatype ExternalId = ExternalId(uid: seq<byte>)

  datatype Identity = Identity(externalId: ExternalId, handle: string)

  datatype Reference = Reference(namespace: seq<byte>, name: seq<byte>, uid: seq<byte>)

  // ---------------------------------------------------------------- base64url

  type Sextet = i: int | 0 <= i < 64

  function Symbol(i: Sextet): char {
    if i < 26 then 'A' + i as char
    else if i < 52 then 'a' + (i - 26) as char
    else if i < 62 then '0' + (i - 52) as char
    else if i == 62 then '-' else '_'
  }

  function Digit(c: char): Option<Sextet> {
    if 'A' <= c <= 'Z' then Some(c as int - 'A' as int)
    else if 'a' <= c <= 'z' then Some(c as int - 'a' as int + 26)
    else if '0' <= c <= '9' then Some(c as int - '0' as int + 52)
    else if c == '-' then Some(62)
    else if c == '_' then Some(63)
    else None
  }

  lemma DigitSymbol(i: Sextet)
    ensures Digit(Symbol(i)) == Some(i)
    ensures Symbol(i) != '.' && Symbol(i) != '\r' && Symbol(i) != '\n'
  {
  }

  lemma SymbolDigit(c: char)
    requires Digit(c).Some?
    ensures Symbol(Digit(c).value) == c
  {
  }

  /** Groups of three bytes as four six-bit values; one or two left-over bytes as two or three. */
  function Pack(b: seq<byte>): seq<Sextet> {
    if |b| == 0 then []
    else if |b| == 1 then [High(b[0]), Mid(b[0], 0)]
    else if |b| == 2 then [High(b[0]), Mid(b[0], b[1]), Low(b[1], 0)]
    else [High(b[0]), Mid(b[0], b[1]), Low(b[1], b[2]), Tail(b[2])] + Pack(b[3..])
  }

  function High(x: byte): Sextet { x as int / 4 }
  function Mid(x: byte, y: byte): Sextet { x as int % 4 * 16 + y as int / 16 }
  function Low(y: byte, z: byte): Sextet { y as int % 16 * 4 + z as int / 64 }
  function Tail(z: byte): Sextet { z as int % 64 }

  function First(a: Sextet, b: Sextet): byte { (a * 4 + b / 16) as byte }
  function Second(b: Sextet, c: Sextet): byte { (b % 16 * 16 + c / 4) as byte }
  function Third(c: Sextet, d: Sextet): byte { (c % 4 * 64 + d) as byte }

  /** The inverse grouping; a single left-over value is an error, left-over bits are dropped. */
  function Unpack(s: seq<Sextet>): Option<seq<byte>> {
    if |s| == 0 then Some([])
    else if |s| == 1 then None
    else if |s| == 2 then Some([First(s[0], s[1])])
    else if |s| == 3 then Some([First(s[0], s[1]), Second(s[1], s[2])])
    else
      match Unpack(s[4..])
      case None => None
      case Some(rest) => Some([First(s[0], s[1]), Second(s[1], s[2]), Third(s[2], s[3])] + rest)
  }

  lemma BytesSurvive(x: byte, y: byte, z: byte)
    ensures First(High(x), Mid(x, y)) == x
    ensures Second(Mid(x, y), Low(y, z)) == y
    ensures Third(Low(y, z), Tail(z)) == z
  {
  }

  lemma SextetsSurvive(a: Sextet, b: Sextet, c: Sextet, d: Sextet)
    ensures High(First(a, b)) == a
    ensures Mid(First(a, b), Second(b, c)) == b
    ensures Low(Second(b, c), Third(c, d)) == c
    ensures Tail(Third(c, d)) == d
    ensures Mid(First(a, b), 0) == b / 16 * 16
    ensures Low(Second(b, c), 0) == c / 4 * 4
  {
  }

  lemma UnpackOne(x: byte)
    ensures Unpack(Pack([x])) == Some([x])
  {
    var s := Pack([x]);
    var q, r := x as int / 4, x as int % 4;
    assert s[0] == q && s[1] == r * 16;
    assert s[1] / 16 == r;
    assert First(s[0], s[1]) as int == q * 4 + r;
  }

  lemma UnpackTwo(x: byte, y: byte)
    ensures Unpack(Pack([x, y])) == Some([x, y])
  {
    BytesSurvive(x, y, 0);
    assert Pack([x, y]) == [High(x), Mid(x, y), Low(y, 0)];
  }

  lemma UnpackGroup(x: byte, y: byte, z: byte, rest: seq<Sextet>)
    requires Unpack(rest).Some?
    ensures Unpack([High(x), Mid(x, y), Low(y, z), Tail(z)] + rest) == Some([x, y, z] + Unpack(rest).value)
  {
    var s := [High(x), Mid(x, y), Low(y, z), Tail(z)] + rest;
    BytesSurvive(x, y, z);
    assert s[4..] == rest;
    assert s[0] == High(x) && s[1] == Mid(x, y) && s[2] == Low(y, z) && s[3] == Tail(z);
  }

  lemma {:induction false} UnpackPack(b: seq<byte>)
    ensures Unpack(Pack(b)) == Some(b)
  {
    if |b| == 1 {
      assert b == [b[0]];
      UnpackOne(b[0]);
    } else if |b| == 2 {
      assert b == [b[0], b[1]];
      UnpackTwo(b[0], b[1]);
    } else if |b| >= 3 {
      UnpackPack(b[3..]);
      UnpackGroup(b[0], b[1], b[2], Pack(b[3..]));
      assert [b[0], b[1], b[2]] + b[3..] == b;
    }
  }

  /** The unused low bits of the last value are zero. */
  predicate Tidy(s: seq<Sextet>) {
    && (|s| % 4 == 2 ==> s[|s| - 1] % 16 == 0)
    && (|s| % 4 == 3 ==> s[|s| - 1] % 4 == 0)
  }

  lemma LowBitsZero(x: Sextet)
    ensures x / 16 * 16 == x <==> x % 16 == 0
    ensures x / 4 * 4 == x <==> x % 4 == 0
  {
  }

  lemma TidyTail(s: seq<Sextet>)
    requires |s| >= 4
    ensures Tidy(s) <==> Tidy(s[4..])
  {
    assert |s| % 4 == |s[4..]| % 4;
    assert |s| > 4 ==> s[|s| - 1] == s[4..][|s| - 5];
  }

  lemma PackUnpackShort(s: seq<Sextet>)
    requires |s| == 2 || |s| == 3
    ensures |Pack(Unpack(s).value)| == |s|
    ensures Pack(Unpack(s).value) == s <==> Tidy(s)
  {
    LowBitsZero(s[|s| - 1]);
    if |s| == 2 {
      SextetsSurvive(s[0], s[1], 0, 0);
      assert Pack(Unpack(s).value) == [s[0], s[1] / 16 * 16];
    } else {
      SextetsSurvive(s[0], s[1], s[2], 0);
      assert Pack(Unpack(s).value) == [s[0], s[1], s[2] / 4 * 4];
    }
  }

  lemma PackGroup(s: seq<Sextet>)
    requires |s| >= 4 && Unpack(s[4..]).Some?
    ensures Unpack(s).Some? && Pack(Unpack(s).value) == s[..4] + Pack(Unpack(s[4..]).value)
  {
    SextetsSurvive(s[0], s[1], s[2], s[3]);
    assert Unpack(s).value[3..] == Unpack(s[4..]).value;
  }

  lemma {:induction false} PackUnpack(s: seq<Sextet>)
    requires Unpack(s).Some?
    ensures |Pack(Unpack(s).value)| == |s|
    ensures Pack(Unpack(s).value) == s <==> Tidy(s)
  {
    if |s| == 2 || |s| == 3 {
      PackUnpackShort(s);
    } else if |s| >= 4 {
      PackUnpack(s[4..]);
      PackGroup(s);
      TidyTail(s);
      var tail := Pack(Unpack(s[4..]).value);
      assert s == s[..4] + s[4..];
      assert (s[..4] + tail)[4..] == tail;
    }
  }

  // ---------------------------------------------------------------- text

  function Symbols(s: seq<Sextet>): (t: string)
    ensures |t| == |s|
    ensures forall i :: 0 <= i < |s| ==> t[i] == Symbol(s[i])
  {
    seq(|s|, i requires 0 <= i < |s| => Symbol(s[i]))
  }

  predicate AllDigits(t: string) {
    forall i :: 0 <= i < |t| ==> Digit(t[i]).Some?
  }

  function Digits(t: string): (s: seq<Sextet>)
    requires AllDigits(t)
    ensures |s| == |t|
    ensures forall i :: 0 <= i < |t| ==> s[i] == Digit(t[i]).value
  {
    seq(|t|, i requires 0 <= i < |t| => Digit(t[i]).value)
  }

  predicate Plain(t: string) {
    forall i :: 0 <= i < |t| ==> t[i] != '\r' && t[i] != '\n' && t[i] != '.'
  }

  lemma DigitsOfSymbols(s: seq<Sextet>)
    ensures AllDigits(Symbols(s)) && Plain(Symbols(s)) && Digits(Symbols(s)) == s
  {
    forall i | 0 <= i < |s| ensures Digit(Symbols(s)[i]) == Some(s[i]) && Plain([Symbols(s)[i]]) {
      DigitSymbol(s[i]);
    }
    assert forall i :: 0 <= i < |s| ==> Symbols(s)[i] == [Symbols(s)[i]][0];
  }

  lemma SymbolsOfDigits(t: string)
    requires AllDigits(t)
    ensures Symbols(Digits(t)) == t && Plain(t)
  {
    forall i | 0 <= i < |t| ensures Symbol(Digit(t[i]).value) == t[i] && t[i] != '\r' && t[i] != '\n' && t[i] != '.' {
      SymbolDigit(t[i]);
      DigitSymbol(Digit(t[i]).value);
    }
  }

  /** base64.RawURLEncoding.EncodeToString */
  function Encode(b: seq<byte>): string {
    Symbols(Pack(b))
  }

  function Strip(t: string): string {
    if t == "" then ""
    else if t[0] == '\r' || t[0] == '\n' then Strip(t[1..])
    else [t[0]] + Strip(t[1..])
  }

  /** base64.RawURLEncoding.DecodeString */
  function Decode(t: string): Option<seq<byte>> {
    var s := Strip(t);
    if AllDigits(s) then Unpack(Digits(s)) else None
  }

  lemma {:induction false} StripPlain(t: string)
    requires Plain(t)
    ensures Strip(t) == t
  {
    if t != "" {
      StripPlain(t[1..]);
      assert t == [t[0]] + t[1..];
    }
  }

  /** Decoding inverts encoding for every byte string. */
  lemma DecodeEncode(b: seq<byte>)
    ensures Decode(Encode(b)) == Some(b) && Plain(Encode(b))
  {
    UnpackPack(b);
    DigitsOfSymbols(Pack(b));
    StripPlain(Encode(b));
  }

  /** The texts the encoder produces: alphabet only, unused low bits zero. */
  predicate Canonical(t: string) {
    AllDigits(t) && Tidy(Digits(t))
  }

  /** Re-encoding a decoded text gives the text back exactly when it is canonical. */
  lemma EncodeDecodeIff(t: string)
    requires Decode(t).Some?
    ensures Encode(Decode(t).value) == t <==> Canonical(t)
  {
    var s := Strip(t);
    var b := Decode(t).value;
    PackUnpack(Digits(s));
    if Canonical(t) {
      SymbolsOfDigits(t);
      StripPlain(t);
    }
    if Encode(b) == t {
      DigitsOfSymbols(Pack(b));
      StripPlain(t);
    }
  }

  // ---------------------------------------------------------------- handles

  /** volumeidentity.New */
  function New(namespace: seq<byte>, name: seq<byte>, uid: seq<byte>): Option<Identity> {
    if namespace == [] || name == [] || uid == [] then None
    else Some(Identity(ExternalId(uid), Join([HANDLE_PREFIX, Encode(namespace), Encode(name), Encode(uid)], '.')))
  }

  /** volumeidentity.ParseVolumeHandle */
  function Parse(handle: string): Option<Reference> {
    var parts := Split(handle, '.');
    if |parts| != 4 || parts[0] != HANDLE_PREFIX then None
    else
      var namespace, name, uid := Decode(parts[1]), Decode(parts[2]), Decode(parts[3]);
      if namespace.None? || name.None? || uid.None? || namespace.value == [] || name.value == [] || uid.value == [] then None
      else Some(Reference(namespace.value, name.value, uid.value))
  }

  lemma FieldsSplit(a: string, b: string, c: string, d: string)
    requires Free(a, '.') && Free(b, '.') && Free(c, '.') && Free(d, '.')
    ensures Split(Join([a, b, c, d], '.'), '.') == [a, b, c, d]
  {
    SplitJoin([a, b, c, d], '.');
  }

  lemma HandleParts(namespace: seq<byte>, name: seq<byte>, uid: seq<byte>)
    requires New(namespace, name, uid).Some?
    ensures Split(New(namespace, name, uid).value.handle, '.') == [HANDLE_PREFIX, Encode(namespace), Encode(name), Encode(uid)]
  {
    DecodeEncode(namespace);
    DecodeEncode(name);
    DecodeEncode(uid);
    FieldsSplit(HANDLE_PREFIX, Encode(namespace), Encode(name), Encode(uid));
  }

  /** Parsing inverts New for all non-empty namespaces, names and UIDs, and New refuses
      exactly the others. */
  lemma ParseNew(namespace: seq<byte>, name: seq<byte>, uid: seq<byte>)
    ensures New(namespace, name, uid).Some? <==> namespace != [] && name != [] && uid != []
    ensures New(namespace, name, uid).Some? ==>
              Parse(New(namespace, name, uid).value.handle) == Some(Reference(namespace, name, uid))
  {
    if New(namespace, name, uid).Some? {
      HandleParts(namespace, name, uid);
      DecodeEncode(namespace);
      DecodeEncode(name);
      DecodeEncode(uid);
    }
  }

  /** Different objects never share a handle. */
  lemma HandlesInjective(ns: seq<byte>, name: seq<byte>, uid: seq<byte>, ns': seq<byte>, name': seq<byte>, uid': seq<byte>)
    requires New(ns, name, uid).Some? && New(ns', name', uid').Some?
    requires New(ns, name, uid).value.handle == New(ns', name', uid').value.handle
    ensures ns == ns' && name == name' && uid == uid'
  {
    ParseNew(ns, name, uid);
    ParseNew(ns', name', uid');
  }

  /** Parsing accepts other texts too; a parsed handle is the one New issues for the same
      object exactly when its three fields are canonical. */
  lemma IssuedIffCanonical(handle: string)
    requires Parse(handle).Some?
    ensures var ref := Parse(handle).value;
            var parts := Split(handle, '.');
            && New(ref.namespace, ref.name, ref.uid).Some?
            && (New(ref.namespace, ref.name, ref.uid).value.handle == handle
                <==> Canonical(parts[1]) && Canonical(parts[2]) && Canonical(parts[3]))
  {
    var ref := Parse(handle).value;
    var parts := Split(handle, '.');
    JoinSplit(handle, '.');
    EncodeDecodeIff(parts[1]);
    EncodeDecodeIff(parts[2]);
    EncodeDecodeIff(parts[3]);
    var issued := [HANDLE_PREFIX, Encode(ref.namespace), Encode(ref.name), Encode(ref.uid)];
    HandleParts(ref.namespace, ref.name, ref.uid);
    assert issued == parts <==> issued[1] == parts[1] && issued[2] == parts[2] && issued[3] == parts[3] by {
      assert issued[0] == parts[0];
    }
    assert Join(issued, '.') == handle <==> issued == parts;
  }

  lemma LooseFieldDecodes()
    ensures Decode("YQ") == Some([97]) && Decode("YR") == Some([97])
  {
    StripPlain("YQ");
    StripPlain("YR");
    assert Digits("YQ") == [24, 16] && Digits("YR") == [24, 17];
    assert First(24, 16) == 97 && First(24, 17) == 97;
  }

  /** Two different texts that both parse to the same object; only the first is issued. */
  lemma LooseHandleParses()
    ensures Join([HANDLE_PREFIX, "YQ", "YQ", "YQ"], '.') != Join([HANDLE_PREFIX, "YQ", "YQ", "YR"], '.')
    ensures Parse(Join([HANDLE_PREFIX, "YQ", "YQ", "YQ"], '.')) == Some(Reference([97], [97], [97]))
    ensures Parse(Join([HANDLE_PREFIX, "YQ", "YQ", "YR"], '.')) == Some(Reference([97], [97], [97]))
  {
    FieldsSplit(HANDLE_PREFIX, "YQ", "YQ", "YQ");
    FieldsSplit(HANDLE_PREFIX, "YQ", "YQ", "YR");
    LooseFieldDecodes();
    assert "YQ"[1] != "YR"[1];
    assert [HANDLE_PREFIX, "YQ", "YQ", "YQ"][3] != [HANDLE_PREFIX, "YQ", "YQ", "YR"][3];
  }

  // ---------------------------------------------------------------- NQN naming

  function Nqn(externalId: string): string {
    NQN_PREFIX + externalId
  }

  function ExternalIdFromNqn(nqn: string): Option<string> {
    if NQN_PREFIX <= nqn && |nqn| > |NQN_PREFIX| then Some(nqn[|NQN_PREFIX|..]) else None
  }

  /** Recovering the identifier from an NQN inverts naming, and accepts nothing else. */
  lemma NqnRoundTrip(nqn: string, externalId: string)
    ensures ExternalIdFromNqn(nqn) == Some(externalId) <==> nqn == Nqn(externalId) && externalId != ""
  {
    if ExternalIdFromNqn(nqn) == Some(externalId) {
      assert nqn == nqn[..|NQN_PREFIX|] + nqn[|NQN_PREFIX|..];
    }
    if nqn == Nqn(externalId) {
      assert nqn[|NQN_PREFIX|..] == externalId;
    }
  }
}
