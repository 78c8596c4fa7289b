/** Number normalization and the file envelope of go/store_file.go. */
module StoreEnvelope {
  import opened GoValues
  import opened StoreLayout

  // ---- normalizeStoreValue ----

  function NormalizeUint(kind: IntKind, n: int): Number
    requires Fits(kind, n) && 0 <= n
    requires kind.Uint? || kind.Uint64?
  {
    if n > MAX_INT64 then Integer(Uint64, n) else Integer(Int64, n)
  }

  function NormalizeNumber(x: Number): Number {
    match x
    case Integer(kind, n) =>
      (match kind
       case Uint => NormalizeUint(kind, n)
       case Uint64 => NormalizeUint(kind, n)
       case Int64 => x
       case _ => Integer(Int64, n))
    case Floating(wide, f) => if wide then x else Floating(true, f)
  }

  function Normalize(v: Val): Val {
    match v
    case Num(x) => Num(NormalizeNumber(x))
    case List(items) => List(seq(|items|, i requires 0 <= i < |items| => Normalize(items[i])))
    case Map(entries) => Map(map k | k in entries :: Normalize(entries[k]))
    case _ => v
  }

  function NormalizeValues(m: Values): Values {
    map k | k in m :: Normalize(m[k])
  }

  /** The only number forms consumers see: int64, uint64 above its range, float64. */
  predicate CanonicalNumber(x: Number) {
    match x
    case Integer(Int64, _) => true
    case Integer(Uint64, n) => n > MAX_INT64
    case Integer(_, _) => false
    case Floating(wide, _) => wide
  }

  predicate Canonical(v: Val) {
    match v
    case Num(x) => CanonicalNumber(x)
    case List(items) => forall i | 0 <= i < |items| :: Canonical(items[i])
    case Map(entries) => forall k | k in entries :: Canonical(entries[k])
    case _ => true
  }

  /** Equal up to the width of numbers; an integer never equals a float. */
  predicate SameLogical(a: Val, b: Val)
    decreases a
  {
    match (a, b)
    case (Num(x), Num(y)) =>
      (match (x, y)
       case (Integer(_, m), Integer(_, n)) => m == n
       case (Floating(_, f), Floating(_, g)) => f == g
       case _ => false)
    case (List(xs), List(ys)) => |xs| == |ys| && forall i | 0 <= i < |xs| :: SameLogical(xs[i], ys[i])
    case (Map(m), Map(n)) => m.Keys == n.Keys && forall k | k in m :: SameLogical(m[k], n[k])
    case _ => a == b
  }

  lemma {:induction false} NormalizeIsCanonical(v: Val)
    ensures Canonical(Normalize(v)) && SameLogical(v, Normalize(v))
    decreases v
  {
    match v
    case List(items) =>
      forall i | 0 <= i < |items| ensures Canonical(Normalize(items[i])) && SameLogical(items[i], Normalize(items[i])) {
        NormalizeIsCanonical(items[i]);
      }
    case Map(entries) =>
      forall k | k in entries ensures Canonical(Normalize(entries[k])) && SameLogical(entries[k], Normalize(entries[k])) {
        NormalizeIsCanonical(entries[k]);
      }
    case _ =>
  }

  lemma {:induction false} CanonicalIsFixed(v: Val)
    requires Canonical(v)
    ensures Normalize(v) == v
    decreases v
  {
    match v
    case List(items) =>
      forall i | 0 <= i < |items| ensures Normalize(items[i]) == items[i] {
        CanonicalIsFixed(items[i]);
      }
    case Map(entries) =>
      forall k | k in entries ensures Normalize(entries[k]) == entries[k] {
        CanonicalIsFixed(entries[k]);
      }
    case _ =>
  }

  lemma NormalizeIdempotent(v: Val)
    ensures Normalize(Normalize(v)) == Normalize(v)
  {
    NormalizeIsCanonical(v);
    CanonicalIsFixed(Normalize(v));
  }

  lemma EqualNormalLists(xs: seq<Val>, ys: seq<Val>)
    requires forall i | 0 <= i < |xs| && i < |ys| :: Normalize(xs[i]) == Normalize(ys[i]) <==> SameLogical(xs[i], ys[i])
    ensures Normalize(List(xs)) == Normalize(List(ys)) <==> SameLogical(List(xs), List(ys))
  {
    var ns, ms := Normalize(List(xs)).items, Normalize(List(ys)).items;
    assert |ns| == |xs| && |ms| == |ys|;
    if ns == ms {
      forall i | 0 <= i < |xs| ensures SameLogical(xs[i], ys[i]) {
        assert ns[i] == ms[i];
      }
    }
  }

  lemma EqualNormalMaps(m: map<string, Val>, n: map<string, Val>)
    requires forall k | k in m && k in n :: Normalize(m[k]) == Normalize(n[k]) <==> SameLogical(m[k], n[k])
    ensures Normalize(Map(m)) == Normalize(Map(n)) <==> SameLogical(Map(m), Map(n))
  {
    var ms, ns := Normalize(Map(m)).entries, Normalize(Map(n)).entries;
    assert ms.Keys == m.Keys && ns.Keys == n.Keys;
    if ms == ns {
      forall k | k in m ensures k in n && SameLogical(m[k], n[k]) {
        assert k in ms;
        assert ms[k] == ns[k];
      }
    }
  }

  /** Normalization forgets the width of numbers and nothing else. */
  lemma {:induction false} NormalizeErasesWidth(a: Val, b: Val)
    ensures Normalize(a) == Normalize(b) <==> SameLogical(a, b)
    decreases a
  {
    match (a, b)
    case (List(xs), List(ys)) =>
      forall i | 0 <= i < |xs| && i < |ys| ensures Normalize(xs[i]) == Normalize(ys[i]) <==> SameLogical(xs[i], ys[i]) {
        NormalizeErasesWidth(xs[i], ys[i]);
      }
      EqualNormalLists(xs, ys);
    case (Map(m), Map(n)) =>
      forall k | k in m && k in n ensures Normalize(m[k]) == Normalize(n[k]) <==> SameLogical(m[k], n[k]) {
        NormalizeErasesWidth(m[k], n[k]);
      }
      EqualNormalMaps(m, n);
    case _ =>
  }

  // ---- the envelope: magic, payload, little-endian CRC ----

  type Byte = n: int | 0 <= n < 0x100
  type Uint32 = n: int | 0 <= n < 0x1_0000_0000
  type Bytes = seq<Byte>

  const STORE_MAGIC: Bytes := ['C' as int, 'U' as int, 'I' as int, '1' as int]

  /** The msgpack library and the CRC-32 of section 3.2.9 of IEEE 802.3, as given functions. */
  datatype Codec = Codec(marshal: Val -> Option<Bytes>, unmarshal: Bytes -> Option<Val>, crc: Bytes -> Uint32)

  /** What the store relies on: decoding gives back the value, each number in
      whatever width the decoder picks. */
  ghost predicate PreservesValues(c: Codec) {
    forall v :: c.marshal(v).Some? ==>
      c.unmarshal(c.marshal(v).value).Some? && SameLogical(c.unmarshal(c.marshal(v).value).value, v)
  }

  datatype Decoded = Payload(doc: Values) | Corrupt(reason: CorruptReason)

  datatype CorruptReason = BadMagic | CrcMismatch | PayloadDecodeFailed | NotAMap

  function AppendUint32(n: Uint32): Bytes {
    [n % 0x100, n / 0x100 % 0x100, n / 0x1_0000 % 0x100, n / 0x100_0000]
  }

  function ReadUint32(b: Bytes): int
    requires |b| == 4
  {
    b[0] as int + 0x100 * b[1] as int + 0x1_0000 * b[2] as int + 0x100_0000 * b[3] as int
  }

  function EncodeEnvelope(c: Codec, doc: Values): Option<Bytes> {
    match c.marshal(Map(doc))
    case None => None
    case Some(body) => Some(STORE_MAGIC + body + AppendUint32(c.crc(body)))
  }

  function DecodeEnvelope(c: Codec, buf: Bytes): Decoded {
    if |buf| < |STORE_MAGIC| + 4 || buf[..|STORE_MAGIC|] != STORE_MAGIC then Corrupt(BadMagic)
    else
      var body := buf[|STORE_MAGIC|..|buf| - 4];
      if c.crc(body) != ReadUint32(buf[|buf| - 4..]) then Corrupt(CrcMismatch)
      else match c.unmarshal(body)
           case None => Corrupt(PayloadDecodeFailed)
           case Some(raw) =>
             match Normalize(raw)
             case Map(doc) => Payload(doc)
             case _ => Corrupt(NotAMap)
  }

  lemma Uint32RoundTrip(n: Uint32)
    ensures ReadUint32(AppendUint32(n)) == n
    ensures var b := AppendUint32(n);
      |b| == 4 && b[0] as int + 0x100 * b[1] as int + 0x1_0000 * b[2] as int + 0x100_0000 * b[3] as int == n as int
  {
    assert n == n % 0x100 + 0x100 * (n / 0x100);
    assert n / 0x100 == n / 0x100 % 0x100 + 0x100 * (n / 0x1_0000);
    assert n / 0x1_0000 == n / 0x1_0000 % 0x100 + 0x100 * (n / 0x100_0000);
  }

  lemma FramedParts(c: Codec, body: Bytes, tail: Bytes)
    requires |tail| == 4
    ensures var buf := STORE_MAGIC + body + tail;
      buf[..|STORE_MAGIC|] == STORE_MAGIC && buf[|STORE_MAGIC|..|buf| - 4] == body && buf[|buf| - 4..] == tail
  {
  }

  /** Decode after encode gives the normalized document, whatever widths the decoder picks. */
  lemma EnvelopeRoundTrip(c: Codec, doc: Values)
    requires PreservesValues(c) && EncodeEnvelope(c, doc).Some?
    ensures DecodeEnvelope(c, EncodeEnvelope(c, doc).value) == Payload(NormalizeValues(doc))
  {
    var body := c.marshal(Map(doc)).value;
    FramedParts(c, body, AppendUint32(c.crc(body)));
    Uint32RoundTrip(c.crc(body));
    var raw := c.unmarshal(body).value;
    NormalizeErasesWidth(raw, Map(doc));
    assert Normalize(Map(doc)) == Map(NormalizeValues(doc));
  }

  /** The bytes of a store file: the magic "CUI1", the payload as the library encodes it,
      and its checksum, lowest byte first. */
  lemma EnvelopeBytes(c: Codec, doc: Values, buf: Bytes)
    requires EncodeEnvelope(c, doc) == Some(buf)
    ensures var n := |buf|;
      && n >= 8 && buf[0] == 0x43 && buf[1] == 0x55 && buf[2] == 0x49 && buf[3] == 0x31
      && c.marshal(Map(doc)) == Some(buf[4..n - 4])
      && buf[n - 4] as int + 0x100 * buf[n - 3] as int + 0x1_0000 * buf[n - 2] as int + 0x100_0000 * buf[n - 1] as int
         == c.crc(buf[4..n - 4]) as int
  {
    var body := c.marshal(Map(doc)).value;
    var tail := AppendUint32(c.crc(body));
    FramedParts(c, body, tail);
    Uint32RoundTrip(c.crc(body));
    var n := |buf|;
    assert tail[0] == buf[n - 4..][0] && tail[1] == buf[n - 4..][1] && tail[2] == buf[n - 4..][2] && tail[3] == buf[n - 4..][3];
    assert buf[..4] == STORE_MAGIC && buf[..4][0] == buf[0] && buf[..4][1] == buf[1] && buf[..4][2] == buf[2];
    assert buf[..4][3] == buf[3];
  }

  /** A document is written exactly if the library encodes it. */
  lemma EncodesIff(c: Codec, doc: Values)
    ensures EncodeEnvelope(c, doc).Some? <==> c.marshal(Map(doc)).Some?
  {
  }

  /** A buffer carries a payload: magic, checksum with its lowest byte first, and
      something the library decodes to a map. */
  predicate WellFormed(c: Codec, buf: Bytes) {
    var n := |buf|;
    && n >= 8 && buf[0] == 0x43 && buf[1] == 0x55 && buf[2] == 0x49 && buf[3] == 0x31
    && buf[n - 4] as int + 0x100 * buf[n - 3] as int + 0x1_0000 * buf[n - 2] as int + 0x100_0000 * buf[n - 1] as int
       == c.crc(buf[4..n - 4]) as int
    && c.unmarshal(buf[4..n - 4]).Some? && c.unmarshal(buf[4..n - 4]).value.Map?
  }

  /** A buffer opens as a store if and only if it is well formed, byte by byte; and then
      as what its payload decodes to, in canonical form. */
  lemma DecodesIffWellFormed(c: Codec, buf: Bytes)
    ensures DecodeEnvelope(c, buf).Payload? <==> WellFormed(c, buf)
    ensures WellFormed(c, buf) ==>
      var doc := DecodeEnvelope(c, buf).doc;
      Canonical(Map(doc)) && SameLogical(c.unmarshal(buf[4..|buf| - 4]).value, Map(doc))
  {
    if |buf| >= 8 {
      MagicIsLiteral(buf);
      var tail := buf[|buf| - 4..];
      assert tail[0] == buf[|buf| - 4] && tail[1] == buf[|buf| - 3] && tail[2] == buf[|buf| - 2] && tail[3] == buf[|buf| - 1];
      if c.unmarshal(buf[4..|buf| - 4]).Some? {
        NormalizeIsCanonical(c.unmarshal(buf[4..|buf| - 4]).value);
      }
    }
  }

  lemma MagicIsLiteral(buf: Bytes)
    requires |buf| >= 4
    ensures buf[..4] == STORE_MAGIC <==> buf[0] == 0x43 && buf[1] == 0x55 && buf[2] == 0x49 && buf[3] == 0x31
  {
    var magic := buf[..4];
    assert magic[0] == buf[0] && magic[1] == buf[1] && magic[2] == buf[2] && magic[3] == buf[3];
    assert STORE_MAGIC[0] == 0x43 && STORE_MAGIC[1] == 0x55 && STORE_MAGIC[2] == 0x49 && STORE_MAGIC[3] == 0x31;
  }

  /** Reopening a document that was upgraded and written upgrades nothing again. */
  lemma UpgradeSurvivesRoundTrip(c: Codec, doc: Values)
    requires PreservesValues(c)
    requires EncodeEnvelope(c, UpgradeLayout(doc).0).Some?
    ensures var reread := DecodeEnvelope(c, EncodeEnvelope(c, UpgradeLayout(doc).0).value);
      reread.Payload? && UpgradeLayout(reread.doc) == (NormalizeValues(UpgradeLayout(doc).0), false)
  {
    var up := UpgradeLayout(doc).0;
    EnvelopeRoundTrip(c, up);
    UpgradeIsFixedPoint(doc);
    assert VERSION_KEY in up;
    assert ToInt64(Normalize(up[VERSION_KEY])) == ToInt64(up[VERSION_KEY]);
  }

  /** Loading what a run of saves wrote gives every location its last value map, normalized. */
  lemma NormalizeCommutesWithRead(doc: Values, loc: Location)
    ensures ReadLocation(NormalizeValues(doc), loc) ==
            match ReadLocation(doc, loc)
            case None => None
            case Some(values) => Some(NormalizeValues(values))
  {
    var key := ContainerKey(loc);
    if key in doc && doc[key].Map? {
      assert Normalize(doc[key]) == Map(NormalizeValues(doc[key].entries));
      if !loc.Plugin? && loc.id in doc[key].entries && doc[key].entries[loc.id].Map? {
        assert Normalize(doc[key].entries[loc.id]) == Map(NormalizeValues(doc[key].entries[loc.id].entries));
      }
    }
  }

  lemma DecodedIsCanonical(c: Codec, buf: Bytes)
    requires DecodeEnvelope(c, buf).Payload?
    ensures NormalizeValues(DecodeEnvelope(c, buf).doc) == DecodeEnvelope(c, buf).doc
  {
    var raw := c.unmarshal(buf[|STORE_MAGIC|..|buf| - 4]).value;
    NormalizeIdempotent(raw);
    assert Normalize(Normalize(raw)) == Map(NormalizeValues(Normalize(raw).entries));
  }
}
