/** The Protocol Buffers encoding of RpcMeta: fixed64 id = 1, string server = 2,
    string method = 3, int32 data_size = 4. */
module RpcMetas {
  import opened Bytes
  import opened Options

  datatype RpcMeta = RpcMeta(id: int, server: seq<byte>, methodName: seq<byte>, dataSize: int)

  const EMPTY := RpcMeta(0, [], [], 0)

  // (field number << 3) | wire type
  const ID_TAG: byte := 9
  const SERVER_TAG: byte := 18
  const METHOD_TAG: byte := 26
  const DATA_SIZE_TAG: byte := 32

  /** The values a message object can hold: uint64, two strings, int32. */
  predicate ValidMeta(m: RpcMeta) {
    && 0 <= m.id < TWO_64
    && |m.server| < TWO_31 && |m.methodName| < TWO_31
    && -TWO_31 <= m.dataSize < TWO_31
  }

  // ---------- Base 128 varints ----------

  function Varint(n: nat): (s: seq<byte>) {
    if n < 128 then [n] else [n % 128 + 128] + Varint(n / 128)
  }

  /** Reads at most limit bytes; the value and the number of bytes taken. */
  function ReadVarint(s: seq<byte>, limit: nat): (r: Option<(nat, nat)>)
    ensures r.Some? ==> 1 <= r.value.1 <= |s| && r.value.1 <= limit
  {
    if limit == 0 || s == [] then None
    else if s[0] < 128 then Some((s[0], 1))
    else match ReadVarint(s[1..], limit - 1)
      case None => None
      case Some((v, k)) => Some((s[0] - 128 + 128 * v, k + 1))
  }

  function Pow128(n: nat): nat {
    if n == 0 then 1 else 128 * Pow128(n - 1)
  }

  lemma Pow128Values()
    ensures Pow128(5) >= TWO_32 && Pow128(10) >= TWO_64
  {
    assert Pow128(2) == 0x4000;
    assert Pow128(4) == 0x1000_0000;
    assert Pow128(5) == 0x8_0000_0000;
    assert Pow128(6) == 0x400_0000_0000;
    assert Pow128(8) == 0x100_0000_0000_0000;
  }

  lemma {:induction false} VarintRoundTrip(n: nat, limit: nat, t: seq<byte>)
    requires limit > 0 && n < Pow128(limit)
    ensures ReadVarint(Varint(n) + t, limit) == Some((n, |Varint(n)|))
  {
    if n >= 128 {
      assert limit > 1 by { assert Pow128(1) == 128 * Pow128(0); }
      VarintRoundTrip(n / 128, limit - 1, t);
      assert (Varint(n) + t)[1..] == Varint(n / 128) + t;
    }
  }

  /** More input never changes a varint that was already complete. */
  lemma {:induction false} VarintPrefix(s: seq<byte>, limit: nat, t: seq<byte>)
    requires ReadVarint(s, limit).Some?
    ensures ReadVarint(s + t, limit) == ReadVarint(s, limit)
  {
    if s[0] >= 128 {
      VarintPrefix(s[1..], limit - 1, t);
      assert (s + t)[1..] == s[1..] + t;
    }
  }

  /** CodedOutputStream::VarintSize32. */
  function VarintSize32(n: nat): nat {
    if n < 0x80 then 1 else if n < 0x4000 then 2 else if n < 0x20_0000 then 3
    else if n < 0x1000_0000 then 4 else 5
  }

  lemma VarintLength(n: nat)
    requires n < TWO_32
    ensures |Varint(n)| == VarintSize32(n)
  {
    var n1 := n / 128;
    var n2 := n1 / 128;
    var n3 := n2 / 128;
    var n4 := n3 / 128;
    assert n4 < 128;
    assert |Varint(n4)| == 1;
    assert n3 >= 128 ==> |Varint(n3)| == 2;
    assert n2 >= 128 ==> |Varint(n2)| == 1 + |Varint(n3)|;
    assert n1 >= 128 ==> |Varint(n1)| == 1 + |Varint(n2)|;
  }

  /** The i-th base-128 digit, least significant first. */
  function Digit128(n: nat, i: nat): nat
    decreases i
  {
    if i == 0 then n % 128 else Digit128(n / 128, i - 1)
  }

  /** Byte i of a varint holds the i-th digit; the high bit says whether more follow; and there are no more
      than needed. */
  lemma {:induction false} VarintDigits(n: nat, i: nat)
    requires i < |Varint(n)|
    ensures Varint(n)[i] == Digit128(n, i) + (if i + 1 < |Varint(n)| then 128 else 0)
    ensures |Varint(n)| > 1 ==> Varint(n)[|Varint(n)| - 1] > 0
    ensures |Varint(n)| == 1 <==> n < 128
  {
    if n >= 128 {
      VarintDigits(n / 128, if i == 0 then 0 else i - 1);
    }
  }

  lemma {:induction false} NoDigits(i: nat)
    ensures Digit128(0, i) == 0
    decreases i
  {
    if i > 0 {
      NoDigits(i - 1);
    }
  }

  /** A varint is read up to the first byte below 128, if that comes within the limit; its digits are the low
      seven bits of the bytes, and it has no others. */
  lemma {:induction false} ReadVarintDigits(s: seq<byte>, limit: nat, k: nat, i: nat)
    requires k < |s| && k < limit && s[k] < 128
    requires forall j :: 0 <= j < k ==> s[j] >= 128
    ensures ReadVarint(s, limit).Some? && ReadVarint(s, limit).value.1 == k + 1
    ensures Digit128(ReadVarint(s, limit).value.0, i) == if i <= k then s[i] % 128 else 0
    decreases k
  {
    if k == 0 {
      if i > 0 {
        assert s[0] as nat / 128 == 0;
        NoDigits(i - 1);
      }
    } else {
      ReadVarintDigits(s[1..], limit - 1, k - 1, if i == 0 then 0 else i - 1);
      var w := ReadVarint(s[1..], limit - 1).value.0;
      assert ReadVarint(s, limit).value.0 == s[0] - 128 + 128 * w;
      assert (s[0] - 128 + 128 * w) / 128 == w && (s[0] - 128 + 128 * w) % 128 == s[0] % 128;
    }
  }

  lemma {:induction false} ReadVarintFails(s: seq<byte>, limit: nat)
    requires forall i :: 0 <= i < |s| && i < limit ==> s[i] >= 128
    ensures ReadVarint(s, limit).None?
    decreases limit
  {
    if limit > 0 && s != [] {
      ReadVarintFails(s[1..], limit - 1);
    }
  }

  /** int32 on the wire: sign-extended to 64 bits, so a negative value takes ten bytes. */
  function Int32Bits(x: int): nat
    requires -TWO_31 <= x < TWO_31
  {
    if x < 0 then x + TWO_64 else x
  }

  lemma NegativeVarintLength(x: int)
    requires -TWO_31 <= x < 0
    ensures |Varint(Int32Bits(x))| == 10
  {
    VarintLengthBetween(Int32Bits(x), 10);
  }

  lemma {:induction false} VarintLengthBetween(n: nat, k: nat)
    requires k >= 1 && n < Pow128(k) && (k >= 2 ==> n >= Pow128(k - 1))
    ensures |Varint(n)| == k
  {
    if k >= 2 {
      assert n >= 128 by { PowAtLeast(k - 1); }
      VarintLengthBetween(n / 128, k - 1);
    }
  }

  lemma {:induction false} PowAtLeast(k: nat)
    requires k >= 1
    ensures Pow128(k) >= 128
  {
    if k > 1 { PowAtLeast(k - 1); }
  }

  // ---------- The four fields ----------

  function IdField(id: int): seq<byte>
    requires 0 <= id
  {
    if id == 0 then [] else [ID_TAG] + LittleEndian(id, 8)
  }

  function StringField(tag: byte, s: seq<byte>): seq<byte> {
    if s == [] then [] else [tag] + Varint(|s|) + s
  }

  function DataSizeField(x: int): seq<byte>
    requires -TWO_31 <= x < TWO_31
  {
    if x == 0 then [] else [DATA_SIZE_TAG] + Varint(Int32Bits(x))
  }

  /** Fields in number order, zero values and empty strings left out. */
  function Serialize(m: RpcMeta): seq<byte>
    requires ValidMeta(m)
  {
    IdField(m.id) + StringField(SERVER_TAG, m.server) + StringField(METHOD_TAG, m.methodName)
      + DataSizeField(m.dataSize)
  }

  /** The wire format spelled out: tag 9 and eight bytes for the id, 18 and 26 with a length for the two
      names, 32 and a varint for the size, in this order, defaults left out. */
  lemma WireFormat(m: RpcMeta)
    requires ValidMeta(m)
    ensures Serialize(m) ==
      (if m.id == 0 then [] else [9] + LittleEndian(m.id, 8))
      + (if m.server == [] then [] else [18] + Varint(|m.server|) + m.server)
      + (if m.methodName == [] then [] else [26] + Varint(|m.methodName|) + m.methodName)
      + (if m.dataSize == 0 then []
         else [32] + Varint(if m.dataSize < 0 then m.dataSize + 0x1_0000_0000_0000_0000 else m.dataSize))
  {
  }

  /** Every non-default field of b replaces that of a. */
  function Merge(a: RpcMeta, b: RpcMeta): RpcMeta {
    RpcMeta(if b.id != 0 then b.id else a.id,
            if b.server != [] then b.server else a.server,
            if b.methodName != [] then b.methodName else a.methodName,
            if b.dataSize != 0 then b.dataSize else a.dataSize)
  }

  /** One iteration of the parser: the message after the field, and the number of bytes taken. */
  function ParseField(acc: RpcMeta, s: seq<byte>): (r: Option<(RpcMeta, nat)>)
    requires ValidMeta(acc)
    ensures r.Some? ==> ValidMeta(r.value.0) && 1 <= r.value.1 <= |s|
  {
    match ReadVarint(s, 5)
    case None => None
    case Some((tag32, k)) =>
      var tag, t := tag32 % TWO_32, s[k..];
      if tag == ID_TAG then
        if |t| < 8 then None else
        Pow256Values();
        Some((acc.(id := FromLittleEndian(t[..8])), k + 8))
      else if tag == SERVER_TAG then
        match ParseString(t) {
          case None => None
          case Some((str, j)) => Some((acc.(server := str), k + j))
        }
      else if tag == METHOD_TAG then
        match ParseString(t) {
          case None => None
          case Some((str, j)) => Some((acc.(methodName := str), k + j))
        }
      else if tag == DATA_SIZE_TAG then
        match ReadVarint(t, 10) {
          case None => None
          case Some((v, j)) => Some((acc.(dataSize := ToInt32(v)), k + j))
        }
      else None
  }

  /** A length-prefixed string and the number of bytes taken. */
  function ParseString(t: seq<byte>): (r: Option<(seq<byte>, nat)>)
    ensures r.Some? ==> r.value.1 <= |t| && |r.value.0| < TWO_31
  {
    match ReadVarint(t, 5)
    case None => None
    case Some((len, k)) =>
      if len >= TWO_31 || |t| - k < len then None
      else Some((t[k..k + len], k + len))
  }

  /** The parser's answer: whether it reached the end, and the message as far as it was filled in. */
  datatype Parsed = Parsed(ok: bool, meta: RpcMeta)

  function Parse(acc: RpcMeta, s: seq<byte>): (r: Parsed)
    requires ValidMeta(acc)
    ensures ValidMeta(r.meta)
    decreases |s|
  {
    if s == [] then Parsed(true, acc)
    else match ParseField(acc, s)
      case None => Parsed(false, acc)
      case Some((acc', k)) => Parse(acc', s[k..])
  }

  // ---------- Parsing what was serialized ----------

  lemma TagRead(tag: byte, t: seq<byte>)
    requires tag < 128
    ensures ReadVarint([tag] + t, 5) == Some((tag as nat, 1)) && ([tag] + t)[1..] == t
  {
  }

  lemma StringRead(str: seq<byte>, t: seq<byte>)
    requires |str| < TWO_31
    ensures ParseString(Varint(|str|) + str + t) == Some((str, |Varint(|str|)| + |str|))
  {
    Pow128Values();
    assert Varint(|str|) + str + t == Varint(|str|) + (str + t);
    VarintRoundTrip(|str|, 5, str + t);
  }

  lemma IdFieldRead(acc: RpcMeta, id: int, t: seq<byte>)
    requires ValidMeta(acc) && 0 <= id < TWO_64
    ensures Parse(acc, IdField(id) + t) == Parse(Merge(acc, EMPTY.(id := id)), t)
  {
    var f := IdField(id);
    if id == 0 {
      assert f + t == t;
    } else {
      Pow256Values();
      LittleEndianRoundTrip(id, 8);
      var u := LittleEndian(id, 8) + t;
      assert f + t == [ID_TAG] + u;
      TagRead(ID_TAG, u);
      assert u[..8] == LittleEndian(id, 8);
      assert (f + t)[9..] == t;
    }
  }

  lemma StringFieldRead(acc: RpcMeta, tag: byte, str: seq<byte>, t: seq<byte>)
    requires ValidMeta(acc) && |str| < TWO_31 && tag in {SERVER_TAG, METHOD_TAG}
    ensures Parse(acc, StringField(tag, str) + t) ==
      Parse(Merge(acc, if tag == SERVER_TAG then EMPTY.(server := str) else EMPTY.(methodName := str)), t)
  {
    var f := StringField(tag, str);
    if str == [] {
      assert f + t == t;
    } else {
      var u := Varint(|str|) + str + t;
      assert f + t == [tag] + u;
      TagRead(tag, u);
      StringRead(str, t);
      assert (f + t)[1 + |Varint(|str|)| + |str|..] == t;
    }
  }

  lemma DataSizeFieldRead(acc: RpcMeta, x: int, t: seq<byte>)
    requires ValidMeta(acc) && -TWO_31 <= x < TWO_31
    ensures Parse(acc, DataSizeField(x) + t) == Parse(Merge(acc, EMPTY.(dataSize := x)), t)
  {
    var f := DataSizeField(x);
    if x == 0 {
      assert f + t == t;
    } else {
      var n := Int32Bits(x);
      var u := Varint(n) + t;
      assert f + t == [DATA_SIZE_TAG] + u;
      TagRead(DATA_SIZE_TAG, u);
      Pow128Values();
      VarintRoundTrip(n, 10, t);
      assert ParseField(acc, f + t) == Some((acc.(dataSize := x), 1 + |Varint(n)|));
      assert (f + t)[1 + |Varint(n)|..] == t;
    }
  }

  /** Parsing a serialized message in front of any input merges it and carries on behind it. */
  lemma SerializedMerges(acc: RpcMeta, m: RpcMeta, t: seq<byte>)
    requires ValidMeta(acc) && ValidMeta(m)
    ensures Parse(acc, Serialize(m) + t) == Parse(Merge(acc, m), t)
  {
    hide Parse, IdField, StringField, DataSizeField;
    var a, b, c, d := IdField(m.id), StringField(SERVER_TAG, m.server),
      StringField(METHOD_TAG, m.methodName), DataSizeField(m.dataSize);
    assert Serialize(m) + t == a + (b + (c + (d + t)));
    IdFieldRead(acc, m.id, b + (c + (d + t)));
    var acc1 := Merge(acc, EMPTY.(id := m.id));
    StringFieldRead(acc1, SERVER_TAG, m.server, c + (d + t));
    var acc2 := Merge(acc1, EMPTY.(server := m.server));
    StringFieldRead(acc2, METHOD_TAG, m.methodName, d + t);
    var acc3 := Merge(acc2, EMPTY.(methodName := m.methodName));
    DataSizeFieldRead(acc3, m.dataSize, t);
    assert Merge(acc3, EMPTY.(dataSize := m.dataSize)) == Merge(acc, m);
  }

  lemma RoundTrip(m: RpcMeta)
    requires ValidMeta(m)
    ensures Parse(EMPTY, Serialize(m)) == Parsed(true, m)
  {
    SerializedMerges(EMPTY, m, []);
    assert Serialize(m) + [] == Serialize(m);
  }

  /** Last one wins. */
  lemma ConcatenationMerges(a: RpcMeta, b: RpcMeta)
    requires ValidMeta(a) && ValidMeta(b)
    ensures Parse(EMPTY, Serialize(a) + Serialize(b)) == Parsed(true, Merge(a, b))
  {
    SerializedMerges(EMPTY, a, Serialize(b));
    SerializedMerges(a, b, []);
    assert Serialize(b) + [] == Serialize(b);
  }

  /** The same for arbitrary accepted input, canonical or not: parsing is a left fold over the bytes. */
  lemma {:induction false} ParseContinues(acc: RpcMeta, s: seq<byte>, t: seq<byte>)
    requires ValidMeta(acc) && Parse(acc, s).ok
    ensures Parse(acc, s + t) == Parse(Parse(acc, s).meta, t)
    decreases |s|
  {
    if s == [] {
      assert s + t == t;
    } else {
      var (acc', k) := ParseField(acc, s).value;
      FieldPrefix(acc, s, t);
      assert (s + t)[k..] == s[k..] + t;
      ParseContinues(acc', s[k..], t);
    }
  }

  lemma FieldPrefix(acc: RpcMeta, s: seq<byte>, t: seq<byte>)
    requires ValidMeta(acc) && ParseField(acc, s).Some?
    ensures ParseField(acc, s + t) == ParseField(acc, s)
  {
    hide ReadVarint, ParseString, FromLittleEndian;
    VarintPrefix(s, 5, t);
    var (tag32, k) := ReadVarint(s, 5).value;
    var tag, u := tag32 % TWO_32, s[k..];
    assert (s + t)[k..] == u + t;
    if tag == ID_TAG {
      assert (u + t)[..8] == u[..8];
    } else if tag == DATA_SIZE_TAG {
      VarintPrefix(u, 10, t);
    } else {
      StringPrefix(u, t);
    }
  }

  lemma StringPrefix(u: seq<byte>, t: seq<byte>)
    requires ParseString(u).Some?
    ensures ParseString(u + t) == ParseString(u)
  {
    VarintPrefix(u, 5, t);
    var (len, j) := ReadVarint(u, 5).value;
    assert (u + t)[j..j + len] == u[j..j + len];
  }

  // ---------- Sizes ----------

  /** StringSize and Int32Size of the wire format library. */
  function StringSize(s: seq<byte>): nat {
    VarintSize32(|s|) + |s|
  }

  function Int32Size(x: int): nat {
    if x < 0 then 10 else VarintSize32(x)
  }

  function ByteSize(m: RpcMeta): nat {
    (if |m.server| > 0 then 1 + StringSize(m.server) else 0)
      + (if |m.methodName| > 0 then 1 + StringSize(m.methodName) else 0)
      + (if m.id != 0 then 1 + 8 else 0)
      + (if m.dataSize != 0 then 1 + Int32Size(m.dataSize) else 0)
  }

  lemma SizeMatches(m: RpcMeta)
    requires ValidMeta(m)
    ensures |Serialize(m)| == ByteSize(m)
  {
    VarintLength(|m.server|);
    VarintLength(|m.methodName|);
    if m.dataSize < 0 {
      NegativeVarintLength(m.dataSize);
    } else {
      VarintLength(m.dataSize);
    }
  }
}
