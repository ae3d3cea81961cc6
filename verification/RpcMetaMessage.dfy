/** The generated RpcMeta message object: its parser, serializer and merge, field by field. */
module RpcMetaMessages {
  import opened Bytes
  import opened Options
  import opened RpcMetas

  /** t with s laid over it from position at on. */
  function Overlay(t: seq<byte>, at: nat, s: seq<byte>): seq<byte>
    requires at + |s| <= |t|
  {
    t[..at] + s + t[at + |s|..]
  }

  lemma OverlayTwice(t: seq<byte>, at: nat, s1: seq<byte>, s2: seq<byte>)
    requires at + |s1| + |s2| <= |t|
    ensures Overlay(Overlay(t, at, s1), at + |s1|, s2) == Overlay(t, at, s1 + s2)
  {
  }

  lemma OverlayOne(t: seq<byte>, at: nat, s: seq<byte>, b: byte)
    requires at + |s| < |t|
    ensures Overlay(t, at, s)[at + |s| := b] == Overlay(t, at, s + [b])
  {
  }

  lemma OverlayNone(t: seq<byte>, at: nat)
    requires at <= |t|
    ensures Overlay(t, at, []) == t
  {
  }

  lemma OverlayChain(t0: seq<byte>, t1: seq<byte>, t2: seq<byte>, t3: seq<byte>, t4: seq<byte>,
                     at: nat, m: RpcMeta)
    requires ValidMeta(m) && at + |Serialize(m)| <= |t0|
    requires t1 == Overlay(t0, at, IdField(m.id))
    requires var i := at + |IdField(m.id)|;
      t2 == Overlay(t1, i, StringField(SERVER_TAG, m.server))
    requires var i := at + |IdField(m.id)| + |StringField(SERVER_TAG, m.server)|;
      t3 == Overlay(t2, i, StringField(METHOD_TAG, m.methodName))
    requires var i := at + |IdField(m.id)| + |StringField(SERVER_TAG, m.server)|
                      + |StringField(METHOD_TAG, m.methodName)|;
      t4 == Overlay(t3, i, DataSizeField(m.dataSize))
    ensures t4 == Overlay(t0, at, Serialize(m))
  {
    hide IdField, StringField, DataSizeField;
    var a, b, c, d := IdField(m.id), StringField(SERVER_TAG, m.server),
      StringField(METHOD_TAG, m.methodName), DataSizeField(m.dataSize);
    OverlayTwice(t0, at, a, b);
    OverlayTwice(t0, at, a + b, c);
    OverlayTwice(t0, at, a + b + c, d);
  }

  /** A varint result seen from i bytes and value/weight accumulated earlier. */
  function Scaled(value: nat, weight: nat, i: nat, r: Option<(nat, nat)>): Option<(nat, nat)> {
    match r
    case None => None
    case Some((v, k)) => Some((value + weight * v, i + k))
  }

  lemma Distribute(weight: nat, b: nat, v: nat)
    ensures weight * b >= 0
    ensures weight * (b + 128 * v) == weight * b + weight * 128 * v
  {
    assert weight * (b + 128 * v) == weight * b + weight * (128 * v);
    assert weight * (128 * v) == weight * 128 * v;
  }

  lemma ScaledStep(value: nat, weight: nat, i: nat, s: seq<byte>, limit: nat)
    requires limit > 0 && s != [] && s[0] >= 128
    ensures weight * (s[0] - 128) >= 0
    ensures Scaled(value, weight, i, ReadVarint(s, limit))
         == Scaled(value + weight * (s[0] - 128), weight * 128, i + 1, ReadVarint(s[1..], limit - 1))
  {
    var r := ReadVarint(s[1..], limit - 1);
    var b: nat := s[0] - 128;
    var v := if r.Some? then r.value.0 else 0;
    assert ReadVarint(s, limit) == if r.Some? then Some((b + 128 * v, 1 + r.value.1)) else None;
    hide ReadVarint;
    Distribute(weight, b, v);
  }

  lemma ScaledEnd(value: nat, weight: nat, i: nat, s: seq<byte>, limit: nat)
    ensures limit == 0 || s == [] ==> Scaled(value, weight, i, ReadVarint(s, limit)) == None
    ensures limit > 0 && s != [] && s[0] < 128 ==>
      weight * (s[0] as int) >= 0
      && Scaled(value, weight, i, ReadVarint(s, limit)) == Some((value + weight * (s[0] as int), i + 1))
  {
  }

  lemma ScaledStart(r: Option<(nat, nat)>)
    ensures Scaled(0, 1, 0, r) == r
  {
  }

  class Message {
    var id: int
    var server: seq<byte>
    var methodName: seq<byte>
    var dataSize: int

    function View(): RpcMeta
      reads this
    {
      RpcMeta(id, server, methodName, dataSize)
    }

    ghost predicate Valid()
      reads this
    {
      ValidMeta(View())
    }

    constructor ()
      ensures Valid() && View() == EMPTY
    {
      id, server, methodName, dataSize := 0, [], [], 0;
    }

    method MergeFrom(from: Message)
      requires Valid() && from.Valid() && from != this
      modifies this
      ensures Valid() && View() == Merge(old(View()), from.View())
    {
      if |from.server| > 0 {
        server := from.server;
      }
      if |from.methodName| > 0 {
        methodName := from.methodName;
      }
      if from.id != 0 {
        id := from.id;
      }
      if from.dataSize != 0 {
        dataSize := from.dataSize;
      }
    }

    method ByteSizeLong() returns (total: nat)
      requires Valid()
      ensures total == |Serialize(View())|
    {
      total := 0;
      if |server| > 0 {
        total := total + 1 + StringSize(server);
      }
      if |methodName| > 0 {
        total := total + 1 + StringSize(methodName);
      }
      if id != 0 {
        total := total + 1 + 8;
      }
      if dataSize != 0 {
        total := total + 1 + Int32Size(dataSize);
      }
      SizeMatches(View());
    }

    /** Writes the message at the pointer and returns the advanced pointer. */
    method InternalSerialize(target: array<byte>, at: nat) returns (end: nat)
      requires Valid() && at + |Serialize(View())| <= target.Length
      modifies target
      ensures end == at + |Serialize(View())|
      ensures target[..] == Overlay(old(target[..]), at, Serialize(View()))
    {
      hide IdField, StringField, DataSizeField, Overlay;
      ghost var t0 := target[..];
      end := WriteId(target, at);
      ghost var t1 := target[..];
      end := WriteString(target, end, SERVER_TAG, server);
      ghost var t2 := target[..];
      end := WriteString(target, end, METHOD_TAG, methodName);
      ghost var t3 := target[..];
      end := WriteDataSize(target, end);
      OverlayChain(t0, t1, t2, t3, target[..], at, View());
    }

    method WriteId(target: array<byte>, at: nat) returns (end: nat)
      requires Valid() && at + |IdField(id)| <= target.Length
      modifies target
      ensures end == at + |IdField(id)| && target[..] == Overlay(old(target[..]), at, IdField(id))
    {
      end := at;
      if id != 0 {
        end := Write(target, end, [ID_TAG] + LittleEndian(id, 8));
      }
    }

    method WriteDataSize(target: array<byte>, at: nat) returns (end: nat)
      requires Valid() && at + |DataSizeField(dataSize)| <= target.Length
      modifies target
      ensures end == at + |DataSizeField(dataSize)|
      ensures target[..] == Overlay(old(target[..]), at, DataSizeField(dataSize))
    {
      ghost var t0 := target[..];
      end := at;
      if dataSize != 0 {
        end := Write(target, end, [DATA_SIZE_TAG]);
        end := WriteVarint(target, end, Int32Bits(dataSize));
        OverlayTwice(t0, at, [DATA_SIZE_TAG], Varint(Int32Bits(dataSize)));
      }
    }

    method WriteString(target: array<byte>, at: nat, tag: byte, s: seq<byte>) returns (end: nat)
      requires at + |StringField(tag, s)| <= target.Length
      modifies target
      ensures end == at + |StringField(tag, s)|
      ensures target[..] == Overlay(old(target[..]), at, StringField(tag, s))
    {
      hide Overlay, Varint;
      ghost var t0 := target[..];
      end := at;
      OverlayNone(t0, at);
      if |s| > 0 {
        end := Write(target, at, [tag]);
        end := WriteVarint(target, end, |s|);
        OverlayTwice(t0, at, [tag], Varint(|s|));
        end := Write(target, end, s);
        OverlayTwice(t0, at, [tag] + Varint(|s|), s);
      }
    }

    method WriteVarint(target: array<byte>, at: nat, n: nat) returns (end: nat)
      requires at + |Varint(n)| <= target.Length
      modifies target
      ensures end == at + |Varint(n)|
      ensures target[..] == Overlay(old(target[..]), at, Varint(n))
    {
      hide Overlay;
      ghost var t0: seq<byte>, done: seq<byte> := target[..], [];
      var value := n;
      end := at;
      OverlayNone(t0, at);
      while value >= 128
        invariant end == at + |done| && done + Varint(value) == Varint(n)
        invariant target[..] == Overlay(t0, at, done)
      {
        target[end] := value % 128 + 128;
        OverlayOne(t0, at, done, value % 128 + 128);
        Assoc(done, [value % 128 + 128], Varint(value / 128));
        done := done + [value % 128 + 128];
        value := value / 128;
        end := end + 1;
      }
      target[end] := value;
      OverlayOne(t0, at, done, value);
      end := end + 1;
    }

    method Write(target: array<byte>, at: nat, s: seq<byte>) returns (end: nat)
      requires at + |s| <= target.Length
      modifies target
      ensures end == at + |s| && target[..] == Overlay(old(target[..]), at, s)
    {
      hide Overlay;
      ghost var t0 := target[..];
      end := at;
      OverlayNone(t0, at);
      while end < at + |s|
        invariant at <= end <= at + |s|
        invariant target[..] == Overlay(t0, at, s[..end - at])
      {
        target[end] := s[end - at];
        OverlayOne(t0, at, s[..end - at], s[end - at]);
        assert s[..end - at] + [s[end - at]] == s[..end + 1 - at];
        end := end + 1;
      }
      assert s[..|s|] == s;
    }

    /** Clear, then parse; a failure leaves the fields that were read before it. */
    method ParseFromString(data: seq<byte>) returns (ok: bool)
      modifies this
      ensures Valid() && Parsed(ok, View()) == Parse(EMPTY, data)
    {
      id, server, methodName, dataSize := 0, [], [], 0;
      ok := InternalParse(data);
    }

    method InternalParse(data: seq<byte>) returns (ok: bool)
      requires Valid()
      modifies this
      ensures Valid() && Parsed(ok, View()) == Parse(old(View()), data)
    {
      hide ParseField;
      var ptr := 0;
      while ptr < |data|
        invariant 0 <= ptr <= |data| && Valid()
        invariant Parse(old(View()), data) == Parse(View(), data[ptr..])
      {
        var next := ParseFieldAt(data, ptr);
        if next.None? {
          return false;
        }
        assert data[ptr..][next.value - ptr..] == data[next.value..];
        ptr := next.value;
      }
      return true;
    }

    /** The switch over one tag; the advanced pointer, or nothing on failure. */
    method ParseFieldAt(data: seq<byte>, start: nat) returns (next: Option<nat>)
      requires Valid() && start < |data|
      modifies this
      ensures Valid() && (next.None? ==> View() == old(View()))
      ensures ParseField(old(View()), data[start..])
        == if next.None? then None else Some((View(), next.value - start))
    {
      hide ReadVarint, ParseString, FromLittleEndian;
      var tagRead := ReadVarintAt(data, start, 5);
      if tagRead.None? {
        return None;
      }
      var tag, ptr := tagRead.value.0 % TWO_32, tagRead.value.1;
      assert data[start..][ptr - start..] == data[ptr..];
      if tag == ID_TAG {
        if |data| - ptr < 8 {
          return None;
        }
        Pow256Values();
        assert data[ptr..][..8] == data[ptr..ptr + 8];
        id := FromLittleEndian(data[ptr..ptr + 8]);
        return Some(ptr + 8);
      } else if tag == SERVER_TAG || tag == METHOD_TAG {
        var str := ReadStringAt(data, ptr);
        if str.None? {
          return None;
        }
        if tag == SERVER_TAG {
          server := str.value.0;
        } else {
          methodName := str.value.0;
        }
        return Some(str.value.1);
      } else if tag == DATA_SIZE_TAG {
        var v := ReadVarintAt(data, ptr, 10);
        if v.None? {
          return None;
        }
        dataSize := ToInt32(v.value.0);
        return Some(v.value.1);
      } else {
        return None;
      }
    }

    /** The varint at the pointer and the advanced pointer. */
    method ReadVarintAt(data: seq<byte>, ptr: nat, limit: nat) returns (r: Option<(nat, nat)>)
      requires ptr <= |data|
      ensures r == match ReadVarint(data[ptr..], limit) case None => None case Some((v, k)) => Some((v, ptr + k))
    {
      hide ReadVarint, Scaled;
      ghost var result := ReadVarint(data[ptr..], limit);
      var value: nat, weight: nat, i: nat := 0, 1, 0;
      ScaledStart(result);
      while i < limit && ptr + i < |data|
        invariant i <= limit && ptr + i <= |data|
        invariant result == Scaled(value, weight, i, ReadVarint(data[ptr + i..], limit - i))
      {
        ghost var rest := data[ptr + i..];
        var b: int := data[ptr + i];
        assert rest[0] == b && rest[1..] == data[ptr + i + 1..];
        if b < 128 {
          ScaledEnd(value, weight, i, rest, limit - i);
          return Some((value + weight * b, ptr + i + 1));
        }
        ScaledStep(value, weight, i, rest, limit - i);
        value := value + weight * (b - 128);
        weight := weight * 128;
        i := i + 1;
      }
      ScaledEnd(value, weight, i, data[ptr + i..], limit - i);
      return None;
    }

    method ReadStringAt(data: seq<byte>, ptr: nat) returns (r: Option<(seq<byte>, nat)>)
      requires ptr <= |data|
      ensures r == match ParseString(data[ptr..]) case None => None case Some((s, k)) => Some((s, ptr + k))
    {
      var size := ReadVarintAt(data, ptr, 5);
      if size.None? {
        return None;
      }
      var (len, from) := size.value;
      if len >= TWO_31 || |data| - from < len {
        return None;
      }
      assert data[ptr..][from - ptr..from - ptr + len] == data[from..from + len];
      return Some((data[from..from + len], from + len));
    }
  }
}
