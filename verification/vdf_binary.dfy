/**
 * The binary KeyValues parser, `VdfParser.parse_binary` (the format of `shortcuts.vdf`).
 *
 * A map is a run of records, each a tag byte, a NUL-terminated name and a value, closed by the
 * tag 0x08: tag 0x00 holds a nested map, 0x01 a NUL-terminated string, 0x02 a little-endian
 * 32-bit unsigned integer and 0x07 a little-endian 64-bit one.  Strings are read one character
 * per byte.
 *
 * `EntriesFrom` is the reading as a function of the cursor; `BinaryReader` is the source's
 * cursor-advancing reader, proved to follow it.
 */
module VdfBinary {
  import opened Wrappers
  import opened Bytes
  import opened VdfValue

  const TagMap: byte := 0
  const TagString: byte := 1
  const TagInt32: byte := 2
  const TagUInt64: byte := 7
  const TagEnd: byte := 8

  /** `data.find(b'\x00', p)`: the first NUL at or after `p`. */
  function FindNul(data: seq<byte>, p: nat): (r: Option<nat>)
    requires p <= |data|
    ensures r.Some? ==> p <= r.value < |data| && data[r.value] == 0
    ensures r.Some? ==> forall j :: p <= j < r.value ==> data[j] != 0
    ensures r.None? ==> forall j :: p <= j < |data| ==> data[j] != 0
    decreases |data| - p
  {
    if p == |data| then None
    else if data[p] == 0 then Some(p)
    else FindNul(data, p + 1)
  }

  /** `read_string` from `p`: the string and the position after its NUL, or None when it raises. */
  function StringAt(data: seq<byte>, p: nat): (r: Option<(string, nat)>)
    requires p <= |data|
    ensures r.Some? ==> p < r.value.1 <= |data|
  {
    match FindNul(data, p)
    case None => None
    case Some(end) => Some((Latin1(data[p..end]), end + 1))
  }

  /** The end of a map (its entries and the position after it), or the raise of `read_string`. */
  datatype MapRead = MapEnd(entries: Entries, next: nat) | Unterminated

  /**
   * The loop of `read_map` from `ptr`, with `acc` read so far.  Every record moves the cursor
   * forward, and so does the end tag.
   */
  function EntriesFrom(data: seq<byte>, ptr: nat, acc: Entries): (r: MapRead)
    requires ptr <= |data|
    ensures r.MapEnd? ==> ptr <= r.next <= |data|
    ensures r.MapEnd? && ptr < |data| ==> ptr < r.next
    decreases |data| - ptr, 0
  {
    if ptr == |data| then MapEnd(acc, ptr)
    else
      var t := data[ptr];
      if t == TagEnd then MapEnd(acc, ptr + 1)
      else
        match StringAt(data, ptr + 1)
        case None => Unterminated
        case Some((name, q)) => ValueFrom(data, t, name, q, acc)
  }

  /**
   * The rest of one iteration of `read_map`, once tag `t` and `name` are read and the cursor is
   * at `q`: read the value, store it under `name`, and go on; or stop the map.
   */
  function ValueFrom(data: seq<byte>, t: byte, name: string, q: nat, acc: Entries): (r: MapRead)
    requires q <= |data|
    ensures r.MapEnd? ==> q <= r.next <= |data|
    decreases |data| - q, 1
  {
    if t == TagMap then
      match EntriesFrom(data, q, [])
      case Unterminated => Unterminated
      case MapEnd(child, q') => EntriesFrom(data, q', Assign(acc, name, VMap(child)))
    else if t == TagString then
      match StringAt(data, q)
      case None => Unterminated
      case Some((s, q')) => EntriesFrom(data, q', Assign(acc, name, VStr(s)))
    else if t == TagInt32 then
      if q + 4 > |data| then MapEnd(acc, q)
      else EntriesFrom(data, q + 4, Assign(acc, name, VU32(LittleEndian(data[q..q + 4]))))
    else if t == TagUInt64 then
      if q + 8 > |data| then MapEnd(acc, q)
      else EntriesFrom(data, q + 8, Assign(acc, name, VU64(LittleEndian(data[q..q + 8]))))
    else MapEnd(acc, q)
  }

  /**
   * How the map being read ends when the loop of `read_map` goes on from `ptr` with `acc` read.
   * The proofs below chain their steps through this name rather than the recursive one.
   */
  function ReadOn(data: seq<byte>, ptr: nat, acc: Entries): MapRead
    requires ptr <= |data|
  {
    EntriesFrom(data, ptr, acc)
  }

  /** `read_map` called with the cursor at `ptr`. */
  function MapAt(data: seq<byte>, ptr: nat): MapRead
    requires ptr <= |data|
  {
    EntriesFrom(data, ptr, [])
  }

  /** What `parse_binary(data)` returns: the map read from offset 0, or `{}` if reading raised. */
  function BinaryParsed(data: seq<byte>): Entries {
    match MapAt(data, 0)
    case Unterminated => []
    case MapEnd(e, _) => e
  }

  /** The reader of `parse_binary`: the buffer and the shared cursor `ptr`. */
  class BinaryReader {
    const data: seq<byte>
    var ptr: nat

    predicate Valid()
      reads this
    {
      ptr <= |data|
    }

    constructor (data: seq<byte>)
      ensures this.data == data && ptr == 0 && Valid()
    {
      this.data := data;
      ptr := 0;
    }

    /** `read_string`: None when no NUL follows (the source raises), the cursor then unchanged. */
    method ReadString() returns (s: Option<string>)
      requires Valid()
      modifies this
      ensures Valid()
      ensures s.None? <==> StringAt(data, old(ptr)).None?
      ensures s.Some? ==> s.value == StringAt(data, old(ptr)).value.0 && ptr == StringAt(data, old(ptr)).value.1
      ensures s.None? ==> ptr == old(ptr)
    {
      var end := FindNul(data, ptr);
      if end.None? {
        return None;
      }
      s := Some(Latin1(data[ptr..end.value]));
      ptr := end.value + 1;
    }

    /** `read_map`: the entries up to the end tag or the end of the data, or None if it raises. */
    method ReadMap() returns (r: Option<Entries>)
      requires Valid()
      modifies this
      ensures Valid()
      ensures r.None? <==> MapAt(data, old(ptr)).Unterminated?
      ensures r.Some? ==> r.value == MapAt(data, old(ptr)).entries && ptr == MapAt(data, old(ptr)).next
      decreases |data| - ptr, 1
    {
      ghost var start := ptr;
      var res: Entries := [];
      while ptr < |data|
        invariant start <= ptr <= |data|
        invariant EntriesFrom(data, ptr, res) == MapAt(data, start)
        decreases |data| - ptr
      {
        var t := data[ptr];
        ptr := ptr + 1;
        if t == TagEnd {
          return Some(res);
        }
        var name := ReadString();
        if name.None? {
          return None;
        }
        var next, more := ReadValue(t, name.value, res);
        if next.None? {
          return None;
        }
        if !more {
          return next;
        }
        res := next.value;
      }
      return Some(res);
    }

    /**
     * The value part of one record of `read_map`, tag `t` and `name` read: the entries with the
     * value stored, and whether the loop goes on; None if reading raises.
     */
    method ReadValue(t: byte, name: string, acc: Entries) returns (r: Option<Entries>, more: bool)
      requires Valid()
      modifies this
      ensures Valid() && (r.Some? ==> old(ptr) <= ptr)
      ensures r.None? ==> !more && ValueFrom(data, t, name, old(ptr), acc).Unterminated?
      ensures r.Some? && !more ==> ValueFrom(data, t, name, old(ptr), acc) == MapEnd(r.value, ptr)
      ensures more ==> r.Some? && ValueFrom(data, t, name, old(ptr), acc) == EntriesFrom(data, ptr, r.value)
      decreases |data| - ptr, 2
    {
      if t == TagMap {
        var child := ReadMap();
        if child.None? {
          return None, false;
        }
        return Some(Assign(acc, name, VMap(child.value))), true;
      } else if t == TagString {
        var s := ReadString();
        if s.None? {
          return None, false;
        }
        return Some(Assign(acc, name, VStr(s.value))), true;
      } else if t == TagInt32 {
        if ptr + 4 > |data| {
          return Some(acc), false;
        }
        var v := LittleEndian(data[ptr..ptr + 4]);
        ptr := ptr + 4;
        return Some(Assign(acc, name, VU32(v))), true;
      } else if t == TagUInt64 {
        if ptr + 8 > |data| {
          return Some(acc), false;
        }
        var v := LittleEndian(data[ptr..ptr + 8]);
        ptr := ptr + 8;
        return Some(Assign(acc, name, VU64(v))), true;
      } else {
        return Some(acc), false;
      }
    }
  }

  /** `VdfParser.parse_binary`. */
  method ParseBinary(data: seq<byte>) returns (root: Entries)
    ensures root == BinaryParsed(data)
  {
    var reader := new BinaryReader(data);
    var m := reader.ReadMap();
    root := if m.None? then [] else m.value;
  }

  // ---------------------------------------------------------------------------------------
  // What the binary parser builds

  /**
   * Every tree the binary parser returns is well formed: keys unique in every map, 32-bit values
   * below 2^32 and 64-bit values below 2^64.
   */
  lemma {:induction false} EntriesFromWellFormed(data: seq<byte>, ptr: nat, acc: Entries)
    requires ptr <= |data| && EntriesWellFormed(acc)
    ensures EntriesFrom(data, ptr, acc).MapEnd? ==> EntriesWellFormed(EntriesFrom(data, ptr, acc).entries)
    decreases |data| - ptr
  {
    if ptr < |data| && data[ptr] != TagEnd && StringAt(data, ptr + 1).Some? {
      var t := data[ptr];
      var (name, q) := StringAt(data, ptr + 1).value;
      if t == TagMap {
        EntriesFromWellFormed(data, q, []);
        if EntriesFrom(data, q, []).MapEnd? {
          var child := EntriesFrom(data, q, []);
          AssignWellFormed(acc, name, VMap(child.entries));
          EntriesFromWellFormed(data, child.next, Assign(acc, name, VMap(child.entries)));
        }
      } else if t == TagString {
        if StringAt(data, q).Some? {
          var (str, q') := StringAt(data, q).value;
          AssignWellFormed(acc, name, VStr(str));
          EntriesFromWellFormed(data, q', Assign(acc, name, VStr(str)));
        }
      } else if t == TagInt32 && q + 4 <= |data| {
        Pow256Values();
        AssignWellFormed(acc, name, VU32(LittleEndian(data[q..q + 4])));
        EntriesFromWellFormed(data, q + 4, Assign(acc, name, VU32(LittleEndian(data[q..q + 4]))));
      } else if t == TagUInt64 && q + 8 <= |data| {
        Pow256Values();
        AssignWellFormed(acc, name, VU64(LittleEndian(data[q..q + 8])));
        EntriesFromWellFormed(data, q + 8, Assign(acc, name, VU64(LittleEndian(data[q..q + 8]))));
      }
    }
  }

  lemma BinaryParsedWellFormed(data: seq<byte>)
    ensures EntriesWellFormed(BinaryParsed(data))
  {
    EntriesFromWellFormed(data, 0, []);
  }

  // ---------------------------------------------------------------------------------------
  // Encoding: the records the parser reads back

  /** A name or string the format can carry: one byte per character and no NUL. */
  predicate Plain(s: string) {
    IsLatin1(s) && forall i :: 0 <= i < |s| ==> s[i] != '\0'
  }

  /** A tree the format can carry: plain names and strings, unique keys, numbers in range. */
  predicate Encodable(v: Value) {
    match v
    case VStr(s) => Plain(s)
    case VU32(n) => n < 0x1_0000_0000
    case VU64(n) => n < 0x1_0000_0000_0000_0000
    case VMap(e) => KeysUnique(e) && forall i :: 0 <= i < |e| ==> Plain(e[i].0) && Encodable(e[i].1)
  }

  function Tag(v: Value): byte {
    match v
    case VMap(_) => TagMap
    case VStr(_) => TagString
    case VU32(_) => TagInt32
    case VU64(_) => TagUInt64
  }

  function PlainBytes(s: string): (bs: seq<byte>)
    requires Plain(s)
    ensures |bs| == |s| && Latin1(bs) == s
    ensures forall i :: 0 <= i < |bs| ==> bs[i] != 0
  {
    Latin1Bytes(s)
  }

  /** One record: tag, NUL-terminated name, value. */
  function EncodeRecord(name: string, x: Value): seq<byte>
    requires Plain(name) && Encodable(x)
    decreases x, if x.VMap? then |x.entries| + 2 else 1
  {
    [Tag(x)] + PlainBytes(name) + [0] + EncodeValue(x)
  }

  function EncodeValue(v: Value): seq<byte>
    requires Encodable(v)
    decreases v, if v.VMap? then |v.entries| + 1 else 0
  {
    match v
    case VStr(s) => PlainBytes(s) + [0]
    case VU32(n) => LittleEndianBytes(n, 4)
    case VU64(n) => LittleEndianBytes(n, 8)
    case VMap(_) => EncodeEntries(v, 0) + [TagEnd]
  }

  /** The records of the entries of map `v` from index `i` on, without the end tag. */
  function EncodeEntries(v: Value, i: nat): seq<byte>
    requires v.VMap? && Encodable(v) && i <= |v.entries|
    decreases v, |v.entries| - i
  {
    if i == |v.entries| then []
    else EncodeRecord(v.entries[i].0, v.entries[i].1) + EncodeEntries(v, i + 1)
  }

  // ---------------------------------------------------------------------------------------
  // Reading encoded records back

  lemma {:induction false} FindNulAt(data: seq<byte>, p: nat, end: nat)
    requires p <= end < |data| && data[end] == 0
    requires forall j :: p <= j < end ==> data[j] != 0
    ensures FindNul(data, p) == Some(end)
    decreases end - p
  {
    if p < end {
      FindNulAt(data, p + 1, end);
    }
  }

  /** `data` holds `a` then `b` at `ptr`. */
  lemma Split(data: seq<byte>, ptr: nat, a: seq<byte>, b: seq<byte>)
    requires ptr + |a + b| <= |data| && data[ptr..ptr + |a + b|] == a + b
    ensures data[ptr..ptr + |a|] == a
    ensures data[ptr + |a|..ptr + |a| + |b|] == b
  {
    assert data[ptr..ptr + |a|] == data[ptr..ptr + |a + b|][..|a|];
    assert data[ptr + |a|..ptr + |a| + |b|] == data[ptr..ptr + |a + b|][|a|..];
  }

  lemma StringAtEncoded(data: seq<byte>, p: nat, s: string)
    requires Plain(s)
    requires p + |s| + 1 <= |data| && data[p..p + |s| + 1] == PlainBytes(s) + [0]
    ensures StringAt(data, p) == Some((s, p + |s| + 1))
  {
    var nb := PlainBytes(s);
    Split(data, p, nb, [0]);
    forall j | p <= j < p + |s| ensures data[j] != 0 {
      assert data[j] == data[p..p + |s|][j - p];
    }
    assert data[p + |s|] == data[p + |s|..p + |s| + 1][0];
    FindNulAt(data, p, p + |s|);
  }

  /** A record's tag, its name read back, and its value's bytes where the value starts, at `q`. */
  lemma RecordHeader(data: seq<byte>, ptr: nat, name: string, x: Value) returns (q: nat)
    requires Plain(name) && Encodable(x)
    requires ptr + |EncodeRecord(name, x)| <= |data|
    requires data[ptr..ptr + |EncodeRecord(name, x)|] == EncodeRecord(name, x)
    ensures q == ptr + |name| + 2 && q + |EncodeValue(x)| == ptr + |EncodeRecord(name, x)|
    ensures ptr < |data| && data[ptr] == Tag(x)
    ensures StringAt(data, ptr + 1) == Some((name, q))
    ensures data[q..q + |EncodeValue(x)|] == EncodeValue(x)
  {
    q := ptr + |name| + 2;
    RecordLayout(data, ptr, name, x);
    StringAtEncoded(data, ptr + 1, name);
  }

  /** Where the parts of a record sit. */
  lemma RecordLayout(data: seq<byte>, ptr: nat, name: string, x: Value)
    requires Plain(name) && Encodable(x)
    requires ptr + |EncodeRecord(name, x)| <= |data|
    requires data[ptr..ptr + |EncodeRecord(name, x)|] == EncodeRecord(name, x)
    ensures |EncodeRecord(name, x)| == |name| + 2 + |EncodeValue(x)|
    ensures data[ptr] == Tag(x)
    ensures data[ptr + 1..ptr + 1 + |name| + 1] == PlainBytes(name) + [0]
    ensures data[ptr + |name| + 2..ptr + |name| + 2 + |EncodeValue(x)|] == EncodeValue(x)
  {
    var nb := PlainBytes(name);
    var xv := EncodeValue(x);
    assert EncodeRecord(name, x) == [Tag(x)] + (nb + [0]) + xv;
    Split(data, ptr, [Tag(x)] + (nb + [0]), xv);
    Split(data, ptr, [Tag(x)], nb + [0]);
    assert data[ptr] == data[ptr..ptr + 1][0];
  }

  /** Reading one encoded record assigns its value under its name and moves past it. */
  lemma {:induction false} RecordStep(data: seq<byte>, ptr: nat, acc: Entries, name: string, x: Value)
    requires Plain(name) && Encodable(x)
    requires ptr + |EncodeRecord(name, x)| <= |data|
    requires data[ptr..ptr + |EncodeRecord(name, x)|] == EncodeRecord(name, x)
    ensures ReadOn(data, ptr, acc) == ReadOn(data, ptr + |EncodeRecord(name, x)|, Assign(acc, name, x))
    decreases x, if x.VMap? then |x.entries| + 2 else 1
  {
    var q := RecordHeader(data, ptr, name, x);
    ValueStep(data, ptr, q, acc, name, x);
  }

  /**
   * Once a record's tag and name are read, the cursor at `q`, reading its encoded value stores
   * the value under the name and moves past it.
   */
  lemma {:induction false} ValueStep(data: seq<byte>, ptr: nat, q: nat, acc: Entries, name: string, x: Value)
    requires Encodable(x)
    requires ptr < |data| && data[ptr] == Tag(x) && StringAt(data, ptr + 1) == Some((name, q))
    requires q + |EncodeValue(x)| <= |data| && data[q..q + |EncodeValue(x)|] == EncodeValue(x)
    ensures ReadOn(data, ptr, acc) == ReadOn(data, q + |EncodeValue(x)|, Assign(acc, name, x))
    decreases x, if x.VMap? then |x.entries| + 1 else 0
  {
    if x.VMap? {
      var next := NestedMapRead(data, q, x);
      assert ReadOn(data, ptr, acc) == ValueFrom(data, TagMap, name, q, acc);
    } else {
      LeafStep(data, ptr, q, acc, name, x);
    }
  }

  /** A nested map's records and end tag at `q` read back to its entries, ending after the tag. */
  lemma {:induction false} NestedMapRead(data: seq<byte>, q: nat, x: Value) returns (next: nat)
    requires x.VMap? && Encodable(x)
    requires q + |EncodeValue(x)| <= |data| && data[q..q + |EncodeValue(x)|] == EncodeValue(x)
    ensures next == q + |EncodeValue(x)|
    ensures ReadOn(data, q, []) == MapEnd(x.entries, next)
    decreases x, |x.entries| + 1, 0
  {
    var inner := EncodeEntries(x, 0);
    next := q + |inner| + 1;
    Split(data, q, inner, [TagEnd]);
    BytesAtSlice(data, q, inner);
    var end := ReadEncoded(x, 0, data, q);
    assert x.entries[..0] == [];
    assert data[q + |inner|] == data[q + |inner|..q + |inner| + 1][0];
  }

  /** `ValueStep` for a string or a number. */
  lemma LeafStep(data: seq<byte>, ptr: nat, q: nat, acc: Entries, name: string, x: Value)
    requires Encodable(x) && !x.VMap?
    requires ptr < |data| && data[ptr] == Tag(x) && StringAt(data, ptr + 1) == Some((name, q))
    requires q + |EncodeValue(x)| <= |data| && data[q..q + |EncodeValue(x)|] == EncodeValue(x)
    ensures ReadOn(data, ptr, acc) == ReadOn(data, q + |EncodeValue(x)|, Assign(acc, name, x))
  {
    if x.VStr? {
      StringAtEncoded(data, q, x.s);
      assert ReadOn(data, ptr, acc) == ValueFrom(data, TagString, name, q, acc);
    } else {
      NumberStep(data, ptr, q, acc, name, x);
    }
  }

  /** `ValueStep` for a 32- or 64-bit number. */
  lemma NumberStep(data: seq<byte>, ptr: nat, q: nat, acc: Entries, name: string, x: Value)
    requires Encodable(x) && (x.VU32? || x.VU64?)
    requires ptr < |data| && data[ptr] == Tag(x) && StringAt(data, ptr + 1) == Some((name, q))
    requires q + |EncodeValue(x)| <= |data| && data[q..q + |EncodeValue(x)|] == EncodeValue(x)
    ensures ReadOn(data, ptr, acc) == ReadOn(data, q + |EncodeValue(x)|, Assign(acc, name, x))
  {
    Pow256Values();
    if x.VU32? {
      Int32Step(data, ptr, q, acc, name, x.n);
    } else {
      UInt64Step(data, ptr, q, acc, name, x.n);
    }
  }

  /** A 32-bit value: four bytes, least significant first. */
  lemma Int32Step(data: seq<byte>, ptr: nat, q: nat, acc: Entries, name: string, n: nat)
    requires n < Pow256(4)
    requires ptr < |data| && data[ptr] == TagInt32 && StringAt(data, ptr + 1) == Some((name, q))
    requires q + 4 <= |data| && data[q..q + 4] == LittleEndianBytes(n, 4)
    ensures ReadOn(data, ptr, acc) == ReadOn(data, q + 4, Assign(acc, name, VU32(n)))
  {
    LittleEndianRoundTrip(n, 4);
    assert ReadOn(data, ptr, acc) == ValueFrom(data, TagInt32, name, q, acc);
  }

  /** A 64-bit value: eight bytes, least significant first. */
  lemma UInt64Step(data: seq<byte>, ptr: nat, q: nat, acc: Entries, name: string, n: nat)
    requires n < Pow256(8)
    requires ptr < |data| && data[ptr] == TagUInt64 && StringAt(data, ptr + 1) == Some((name, q))
    requires q + 8 <= |data| && data[q..q + 8] == LittleEndianBytes(n, 8)
    ensures ReadOn(data, ptr, acc) == ReadOn(data, q + 8, Assign(acc, name, VU64(n)))
  {
    LittleEndianRoundTrip(n, 8);
    assert ReadOn(data, ptr, acc) == ValueFrom(data, TagUInt64, name, q, acc);
  }

  /** `bs` sits in `data` at `ptr`, byte by byte. */
  predicate BytesAt(data: seq<byte>, ptr: nat, bs: seq<byte>) {
    ptr + |bs| <= |data| && forall j {:trigger bs[j]} :: 0 <= j < |bs| ==> data[ptr + j] == bs[j]
  }

  lemma BytesAtSlice(data: seq<byte>, ptr: nat, bs: seq<byte>)
    requires ptr + |bs| <= |data|
    ensures BytesAt(data, ptr, bs) <==> data[ptr..ptr + |bs|] == bs
  {
    if data[ptr..ptr + |bs|] == bs {
      forall j | 0 <= j < |bs| ensures data[ptr + j] == bs[j] {
        assert data[ptr + j] == data[ptr..ptr + |bs|][j];
      }
    }
  }

  /**
   * Reading the encoded entries `i..` of map `v` after its entries `..i` leaves the cursor after
   * them with all the entries of `v`, in order.
   */
  lemma {:induction false} ReadEncoded(v: Value, i: nat, data: seq<byte>, ptr: nat) returns (end: nat)
    requires v.VMap? && Encodable(v) && i <= |v.entries|
    requires BytesAt(data, ptr, EncodeEntries(v, i))
    ensures end == ptr + |EncodeEntries(v, i)|
    ensures end <= |data| && ReadOn(data, ptr, v.entries[..i]) == ReadOn(data, end, v.entries)
    decreases v, |v.entries| - i, 1
  {
    if i == |v.entries| {
      end := ptr;
      assert v.entries[..i] == v.entries;
      assert EncodeEntries(v, i) == [];
    } else {
      var n := RecordAtFront(v, i, data, ptr);
      AppendedRecord(data, ptr, v.entries, i, n);
      end := ReadEncoded(v, i + 1, data, ptr + n);
    }
  }

  /** The record of entry `i`, `n` bytes long, comes first; the records after it follow it. */
  lemma RecordAtFront(v: Value, i: nat, data: seq<byte>, ptr: nat) returns (n: nat)
    requires v.VMap? && Encodable(v) && i < |v.entries|
    requires BytesAt(data, ptr, EncodeEntries(v, i))
    ensures n == |EncodeRecord(v.entries[i].0, v.entries[i].1)|
    ensures |EncodeEntries(v, i)| == n + |EncodeEntries(v, i + 1)|
    ensures BytesAt(data, ptr, EncodeRecord(v.entries[i].0, v.entries[i].1))
    ensures BytesAt(data, ptr + n, EncodeEntries(v, i + 1))
  {
    var rec, rest := EncodeRecord(v.entries[i].0, v.entries[i].1), EncodeEntries(v, i + 1);
    n := |rec|;
    BytesAtSlice(data, ptr, EncodeEntries(v, i));
    Split(data, ptr, rec, rest);
    BytesAtSlice(data, ptr, rec);
    BytesAtSlice(data, ptr + n, rest);
  }

  /** Reading the record of entry `i` after the entries before it gives the entries up to `i`. */
  lemma AppendedRecord(data: seq<byte>, ptr: nat, e: Entries, i: nat, n: nat)
    requires KeysUnique(e) && i < |e| && Plain(e[i].0) && Encodable(e[i].1)
    requires n == |EncodeRecord(e[i].0, e[i].1)| && BytesAt(data, ptr, EncodeRecord(e[i].0, e[i].1))
    ensures ReadOn(data, ptr, e[..i]) == ReadOn(data, ptr + n, e[..i + 1])
    decreases e[i].1, if e[i].1.VMap? then |e[i].1.entries| + 3 else 2
  {
    BytesAtSlice(data, ptr, EncodeRecord(e[i].0, e[i].1));
    RecordStep(data, ptr, e[..i], e[i].0, e[i].1);
    NewKeyAppended(e, i);
  }

  /** With unique keys, storing entry `i` after the entries before it appends it. */
  lemma NewKeyAppended(e: Entries, i: nat)
    requires KeysUnique(e) && i < |e|
    ensures Assign(e[..i], e[i].0, e[i].1) == e[..i + 1]
  {
    assert !HasKey(e[..i], e[i].0);
    AssignNew(e[..i], e[i].0, e[i].1);
    assert e[..i] + [e[i]] == e[..i + 1];
  }

  /**
   * Round trip: the records of a map the format can carry, followed by the end tag, parse back
   * to exactly its entries in order, whatever follows them.
   */
  lemma BinaryRoundTrip(e: Entries, rest: seq<byte>)
    requires Encodable(VMap(e))
    ensures BinaryParsed(EncodeValue(VMap(e)) + rest) == e
  {
    var body := EncodeEntries(VMap(e), 0);
    var data := body + ([TagEnd] + rest);
    assert EncodeValue(VMap(e)) + rest == data;
    PrefixAt(body, [TagEnd] + rest);
    ReadAll(e, data);
    assert data[|body|] == TagEnd;
  }

  /** The encoded records of `e` (no end tag) at the start of `data`, read as one run. */
  lemma ReadPrefix(e: Entries, tail: seq<byte>) returns (body: seq<byte>)
    requires Encodable(VMap(e))
    ensures body == EncodeEntries(VMap(e), 0)
    ensures EntriesFrom(body + tail, 0, []) == EntriesFrom(body + tail, |body|, e)
  {
    body := EncodeEntries(VMap(e), 0);
    PrefixAt(body, tail);
    ReadAll(e, body + tail);
  }

  /** The encoded records of `e` at the start of `data` read back to `e`, ending after them. */
  lemma ReadAll(e: Entries, data: seq<byte>)
    requires Encodable(VMap(e)) && BytesAt(data, 0, EncodeEntries(VMap(e), 0))
    ensures EntriesFrom(data, 0, []) == EntriesFrom(data, |EncodeEntries(VMap(e), 0)|, e)
  {
    var end := ReadEncoded(VMap(e), 0, data, 0);
    assert e[..0] == [];
  }

  lemma PrefixAt(body: seq<byte>, tail: seq<byte>)
    ensures BytesAt(body + tail, 0, body)
  {
  }

  predicate KnownTag(t: byte) {
    t == TagMap || t == TagString || t == TagInt32 || t == TagUInt64 || t == TagEnd
  }

  /**
   * An unknown tag stops the map once its name is read: the entries before it are kept and
   * nothing after it is read.
   */
  lemma UnknownTagStops(e: Entries, t: byte, name: string, rest: seq<byte>)
    requires Encodable(VMap(e)) && Plain(name) && !KnownTag(t)
    ensures BinaryParsed(EncodeEntries(VMap(e), 0) + ([t] + PlainBytes(name) + [0] + rest)) == e
  {
    var tail := [t] + PlainBytes(name) + [0] + rest;
    var body := ReadPrefix(e, tail);
    StoppingRecord(body, e, t, name, rest);
  }

  /**
   * A 32- or 64-bit record whose value is cut short stops the map after its name: the entries
   * before it are kept.
   */
  lemma ShortNumberStops(e: Entries, t: byte, name: string, short: seq<byte>)
    requires Encodable(VMap(e)) && Plain(name)
    requires (t == TagInt32 && |short| < 4) || (t == TagUInt64 && |short| < 8)
    ensures BinaryParsed(EncodeEntries(VMap(e), 0) + ([t] + PlainBytes(name) + [0] + short)) == e
  {
    var tail := [t] + PlainBytes(name) + [0] + short;
    var body := ReadPrefix(e, tail);
    StoppingRecord(body, e, t, name, short);
  }

  /** A record the loop stops at, after `pre`: the map ends with the entries read so far. */
  lemma StoppingRecord(pre: seq<byte>, e: Entries, t: byte, name: string, rest: seq<byte>)
    requires Plain(name)
    requires !KnownTag(t) || (t == TagInt32 && |rest| < 4) || (t == TagUInt64 && |rest| < 8)
    ensures EntriesFrom(pre + ([t] + PlainBytes(name) + [0] + rest), |pre|, e) ==
      MapEnd(e, |pre| + |name| + 2)
  {
    var data := pre + ([t] + PlainBytes(name) + [0] + rest);
    var p := |pre|;
    assert data[p] == t;
    assert data[p + 1..p + 1 + |name| + 1] == PlainBytes(name) + [0];
    StringAtEncoded(data, p + 1, name);
    assert |data| == p + |name| + 2 + |rest|;
  }

  /** No NUL among `bs`. */
  predicate NulFree(bs: seq<byte>) {
    forall i :: 0 <= i < |bs| ==> bs[i] != 0
  }

  /** Each level: the entries of an open map read so far, and the name of the map outer in it. */
  predicate LevelsEncodable(levels: seq<(Entries, string)>) {
    forall l :: 0 <= l < |levels| ==> Encodable(VMap(levels[l].0)) && Plain(levels[l].1)
  }

  /**
   * Maps outer one inside another: at each level the records of the entries read so far, then
   * the tag and name of the nested map the next level reads.
   */
  function OpenedMaps(levels: seq<(Entries, string)>): seq<byte>
    requires LevelsEncodable(levels)
  {
    if levels == [] then []
    else EncodeEntries(VMap(levels[0].0), 0) + ([TagMap] + PlainBytes(levels[0].1) + [0]) + OpenedMaps(levels[1..])
  }

  /**
   * A name with no NUL after it makes `read_string` raise, at any depth of nested maps, and the
   * whole parse then returns `{}`: the entries already read, at every level, are lost.
   */
  lemma MissingNulLosesAll(levels: seq<(Entries, string)>, e: Entries, t: byte, junk: seq<byte>)
    requires LevelsEncodable(levels) && Encodable(VMap(e)) && t != TagEnd && NulFree(junk)
    ensures BinaryParsed(OpenedMaps(levels) + EncodeEntries(VMap(e), 0) + ([t] + junk)) == []
  {
    var outer, body := OpenedMaps(levels), EncodeEntries(VMap(e), 0);
    var data := outer + body + ([t] + junk);
    Layout(outer + body, [t], junk);
    TagRaises(data, |outer| + |body|, e);
    Parts(outer, body, [t] + junk);
    RaisesAfter(data, levels, e);
  }

  /**
   * A string value with no NUL after it makes `read_string` raise, at any depth of nested maps,
   * and the whole parse then returns `{}`.
   */
  lemma MissingStringNulLosesAll(levels: seq<(Entries, string)>, e: Entries, name: string, junk: seq<byte>)
    requires LevelsEncodable(levels) && Encodable(VMap(e)) && Plain(name) && NulFree(junk)
    ensures BinaryParsed(OpenedMaps(levels) + EncodeEntries(VMap(e), 0) + ([TagString] + PlainBytes(name) + [0] + junk)) == []
  {
    var outer, body := OpenedMaps(levels), EncodeEntries(VMap(e), 0);
    var head := [TagString] + PlainBytes(name) + [0];
    var data := outer + body + (head + junk);
    Layout(outer + body, head, junk);
    StringValueRaises(data, |outer| + |body|, name, e);
    Parts(outer, body, head + junk);
    RaisesAfter(data, levels, e);
  }

  /** The first two of three parts laid end to end, at their offsets. */
  lemma Parts(a: seq<byte>, b: seq<byte>, c: seq<byte>)
    ensures BytesAt(a + b + c, 0, a) && BytesAt(a + b + c, |a|, b)
  {
    var data := a + b + c;
    forall k | 0 <= k < |a| ensures data[k] == a[k] {
    }
    forall k | 0 <= k < |b| ensures data[|a| + k] == b[k] {
    }
  }

  /** A record tag with no NUL anywhere after it: reading the record's name raises. */
  lemma TagRaises(data: seq<byte>, c: nat, acc: Entries)
    requires c < |data| && data[c] != TagEnd && NulFree(data[c + 1..])
    ensures ReadOn(data, c, acc) == Unterminated
  {
    forall j | c + 1 <= j < |data| ensures data[j] != 0 {
      assert data[c + 1..][j - c - 1] == data[j];
    }
  }

  /** A string record whose value has no NUL after it: reading the value raises. */
  lemma StringValueRaises(data: seq<byte>, c: nat, name: string, acc: Entries)
    requires Plain(name) && BytesAt(data, c, [TagString] + PlainBytes(name) + [0])
    requires NulFree(data[c + |name| + 2..])
    ensures ReadOn(data, c, acc) == Unterminated
  {
    var q := MapHeaderOf(data, c, TagString, name);
    forall j | q <= j < |data| ensures data[j] != 0 {
      assert data[q..][j - q] == data[j];
    }
    assert ReadOn(data, c, acc) == ValueFrom(data, TagString, name, q, acc);
  }

  /** The layout of `a + (h + j)`: `h` at offset `|a|`, then `j` to the end. */
  lemma Layout(a: seq<byte>, h: seq<byte>, j: seq<byte>)
    ensures BytesAt(a + (h + j), |a|, h) && (a + (h + j))[|a| + |h|..] == j
  {
    var data := a + (h + j);
    forall k | 0 <= k < |h| ensures data[|a| + k] == h[k] {
    }
  }

  /** The open maps, then the records of `e`, then a record whose reading raises. */
  lemma RaisesAfter(data: seq<byte>, levels: seq<(Entries, string)>, e: Entries)
    requires LevelsEncodable(levels) && Encodable(VMap(e))
    requires BytesAt(data, 0, OpenedMaps(levels)) && BytesAt(data, |OpenedMaps(levels)|, EncodeEntries(VMap(e), 0))
    requires ReadOn(data, |OpenedMaps(levels)| + |EncodeEntries(VMap(e), 0)|, e) == Unterminated
    ensures BinaryParsed(data) == []
  {
    RecordsThenRaise(data, |OpenedMaps(levels)|, e);
    OpenedRaises(data, 0, levels);
    ParsedOfRaise(data);
  }

  /** A raise while reading the top-level map makes the whole parse `{}`. */
  lemma ParsedOfRaise(data: seq<byte>)
    requires ReadOn(data, 0, []) == Unterminated
    ensures BinaryParsed(data) == []
  {
  }

  /** The records of `e` at `ptr`, then a raise: reading the map from `ptr` raises. */
  lemma RecordsThenRaise(data: seq<byte>, ptr: nat, e: Entries)
    requires Encodable(VMap(e)) && BytesAt(data, ptr, EncodeEntries(VMap(e), 0))
    requires ReadOn(data, ptr + |EncodeEntries(VMap(e), 0)|, e) == Unterminated
    ensures ReadOn(data, ptr, []) == Unterminated
  {
    var end := ReadEncoded(VMap(e), 0, data, ptr);
    assert e[..0] == [];
  }

  /**
   * When the innermost map's reading raises, so does the reading of every map around it: a
   * nested map that raises makes its parent raise.
   */
  lemma {:induction false} OpenedRaises(data: seq<byte>, ptr: nat, levels: seq<(Entries, string)>)
    requires LevelsEncodable(levels) && BytesAt(data, ptr, OpenedMaps(levels))
    requires ReadOn(data, ptr + |OpenedMaps(levels)|, []) == Unterminated
    ensures ReadOn(data, ptr, []) == Unterminated
    decreases levels
  {
    if levels != [] {
      var end, q := OpenedHead(data, ptr, levels);
      OpenedRaises(data, q, levels[1..]);
      LevelRaises(data, ptr, end, q, levels[0].0, levels[0].1);
    }
  }

  /** One open level at `ptr`: when the map nested after its records raises, so does the level. */
  lemma LevelRaises(data: seq<byte>, ptr: nat, end: nat, q: nat, e: Entries, name: string)
    requires Encodable(VMap(e)) && BytesAt(data, ptr, EncodeEntries(VMap(e), 0))
    requires end == ptr + |EncodeEntries(VMap(e), 0)|
    requires end < |data| && data[end] == TagMap && StringAt(data, end + 1) == Some((name, q))
    requires ReadOn(data, q, []) == Unterminated
    ensures ReadOn(data, ptr, []) == Unterminated
  {
    NestedRaises(data, end, name, q, e);
    RecordsThenRaise(data, ptr, e);
  }

  /** The first open level at `ptr`: its records, then the header of the map nested in it. */
  lemma OpenedHead(data: seq<byte>, ptr: nat, levels: seq<(Entries, string)>) returns (end: nat, q: nat)
    requires levels != [] && LevelsEncodable(levels) && BytesAt(data, ptr, OpenedMaps(levels))
    ensures var e, name := levels[0].0, levels[0].1;
      && Encodable(VMap(e)) && LevelsEncodable(levels[1..])
      && end == ptr + |EncodeEntries(VMap(e), 0)| && BytesAt(data, ptr, EncodeEntries(VMap(e), 0))
      && end < |data| && data[end] == TagMap && StringAt(data, end + 1) == Some((name, q))
      && BytesAt(data, q, OpenedMaps(levels[1..]))
      && q + |OpenedMaps(levels[1..])| == ptr + |OpenedMaps(levels)|
  {
    var e, name := levels[0].0, levels[0].1;
    var body := EncodeEntries(VMap(e), 0);
    var head := [TagMap] + PlainBytes(name) + [0];
    var rest := OpenedMaps(levels[1..]);
    assert OpenedMaps(levels) == body + (head + rest);
    BytesAtAppend(data, ptr, body, head + rest);
    end := ptr + |body|;
    BytesAtAppend(data, end, head, rest);
    q := MapHeaderOf(data, end, TagMap, name);
  }

  /** The tag `t` and the name of a record at `p`: its value starts at `q`. */
  lemma MapHeaderOf(data: seq<byte>, p: nat, t: byte, name: string) returns (q: nat)
    requires Plain(name) && BytesAt(data, p, [t] + PlainBytes(name) + [0])
    ensures q == p + |name| + 2
    ensures p < |data| && data[p] == t && StringAt(data, p + 1) == Some((name, q))
  {
    var head := [t] + PlainBytes(name) + [0];
    q := p + |name| + 2;
    BytesAtSlice(data, p, head);
    assert data[p] == head[0];
    assert data[p + 1..p + 1 + |name| + 1] == head[1..];
    StringAtEncoded(data, p + 1, name);
  }

  /** A nested map whose reading raises makes the map holding it raise. */
  lemma NestedRaises(data: seq<byte>, p: nat, name: string, q: nat, acc: Entries)
    requires p < |data| && data[p] == TagMap && StringAt(data, p + 1) == Some((name, q))
    requires ReadOn(data, q, []) == Unterminated
    ensures ReadOn(data, p, acc) == Unterminated
  {
    assert ReadOn(data, p, acc) == ValueFrom(data, TagMap, name, q, acc);
  }

  lemma BytesAtAppend(data: seq<byte>, ptr: nat, a: seq<byte>, b: seq<byte>)
    requires BytesAt(data, ptr, a + b)
    ensures BytesAt(data, ptr, a) && BytesAt(data, ptr + |a|, b)
  {
    forall j | 0 <= j < |a| ensures data[ptr + j] == a[j] {
      assert a[j] == (a + b)[j];
    }
    forall j | 0 <= j < |b| ensures data[ptr + |a| + j] == b[j] {
      assert b[j] == (a + b)[|a| + j];
    }
  }
}
