/**
 * The tree both KeyValues parsers build: strings, 32- and 64-bit unsigned integers and
 * ordered maps.  A map is a sequence of (key, value) entries with Python `dict` behaviour:
 * assigning an existing key replaces its value where it stands, a new key goes at the end.
 */
module VdfValue {
  import opened Wrappers

  datatype Value = VStr(s: string) | VU32(n: nat) | VU64(n: nat) | VMap(entries: seq<(string, Value)>)

  type Entries = seq<(string, Value)>

  predicate HasKey(e: Entries, k: string) {
    exists i :: 0 <= i < |e| && e[i].0 == k
  }

  /** No key occurs twice. */
  predicate KeysUnique(e: Entries) {
    forall i, j :: 0 <= i < j < |e| ==> e[i].0 != e[j].0
  }

  /** `d.get(k)`: the value stored under `k`, if any. */
  function Get(e: Entries, k: string): Option<Value> {
    if e == [] then None
    else if e[0].0 == k then Some(e[0].1)
    else Get(e[1..], k)
  }

  /** `d.get(k)` finds a value exactly when `k` is a key, and that value is stored under `k`. */
  lemma {:induction false} GetSpec(e: Entries, k: string)
    ensures Get(e, k).Some? <==> HasKey(e, k)
    ensures Get(e, k).Some? ==> exists i :: 0 <= i < |e| && e[i] == (k, Get(e, k).value)
  {
    if e != [] && e[0].0 != k {
      GetSpec(e[1..], k);
      if HasKey(e, k) {
        var i :| 0 <= i < |e| && e[i].0 == k;
        assert e[1..][i - 1].0 == k;
      }
      if Get(e, k).Some? {
        var i :| 0 <= i < |e[1..]| && e[1..][i] == (k, Get(e, k).value);
        assert e[i + 1] == (k, Get(e, k).value);
      }
    } else if e != [] {
      assert e[0] == (k, Get(e, k).value);
    }
  }

  /** `d[k] = v`. */
  function Assign(e: Entries, k: string, v: Value): (r: Entries)
  {
    if e == [] then [(k, v)]
    else if e[0].0 == k then [(k, v)] + e[1..]
    else [e[0]] + Assign(e[1..], k, v)
  }

  /** Whatever the map held, `d[k] = v` makes `d.get(k)` return `v`. */
  lemma {:induction false} GetAssign(e: Entries, k: string, v: Value)
    ensures Get(Assign(e, k, v), k) == Some(v)
  {
    if e != [] && e[0].0 != k {
      GetAssign(e[1..], k, v);
    }
  }

  /** A new key is appended at the end. */
  lemma {:induction false} AssignNew(e: Entries, k: string, v: Value)
    requires !HasKey(e, k)
    ensures Assign(e, k, v) == e + [(k, v)]
  {
    if e != [] {
      AssignNew(e[1..], k, v);
      assert [e[0]] + (e[1..] + [(k, v)]) == e + [(k, v)];
    }
  }

  /**
   * An existing key keeps its position: with unique keys, only the entry at that position
   * changes, and the keys stay unique.
   */
  lemma {:induction false} AssignExisting(e: Entries, k: string, v: Value, i: nat)
    requires KeysUnique(e) && i < |e| && e[i].0 == k
    ensures Assign(e, k, v) == e[i := (k, v)]
  {
    if i == 0 {
      assert [(k, v)] + e[1..] == e[0 := (k, v)];
    } else {
      assert e[0].0 != k;
      AssignExisting(e[1..], k, v, i - 1);
      assert [e[0]] + e[1..][i - 1 := (k, v)] == e[i := (k, v)];
    }
  }

  /**
   * `d[k] = v` read back: `k` now maps to `v`, every other key to what it mapped to before,
   * keys stay unique, and the map grows by one entry exactly when `k` was new.
   */
  lemma AssignSpec(e: Entries, k: string, v: Value)
    requires KeysUnique(e)
    ensures Get(Assign(e, k, v), k) == Some(v)
    ensures forall k' :: k' != k ==> Get(Assign(e, k, v), k') == Get(e, k')
    ensures KeysUnique(Assign(e, k, v))
    ensures |Assign(e, k, v)| == if HasKey(e, k) then |e| else |e| + 1
  {
    var r := Assign(e, k, v);
    if HasKey(e, k) {
      var i :| 0 <= i < |e| && e[i].0 == k;
      AssignExisting(e, k, v, i);
      GetAt(r, i);
      forall k' | k' != k ensures Get(r, k') == Get(e, k') {
        GetFrame(e, r, k', i);
      }
    } else {
      AssignNew(e, k, v);
      GetAt(r, |e|);
      forall k' | k' != k ensures Get(r, k') == Get(e, k') {
        GetAppend(e, (k, v), k');
      }
    }
  }

  /** With unique keys, `Get` finds the entry at its position. */
  lemma {:induction false} GetAt(e: Entries, i: nat)
    requires KeysUnique(e) && i < |e|
    ensures Get(e, e[i].0) == Some(e[i].1)
  {
    if i > 0 {
      GetAt(e[1..], i - 1);
    }
  }

  lemma {:induction false} GetFrame(e: Entries, r: Entries, k': string, i: nat)
    requires i < |e| && |r| == |e| && e[i].0 != k' && r[i].0 != k'
    requires forall j :: 0 <= j < |e| && j != i ==> r[j] == e[j]
    ensures Get(r, k') == Get(e, k')
  {
    if e != [] && i > 0 {
      GetFrame(e[1..], r[1..], k', i - 1);
    } else if e != [] {
      assert e[1..] == r[1..];
    }
  }

  lemma {:induction false} GetAppend(e: Entries, x: (string, Value), k': string)
    requires x.0 != k'
    ensures Get(e + [x], k') == Get(e, k')
  {
    if e != [] {
      assert (e + [x])[1..] == e[1..] + [x];
      GetAppend(e[1..], x, k');
    }
  }

  /** Python truthiness: a non-empty string, a non-zero number, a non-empty map. */
  predicate Truthy(v: Value) {
    match v
    case VStr(s) => s != []
    case VU32(n) => n != 0
    case VU64(n) => n != 0
    case VMap(e) => e != []
  }

  /** Truthiness of `d.get(k)`, where an absent key gives Python's falsy `None`. */
  predicate TruthyGet(e: Entries, k: string) {
    Get(e, k).Some? && Truthy(Get(e, k).value)
  }

  /** Python's `a or b` for two lookups: the first when truthy, otherwise the second. */
  function OrGet(e: Entries, k1: string, k2: string): Option<Value> {
    if TruthyGet(e, k1) then Get(e, k1) else Get(e, k2)
  }

  /**
   * A well-formed tree: every map has unique keys (recursively), and each number fits its
   * width.
   */
  predicate WellFormed(v: Value) {
    match v
    case VStr(_) => true
    case VU32(n) => n < 0x1_0000_0000
    case VU64(n) => n < 0x1_0000_0000_0000_0000
    case VMap(e) => KeysUnique(e) && forall i :: 0 <= i < |e| ==> WellFormed(e[i].1)
  }

  predicate EntriesWellFormed(e: Entries) {
    WellFormed(VMap(e))
  }

  /** Assigning a well-formed value keeps a well-formed map well formed. */
  lemma AssignWellFormed(e: Entries, k: string, v: Value)
    requires EntriesWellFormed(e) && WellFormed(v)
    ensures EntriesWellFormed(Assign(e, k, v))
  {
    AssignSpec(e, k, v);
    var r := Assign(e, k, v);
    if HasKey(e, k) {
      var i :| 0 <= i < |e| && e[i].0 == k;
      AssignExisting(e, k, v, i);
      forall j | 0 <= j < |r| ensures WellFormed(r[j].1) {
        if j != i {
          assert r[j] == e[j];
        }
      }
    } else {
      AssignNew(e, k, v);
      forall j | 0 <= j < |r| ensures WellFormed(r[j].1) {
        if j < |e| {
          assert r[j] == e[j];
        }
      }
    }
  }
}
