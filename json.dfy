/** Decoded JSON values with Python's truthiness, a dict built by insertion,
    and the two ways the clients pull a string field out of a decoded reply. */
module Json {
  import opened Wrappers
  import opened PyStr

  /** A decoded JSON value (numbers are kept as integers). */
  datatype Value =
    | Null
    | Bool(b: bool)
    | Num(n: int)
    | Str(s: string)
    | List(items: seq<Value>)
    | Object(fields: map<string, Value>)

  /** Python truthiness of a decoded value. */
  predicate Truthy(v: Value) {
    match v
    case Null => false
    case Bool(b) => b
    case Num(n) => n != 0
    case Str(s) => s != ""
    case List(items) => |items| > 0
    case Object(fields) => |fields| > 0
  }

  /** How an HTTP call answered, as its caller sees it: an error status, a body
      that is not JSON, or a decoded JSON body. */
  datatype Reply = HttpFailure(status: int) | NotJson | Decoded(data: Value)

  /** A list of strings as a JSON array. */
  function StrList(items: seq<string>): (v: Value)
    ensures v.List? && |v.items| == |items|
    ensures forall i :: 0 <= i < |items| ==> v.items[i] == Str(items[i])
  {
    List(seq(|items|, i requires 0 <= i < |items| => Str(items[i])))
  }

  /** `data.get(key)` on a decoded object. */
  function Get(fields: map<string, Value>, key: string): Option<Value> {
    if key in fields then Some(fields[key]) else None
  }

  /** A Python dict as its (key, value) pairs in insertion order. */
  type Dict = seq<(string, Value)>

  function Keys(d: Dict): seq<string> {
    seq(|d|, i requires 0 <= i < |d| => d[i].0)
  }

  predicate DistinctKeys(d: Dict) {
    forall i, j :: 0 <= i < j < |d| ==> d[i].0 != d[j].0
  }

  /** `d.get(key)`: the value paired with the key's first occurrence. */
  function Lookup(d: Dict, key: string): (r: Option<Value>)
    ensures r.None? <==> key !in Keys(d)
    ensures forall i {:trigger d[i]} :: 0 <= i < |d| && d[i].0 == key && key !in Keys(d[..i]) ==> r == Some(d[i].1)
  {
    if d == [] then None
    else
      assert Keys(d) == [d[0].0] + Keys(d[1..]);
      if d[0].0 == key then
        KeysOfPrefix(d);
        Some(d[0].1)
      else
        KeysOfTail(d, key);
        Lookup(d[1..], key)
  }

  /** Every non-empty prefix holds the head's key. */
  lemma KeysOfPrefix(d: Dict)
    requires d != []
    ensures forall i :: 1 <= i <= |d| ==> d[0].0 in Keys(d[..i])
  {
    forall i | 1 <= i <= |d| ensures d[0].0 in Keys(d[..i]) {
      assert Keys(d[..i])[0] == d[0].0;
    }
  }

  /** A first occurrence of `key` after the head is a first occurrence in the tail. */
  lemma KeysOfTail(d: Dict, key: string)
    requires d != [] && d[0].0 != key
    ensures forall i :: 1 <= i < |d| && key !in Keys(d[..i]) ==> d[1..][i - 1] == d[i] && key !in Keys(d[1..][..i - 1])
  {
    forall i | 1 <= i < |d| && key !in Keys(d[..i]) ensures key !in Keys(d[1..][..i - 1]) {
      var t := d[1..][..i - 1];
      forall j | 0 <= j < |t| ensures Keys(t)[j] != key {
        assert Keys(t)[j] == Keys(d[..i])[j + 1];
      }
    }
  }

  /** `d[key] = v`: replaces the value of a present key in place, appends a new one. */
  function Put(d: Dict, key: string, v: Value): (r: Dict)
    ensures |r| == if key in Keys(d) then |d| else |d| + 1
  {
    if d == [] then [(key, v)]
    else
      assert Keys(d) == [d[0].0] + Keys(d[1..]);
      if d[0].0 == key then [(key, v)] + d[1..]
      else [d[0]] + Put(d[1..], key, v)
  }

  /** After `d[key] = v`, `key` reads `v` and every other key reads as before. */
  lemma {:induction false} PutLookup(d: Dict, key: string, v: Value, k: string)
    ensures Lookup(Put(d, key, v), k) == if k == key then Some(v) else Lookup(d, k)
  {
    if d != [] && d[0].0 != key {
      var r := Put(d, key, v);
      assert r[0] == d[0] && r[1..] == Put(d[1..], key, v);
      PutLookup(d[1..], key, v, k);
    }
  }

  /** The keys after `d[key] = v`: unchanged if present, `key` appended if new. */
  lemma {:induction false} PutKeys(d: Dict, key: string, v: Value)
    ensures Keys(Put(d, key, v)) == if key in Keys(d) then Keys(d) else Keys(d) + [key]
  {
    if d != [] {
      assert Keys(d) == [d[0].0] + Keys(d[1..]);
      var r := Put(d, key, v);
      if d[0].0 == key {
        assert Keys(r) == [key] + Keys(d[1..]);
      } else {
        assert r == [d[0]] + Put(d[1..], key, v);
        PutKeys(d[1..], key, v);
        assert Keys(r) == [d[0].0] + Keys(Put(d[1..], key, v));
      }
    }
  }

  /** Inserting a new key appends it, reads back its value and leaves every
      other key as it was. */
  lemma PutNew(d: Dict, key: string, v: Value)
    requires key !in Keys(d)
    ensures Keys(Put(d, key, v)) == Keys(d) + [key]
    ensures forall k :: Lookup(Put(d, key, v), k) == if k == key then Some(v) else Lookup(d, k)
  {
    PutKeys(d, key, v);
    forall k ensures Lookup(Put(d, key, v), k) == if k == key then Some(v) else Lookup(d, k) {
      PutLookup(d, key, v, k);
    }
  }

  /** `d[key] = v` keeps the keys distinct. */
  lemma PutKeepsDistinct(d: Dict, key: string, v: Value)
    requires DistinctKeys(d)
    ensures DistinctKeys(Put(d, key, v))
  {
    PutKeys(d, key, v);
    var r := Put(d, key, v);
    forall i, j | 0 <= i < j < |r| ensures r[i].0 != r[j].0 {
      assert r[i].0 == Keys(r)[i] && r[j].0 == Keys(r)[j];
      if j < |d| {
        assert Keys(d)[i] == d[i].0 && Keys(d)[j] == d[j].0;
      } else {
        assert Keys(d)[i] == d[i].0;
      }
    }
  }

  /** `(value or "").strip()` on a possibly absent value; `None` when Python
      raises because a truthy non-string has no `strip`. */
  function OrEmptyStripped(v: Option<Value>): (r: Option<string>)
    ensures r.None? <==> v.Some? && Truthy(v.value) && !v.value.Str?
    ensures r.Some? && r.value != "" ==> v.Some? && v.value.Str? && r.value == Strip(v.value.s)
    ensures v.Some? && v.value.Str? ==> r == Some(Strip(v.value.s))
  {
    if v.None? || !Truthy(v.value) then Some("")
    else if v.value.Str? then Some(Strip(v.value.s))
    else None
  }

  /** `.get(key, "").strip()`: an absent field reads as `""`, but a present
      non-string (including JSON null) has no `strip`, which Python reports by
      raising; that case is `None`. */
  function DefaultStripped(v: Option<Value>): (r: Option<string>)
    ensures r.None? <==> v.Some? && !v.value.Str?
    ensures v.Some? && v.value.Str? ==> r == Some(Strip(v.value.s))
    ensures v.None? ==> r == Some("")
  {
    if v.None? then Some("")
    else if v.value.Str? then Some(Strip(v.value.s))
    else None
  }
}
