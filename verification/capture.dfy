/** The capture object of the fluent front-end and `store_capture`.

    A capture object is a JavaScript object whose properties hold captured
    text or nested capture objects, plus a `meta` property recording, per key,
    where each capture came from. Here the ordinary properties are a map and
    `meta` is kept apart as an optional map, so `Object.keys(capture_object)`
    is the map's keys together with `meta` when it exists. */
module Capture {
  import opened TextScan

  /** What a property holds: captured text, or the capture object of a
      nested capture group. */
  datatype CapValue = Text(s: string) | Obj(o: CaptureObject)

  /** `captureItem_interface`: the location of a capture, its name (empty
      when absent), its text (empty when absent) and the nested object, if
      any. */
  datatype CaptureItem = CaptureItem(bx: int, lx: int, name: string, text: string, obj: Option<CaptureObject>)

  datatype CaptureObject = CaptureObject(entries: map<string, CapValue>, meta: Option<map<string, CaptureItem>>)

  const EmptyObject := CaptureObject(map[], None)

  /** `Object.keys(capture_object).length` */
  function KeyCount(c: CaptureObject): nat
  {
    |c.entries| + (if c.meta.Some? then 1 else 0)
  }

  /** The value `store_capture` writes: the item's text when it is non-empty,
      otherwise its nested object, otherwise the empty string. */
  function ValueOf(item: CaptureItem): (v: CapValue)
    ensures item.text != "" ==> v == Text(item.text)
    ensures item.text == "" && item.obj.Some? ==> v == Obj(item.obj.value)
    ensures item.text == "" && item.obj.None? ==> v == Text("")
  {
    if item.text != "" then Text(item.text)
    else if item.obj.Some? then Obj(item.obj.value)
    else Text("")
  }

  function DigitChar(d: nat): char
    requires d < 10
  {
    "0123456789"[d]
  }

  /** The decimal text of `n`: JavaScript's property key for the index `n`. */
  function NatToString(n: nat): (r: string)
    ensures |r| >= 1
    ensures forall k :: 0 <= k < |r| ==> '0' <= r[k] <= '9'
    decreases n
  {
    if n < 10 then [DigitChar(n)] else NatToString(n / 10) + [DigitChar(n % 10)]
  }

  /** The number a string of decimal digits spells. */
  function ParseNat(s: string): (n: nat)
    decreases |s|
  {
    if |s| == 0 then 0
    else
      var d := s[|s| - 1] as int - '0' as int;
      ParseNat(s[..|s| - 1]) * 10 + (if 0 <= d < 10 then d else 0)
  }

  /** Reading back the key written for an index gives the index. */
  lemma {:induction false} ParseNatToString(n: nat)
    ensures ParseNat(NatToString(n)) == n
    decreases n
  {
    var s := NatToString(n);
    if n < 10 {
      assert s[..|s| - 1] == [];
    } else {
      ParseNatToString(n / 10);
      assert s[..|s| - 1] == NatToString(n / 10);
      assert s[|s| - 1] == DigitChar(n % 10);
    }
  }

  /** Distinct indexes get distinct keys. */
  lemma NatToStringInjective(i: nat, j: nat)
    requires i != j
    ensures NatToString(i) != NatToString(j)
  {
    ParseNatToString(i);
    ParseNatToString(j);
  }

  /** `store_capture(item, toArray)`: makes sure `meta` exists, then either
      writes the value under the next numeric key, which is the current key
      count with `meta` included, or writes it under the item's name; an
      unnamed item outside array mode writes nothing. The same key in `meta`
      records the item. */
  function StoreCapture(c: CaptureObject, item: CaptureItem, toArray: bool): (r: CaptureObject)
    ensures r.meta.Some?
    ensures c.meta.Some? ==> forall k :: k in c.meta.value ==> k in r.meta.value
    ensures toArray ==> StoredUnder(c, r, NatToString(|c.entries| + 1), item)
    ensures !toArray && item.name != "" ==> StoredUnder(c, r, item.name, item)
    ensures !toArray && item.name == "" ==>
              r.entries == c.entries && r.meta == Some(if c.meta.Some? then c.meta.value else map[])
  {
    if toArray then Put(c, NatToString(|c.entries| + 1), item)
    else if item.name != "" then Put(c, item.name, item)
    else c.(meta := Some(if c.meta.Some? then c.meta.value else map[]))
  }

  /** `r` is `c` with the value of `item` written under `key`, the item
      recorded under the same key in `meta`, and every other property kept. */
  predicate StoredUnder(c: CaptureObject, r: CaptureObject, key: string, item: CaptureItem)
  {
    && r.meta.Some?
    && key in r.entries && r.entries[key] == ValueOf(item)
    && key in r.meta.value && r.meta.value[key] == item
    && r.entries.Keys == c.entries.Keys + {key}
    && (forall k :: k in c.entries && k != key ==> r.entries[k] == c.entries[k])
    && r.meta.value.Keys == (if c.meta.Some? then c.meta.value.Keys else {}) + {key}
    && (forall k :: c.meta.Some? && k in c.meta.value && k != key ==> r.meta.value[k] == c.meta.value[k])
  }

  /** One property assignment of `store_capture`, with `meta` created first
      when missing. */
  function Put(c: CaptureObject, key: string, item: CaptureItem): (r: CaptureObject)
    ensures StoredUnder(c, r, key, item)
    ensures c.meta.Some? ==> forall k :: k in c.meta.value ==> k in r.meta.value
  {
    var meta := if c.meta.Some? then c.meta.value else map[];
    CaptureObject(c.entries[key := ValueOf(item)], Some(meta[key := item]))
  }

  /** Array-mode stores of `items`, in order, into `c`. */
  function StoreAll(c: CaptureObject, items: seq<CaptureItem>): (r: CaptureObject)
    decreases |items|
  {
    if |items| == 0 then c
    else StoreCapture(StoreAll(c, items[..|items| - 1]), items[|items| - 1], true)
  }

  /** The keys "1" .. "n". */
  function IndexKeys(n: nat): (r: set<string>)
    decreases n
  {
    if n == 0 then {} else IndexKeys(n - 1) + {NatToString(n)}
  }

  lemma {:induction false} IndexKeysSpelled(n: nat, key: string)
    requires key in IndexKeys(n)
    ensures exists i :: 1 <= i <= n && key == NatToString(i)
    decreases n
  {
    if key != NatToString(n) {
      IndexKeysSpelled(n - 1, key);
    }
  }

  lemma {:induction false} IndexKeysSize(n: nat)
    ensures |IndexKeys(n)| == n
    decreases n
  {
    if n > 0 {
      IndexKeysSize(n - 1);
      if NatToString(n) in IndexKeys(n - 1) {
        IndexKeysSpelled(n - 1, NatToString(n));
        var i :| 1 <= i <= n - 1 && NatToString(n) == NatToString(i);
        NatToStringInjective(i, n);
      }
    }
  }

  /** Array captures into a fresh object are numbered from 1, not 0: the
      first store creates `meta`, which already counts as a key. The i-th
      item lands under the key "i", and nothing else is written. */
  lemma {:induction false} ArrayCapturesNumberFromOne(items: seq<CaptureItem>)
    ensures var r := StoreAll(EmptyObject, items);
            && r.entries.Keys == IndexKeys(|items|)
            && |r.entries| == |items|
            && forall i :: 1 <= i <= |items| ==>
                 NatToString(i) in r.entries && r.entries[NatToString(i)] == ValueOf(items[i - 1])
    decreases |items|
  {
    var r := StoreAll(EmptyObject, items);
    IndexKeysSize(|items|);
    if |items| > 0 {
      var n := |items|;
      var prefix := items[..n - 1];
      ArrayCapturesNumberFromOne(prefix);
      var q := StoreAll(EmptyObject, prefix);
      assert |q.entries| == n - 1;
      forall i | 1 <= i <= n
        ensures NatToString(i) in r.entries && r.entries[NatToString(i)] == ValueOf(items[i - 1])
      {
        if i < n {
          NatToStringInjective(i, n);
          assert prefix[i - 1] == items[i - 1];
        }
      }
    }
  }
}
