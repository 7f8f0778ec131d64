/** Bencoded values, their encoding, and the decoder with its cursor (parsing/Bnode.cpp). */
module Bnode {
  import opened Exceptions
  import opened Bytes
  import opened Numbers

  const INT: byte := 105    // i
  const LIST: byte := 108   // l
  const DICT: byte := 100   // d
  const END: byte := 101    // e
  const COLON: byte := 58   // :

  /** A dictionary is kept in key order, as std::map keeps it. */
  datatype Node = Int(v: int) | Str(s: Buffer) | List(items: seq<Node>) | Dict(entries: seq<Entry>)

  datatype Entry = Entry(key: Buffer, value: Node)

  // ---- Keys ----

  /** The order of std::string: bytewise, unsigned, a proper prefix first. */
  predicate Less(a: Buffer, b: Buffer) {
    b != [] && (a == [] || a[0] < b[0] || (a[0] == b[0] && Less(a[1..], b[1..])))
  }

  lemma {:induction false} LessIsStrictOrder(a: Buffer, b: Buffer, c: Buffer)
    ensures !Less(a, a)
    ensures Less(a, b) && Less(b, c) ==> Less(a, c)
    ensures a != b ==> Less(a, b) || Less(b, a)
    ensures !(Less(a, b) && Less(b, a))
  {
    if a == [] {
    } else {
      LessIsStrictOrder(a[1..], if b == [] then [] else b[1..], if c == [] then [] else c[1..]);
      assert a == [a[0]] + a[1..];
      assert b != [] ==> b == [b[0]] + b[1..];
    }
  }

  /** The two strings agree up to `k`, and there the first one ends or has the smaller byte. */
  ghost predicate LessAt(a: Buffer, b: Buffer, k: nat) {
    k <= |a| && k < |b| && a[..k] == b[..k] && (k == |a| || a[k] < b[k])
  }

  lemma {:induction false} LessMeans(a: Buffer, b: Buffer)
    ensures Less(a, b) <==> exists k: nat :: LessAt(a, b, k)
  {
    if a == [] || b == [] || a[0] != b[0] {
      if Less(a, b) { assert LessAt(a, b, 0); }
    } else {
      LessMeans(a[1..], b[1..]);
      if Less(a, b) {
        var k: nat :| LessAt(a[1..], b[1..], k);
        assert a[..k + 1] == [a[0]] + a[1..][..k] && b[..k + 1] == [b[0]] + b[1..][..k];
        assert LessAt(a, b, k + 1);
      }
      if k: nat :| LessAt(a, b, k) {
        assert a[1..][..k - 1] == a[..k][1..] && b[1..][..k - 1] == b[..k][1..];
        assert LessAt(a[1..], b[1..], k - 1);
      }
    }
  }

  predicate Ascending(entries: seq<Entry>) {
    |entries| >= 2 ==> Less(entries[0].key, entries[1].key) && Ascending(entries[1..])
  }

  predicate AllBelow(entries: seq<Entry>, key: Buffer) {
    entries == [] || (Less(entries[0].key, key) && AllBelow(entries[1..], key))
  }

  /** dict[key] = val: the value of a key that is there is replaced, a new key takes its place in the order. */
  function Insert(entries: seq<Entry>, key: Buffer, value: Node): seq<Entry> {
    if entries == [] then [Entry(key, value)]
    else if entries[0].key == key then [Entry(key, value)] + entries[1..]
    else if Less(key, entries[0].key) then [Entry(key, value)] + entries
    else [entries[0]] + Insert(entries[1..], key, value)
  }

  datatype Option<+T> = None | Some(value: T)

  function Lookup(entries: seq<Entry>, key: Buffer): Option<Node> {
    if entries == [] then None
    else if entries[0].key == key then Some(entries[0].value)
    else Lookup(entries[1..], key)
  }

  // ---- Encoding ----

  function EncodeStr(s: Buffer): (r: Buffer)
    ensures r != []
  {
    Digits(|s|) + [COLON] + s
  }

  function Encode(n: Node): (r: Buffer)
    ensures r != []
    decreases n, 1
  {
    match n
    case Int(v) => [INT] + ToText(v) + [END]
    case Str(s) => EncodeStr(s)
    case List(items) => [LIST] + EncodeItems(items) + [END]
    case Dict(entries) => [DICT] + EncodeEntries(entries) + [END]
  }

  function EncodeItems(items: seq<Node>): Buffer
    decreases items, 0
  {
    if items == [] then [] else Encode(items[0]) + EncodeItems(items[1..])
  }

  function EncodeEntries(entries: seq<Entry>): Buffer
    decreases entries, 0
  {
    if entries == [] then []
    else EncodeStr(entries[0].key) + Encode(entries[0].value) + EncodeEntries(entries[1..])
  }

  // ---- Decoding ----

  datatype Decoded = Decoded(node: Node, next: nat)

  /** The first place at or after `i` that holds `b`, or the end of the data. */
  function Find(data: Buffer, i: nat, b: byte): (k: nat)
    requires i <= |data|
    ensures i <= k <= |data| && (k < |data| ==> data[k] == b)
    decreases |data| - i
  {
    if i == |data| || data[i] == b then i else Find(data, i + 1, b)
  }

  function DecodeInt(data: Buffer, i: nat): (r: Result<Decoded>)
    requires i < |data|
    ensures r.Ok? ==> i < r.value.next <= |data|
  {
    var end := Find(data, i + 1, END);
    if end >= |data| then Throw(RuntimeError("Invalid Integer"))
    else
      match Stoll(data[i + 1..end])
      case Throw(f) => Throw(f)
      case Ok(v) => Ok(Decoded(Int(v), end + 1))
  }

  function DecodeStr(data: Buffer, i: nat): (r: Result<Decoded>)
    requires i < |data| && IsDigit(data[i])
    ensures r.Ok? ==> i < r.value.next <= |data| && r.value.node.Str?
  {
    var colon := Find(data, i, COLON);
    if colon >= |data| then Throw(RuntimeError("Invalid String length"))
    else
      match Stoll(data[i..colon])
      case Throw(f) => Throw(f)
      case Ok(len) =>
        var start := colon + 1;
        if start + len > |data| then Throw(RuntimeError("String length out of bounds"))
        else Ok(Decoded(Str(data[start..start + len]), start + len))
  }

  /** The element at the cursor, and the cursor after it. */
  function DecodeElement(data: Buffer, i: nat): (r: Result<Decoded>)
    requires i <= |data|
    ensures r.Ok? ==> i < r.value.next <= |data|
    decreases |data| - i, 0
  {
    if i >= |data| then Throw(RuntimeError("Unexpected end of buffer"))
    else if data[i] == INT then DecodeInt(data, i)
    else if data[i] == LIST then DecodeItems(data, i + 1, [])
    else if data[i] == DICT then DecodeEntries(data, i + 1, [])
    else if IsDigit(data[i]) then DecodeStr(data, i)
    else Throw(RuntimeError("Unknown Bencode type"))
  }

  /** The rest of a list, of which `items` were read. */
  function DecodeItems(data: Buffer, i: nat, items: seq<Node>): (r: Result<Decoded>)
    requires i <= |data|
    ensures r.Ok? ==> i < r.value.next <= |data|
    decreases |data| - i, 1
  {
    if i >= |data| then Throw(RuntimeError("Unclosed List"))
    else if data[i] == END then Ok(Decoded(List(items), i + 1))
    else
      match DecodeElement(data, i)
      case Throw(f) => Throw(f)
      case Ok(d) => DecodeItems(data, d.next, items + [d.node])
  }

  /** The dictionary after assigning the pairs one by one. */
  function Build(pairs: seq<Entry>): seq<Entry> {
    if pairs == [] then []
    else
      var last := pairs[|pairs| - 1];
      Insert(Build(pairs[..|pairs| - 1]), last.key, last.value)
  }

  /** The rest of a dictionary, of which `pairs` were read, in this order. */
  function DecodeEntries(data: Buffer, i: nat, pairs: seq<Entry>): (r: Result<Decoded>)
    requires i <= |data|
    ensures r.Ok? ==> i < r.value.next <= |data|
    decreases |data| - i, 1
  {
    if i >= |data| then Throw(RuntimeError("Unclosed Dictionary"))
    else if data[i] == END then Ok(Decoded(Dict(Build(pairs)), i + 1))
    else
      match DecodeElement(data, i)
      case Throw(f) => Throw(f)
      case Ok(k) =>
        if !k.node.Str? then Throw(RuntimeError("Dict key must be string"))
        else
          match DecodeElement(data, k.next)
          case Throw(f) => Throw(f)
          case Ok(d) => DecodeEntries(data, d.next, pairs + [Entry(k.node.s, d.node)])
  }

  /** Bytes after the first element are ignored. */
  function Decode(data: Buffer): Result<Node> {
    match DecodeElement(data, 0)
    case Throw(f) => Throw(f)
    case Ok(d) => Ok(d.node)
  }

  // ---- Well-formed nodes: what the C++ types can hold ----

  predicate WellFormed(n: Node)
    decreases n, 1
  {
    match n
    case Int(v) => Fits64(v)
    case Str(s) => |s| < I64
    case List(items) => WellFormedItems(items)
    case Dict(entries) => Ascending(entries) && WellFormedEntries(entries)
  }

  predicate WellFormedItems(items: seq<Node>)
    decreases items, 0
  {
    items == [] || (WellFormed(items[0]) && WellFormedItems(items[1..]))
  }

  predicate WellFormedEntries(entries: seq<Entry>)
    decreases entries, 0
  {
    entries == [] || (|entries[0].key| < I64 && WellFormed(entries[0].value) && WellFormedEntries(entries[1..]))
  }

  // ---- The dictionary behaves as a map ----

  lemma {:induction false} InsertIsMapUpdate(entries: seq<Entry>, key: Buffer, value: Node, other: Buffer)
    ensures Lookup(Insert(entries, key, value), other) == if other == key then Some(value) else Lookup(entries, other)
  {
    if entries == [] {
    } else {
      InsertIsMapUpdate(entries[1..], key, value, other);
    }
  }

  lemma {:induction false} InsertKeepsOrder(entries: seq<Entry>, key: Buffer, value: Node)
    requires Ascending(entries)
    ensures var r := Insert(entries, key, value);
            Ascending(r) && (r[0].key == key || (entries != [] && r[0].key == entries[0].key))
  {
    if entries == [] {
    } else {
      var first, rest := entries[0], entries[1..];
      LessIsStrictOrder(key, first.key, key);
      if first.key != key && !Less(key, first.key) {
        InsertKeepsOrder(rest, key, value);
        assert Insert(entries, key, value)[1..] == Insert(rest, key, value);
      } else if first.key != key {
        assert Insert(entries, key, value)[1..] == entries;
      } else {
        assert Insert(entries, key, value)[1..] == rest;
      }
    }
  }

  /** A key above all others goes to the end. */
  lemma {:induction false} InsertAtEnd(entries: seq<Entry>, key: Buffer, value: Node)
    requires AllBelow(entries, key)
    ensures Insert(entries, key, value) == entries + [Entry(key, value)]
  {
    if entries == [] {
    } else {
      LessIsStrictOrder(entries[0].key, key, entries[0].key);
      InsertAtEnd(entries[1..], key, value);
    }
  }

  lemma {:induction false} BelowExtends(entries: seq<Entry>, e: Entry, key: Buffer)
    requires AllBelow(entries, e.key) && Less(e.key, key)
    ensures AllBelow(entries + [e], key)
  {
    if entries == [] {
    } else {
      LessIsStrictOrder(entries[0].key, e.key, key);
      assert (entries + [e])[1..] == entries[1..] + [e];
      BelowExtends(entries[1..], e, key);
    }
  }

  lemma {:induction false} LastBelow(entries: seq<Entry>, n: nat)
    requires Ascending(entries) && n + 1 < |entries|
    ensures Less(entries[n].key, entries[n + 1].key)
  {
    if n == 0 {
    } else {
      LastBelow(entries[1..], n - 1);
    }
  }

  lemma {:induction false} AscendingSnoc(entries: seq<Entry>, e: Entry)
    requires Ascending(entries) && AllBelow(entries, e.key)
    ensures Ascending(entries + [e])
  {
    if entries == [] {
    } else {
      assert (entries + [e])[1..] == entries[1..] + [e];
      AscendingSnoc(entries[1..], e);
    }
  }

  lemma {:induction false} AscendingPrefix(entries: seq<Entry>, n: nat)
    requires Ascending(entries) && n < |entries|
    ensures Ascending(entries[..n]) && AllBelow(entries[..n], entries[n].key)
  {
    if n == 0 {
    } else {
      AscendingPrefix(entries, n - 1);
      LastBelow(entries, n - 1);
      assert entries[..n] == entries[..n - 1] + [entries[n - 1]];
      BelowExtends(entries[..n - 1], entries[n - 1], entries[n].key);
      AscendingSnoc(entries[..n - 1], entries[n - 1]);
    }
  }

  /** Pairs that come in ascending order are the dictionary. */
  lemma {:induction false} BuildAscending(entries: seq<Entry>)
    requires Ascending(entries)
    ensures Build(entries) == entries
  {
    if entries == [] {
    } else {
      var n := |entries| - 1;
      AscendingPrefix(entries, n);
      BuildAscending(entries[..n]);
      InsertAtEnd(entries[..n], entries[n].key, entries[n].value);
      assert entries[..n] + [entries[n]] == entries;
    }
  }

  /** In whatever order the pairs come, the dictionary is in key order. */
  lemma {:induction false} BuildIsAscending(pairs: seq<Entry>)
    ensures Ascending(Build(pairs))
  {
    if pairs == [] {
    } else {
      var n := |pairs| - 1;
      BuildIsAscending(pairs[..n]);
      InsertKeepsOrder(Build(pairs[..n]), pairs[n].key, pairs[n].value);
    }
  }

  /** A key holds the value of its last assignment. */
  lemma {:induction false} BuildKeepsLast(pairs: seq<Entry>, k: nat)
    requires k < |pairs| && forall l :: k < l < |pairs| ==> pairs[l].key != pairs[k].key
    ensures Lookup(Build(pairs), pairs[k].key) == Some(pairs[k].value)
  {
    var n := |pairs| - 1;
    InsertIsMapUpdate(Build(pairs[..n]), pairs[n].key, pairs[n].value, pairs[k].key);
    if k == n {
    } else {
      BuildKeepsLast(pairs[..n], k);
    }
  }
}
