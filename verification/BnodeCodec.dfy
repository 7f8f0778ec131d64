/** The decoder and the encoder as they run: a cursor that moves, lists and buffers that grow (parsing/Bnode.cpp). */
module BnodeCodec {
  import opened Exceptions
  import opened Bytes
  import opened Numbers
  import opened Bnode

  /** The text between the cursor's mark and the next `stop` byte. */
  method Scan(data: Buffer, start: nat, stop: byte) returns (end: nat)
    requires start <= |data|
    ensures end == Find(data, start, stop)
    ensures start <= end <= |data| && (end < |data| ==> data[end] == stop)
    ensures forall m :: start <= m < end ==> data[m] != stop
  {
    end := start;
    while end < |data| && data[end] != stop
      invariant start <= end <= |data| && Find(data, start, stop) == Find(data, end, stop)
      invariant forall m :: start <= m < end ==> data[m] != stop
    {
      end := end + 1;
    }
  }

  /** What a call of the decoder promises: the node and the cursor of the specification, or the same exception. */
  predicate Agrees(spec: Result<Decoded>, r: Result<Node>, next: nat) {
    match spec
    case Ok(d) => r == Ok(d.node) && next == d.next
    case Throw(f) => r == Throw(f)
  }

  method DecodeIntAt(data: Buffer, index: nat) returns (r: Result<Node>, next: nat)
    requires index < |data|
    ensures Agrees(DecodeInt(data, index), r, next)
  {
    hide Stoll;
    next := index + 1;
    var end := Scan(data, next, END);
    if end >= |data| { return Throw(RuntimeError("Invalid Integer")), next; }
    var number := Stoll(data[next..end]);
    next := end + 1;
    r := match number case Ok(v) => Ok(Int(v)) case Throw(f) => Throw(f);
  }

  method DecodeStrAt(data: Buffer, index: nat) returns (r: Result<Node>, next: nat)
    requires index < |data| && IsDigit(data[index])
    ensures Agrees(DecodeStr(data, index), r, next)
  {
    hide Stoll;
    next := index;
    var colon := Scan(data, index, COLON);
    if colon >= |data| { return Throw(RuntimeError("Invalid String length")), next; }
    var number := Stoll(data[index..colon]);
    if number.Throw? { return Throw(number.fault), next; }
    var len := number.value;
    var start := colon + 1;
    if start + len > |data| { return Throw(RuntimeError("String length out of bounds")), next; }
    r := Ok(Str(data[start..start + len]));
    next := start + len;
  }

  method DecodeElementAt(data: Buffer, index: nat) returns (r: Result<Node>, next: nat)
    requires index <= |data|
    ensures Agrees(DecodeElement(data, index), r, next)
    decreases |data| - index, 0
  {
    next := index;
    if index >= |data| { return Throw(RuntimeError("Unexpected end of buffer")), next; }
    var c := data[index];
    if c == INT {
      r, next := DecodeIntAt(data, index);
    } else if c == LIST {
      r, next := DecodeListAt(data, index + 1);
    } else if c == DICT {
      r, next := DecodeDictAt(data, index + 1);
    } else if IsDigit(c) {
      r, next := DecodeStrAt(data, index);
    } else {
      r := Throw(RuntimeError("Unknown Bencode type"));
    }
  }

  method Decode(data: Buffer) returns (r: Result<Node>)
    ensures r == Bnode.Decode(data)
  {
    var index := 0;
    r, index := DecodeElementAt(data, index);
  }

  method DecodeListAt(data: Buffer, index: nat) returns (r: Result<Node>, next: nat)
    requires index <= |data|
    ensures Agrees(DecodeItems(data, index, []), r, next)
    decreases |data| - index, 1
  {
    next := index;
    var list: seq<Node> := [];
    while next < |data| && data[next] != END
      invariant index <= next <= |data|
      invariant DecodeItems(data, index, []) == DecodeItems(data, next, list)
      decreases |data| - next
    {
      var item, after := DecodeElementAt(data, next);
      if item.Throw? { return item, after; }
      list, next := list + [item.value], after;
    }
    if next >= |data| { return Throw(RuntimeError("Unclosed List")), next; }
    next := next + 1;
    r := Ok(List(list));
  }

  method DecodeDictAt(data: Buffer, index: nat) returns (r: Result<Node>, next: nat)
    requires index <= |data|
    ensures Agrees(DecodeEntries(data, index, []), r, next)
    decreases |data| - index, 1
  {
    next := index;
    var dict: seq<Entry> := [];
    ghost var pairs: seq<Entry> := [];
    while next < |data| && data[next] != END
      invariant index <= next <= |data| && dict == Build(pairs)
      invariant DecodeEntries(data, index, []) == DecodeEntries(data, next, pairs)
      decreases |data| - next
    {
      var keyNode, mid := DecodeElementAt(data, next);
      if keyNode.Throw? { return keyNode, mid; }
      if !keyNode.value.Str? { return Throw(RuntimeError("Dict key must be string")), mid; }
      var key := keyNode.value.s;
      var val, after := DecodeElementAt(data, mid);
      if val.Throw? { return val, after; }
      dict := Insert(dict, key, val.value);
      ghost var more := pairs + [Entry(key, val.value)];
      assert more[..|more| - 1] == pairs;
      pairs, next := more, after;
    }
    if next >= |data| { return Throw(RuntimeError("Unclosed Dictionary")), next; }
    next := next + 1;
    r := Ok(Dict(dict));
  }

  method EncodeNode(node: Node) returns (out: Buffer)
    ensures out == Encode(node)
    decreases node, 1
  {
    match node
    case Int(v) =>
      out := [INT] + ToText(v) + [END];
    case Str(s) =>
      out := Digits(|s|) + [COLON] + s;
    case List(items) =>
      out := EncodeList(items);
    case Dict(entries) =>
      out := EncodeDict(entries);
  }

  method EncodeList(items: seq<Node>) returns (out: Buffer)
    ensures out == [LIST] + EncodeItems(items) + [END]
    decreases items, 0
  {
    hide Encode;
    out := [LIST];
    var k := 0;
    while k < |items|
      invariant k <= |items| && out + EncodeItems(items[k..]) == [LIST] + EncodeItems(items)
    {
      var sub := EncodeNode(items[k]);
      ghost var rest := EncodeItems(items[k + 1..]);
      assert items[k..][1..] == items[k + 1..];
      assert out + (sub + rest) == out + sub + rest;
      out := out + sub;
      k := k + 1;
    }
    out := out + [END];
  }

  method EncodeDict(entries: seq<Entry>) returns (out: Buffer)
    ensures out == [DICT] + EncodeEntries(entries) + [END]
    decreases entries, 0
  {
    hide Encode, Digits;
    out := [DICT];
    var k := 0;
    while k < |entries|
      invariant k <= |entries| && out + EncodeEntries(entries[k..]) == [DICT] + EncodeEntries(entries)
    {
      var key := Digits(|entries[k].key|) + [COLON] + entries[k].key;
      var sub := EncodeNode(entries[k].value);
      ghost var rest := EncodeEntries(entries[k + 1..]);
      assert entries[k..][1..] == entries[k + 1..];
      assert out + (key + sub + rest) == out + key + sub + rest;
      out := out + key;
      out := out + sub;
      k := k + 1;
    }
    out := out + [END];
  }
}
