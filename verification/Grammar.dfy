/** Which bytes spell which value, written down byte by byte, and that the decoder reads exactly these. */
module Grammar {
  import opened Exceptions
  import opened Bytes
  import opened Numbers
  import opened Bnode
  import opened BnodeLaws

  /** How a value is written in a file: the text of its numbers and lengths, its strings, and the order of its pairs. */
  datatype Source =
    | Number(text: Buffer)
    | Text(len: Buffer, s: Buffer)
    | Sequence(items: seq<Source>)
    | Table(pairs: seq<Pair>)

  datatype Pair = Pair(len: Buffer, key: Buffer, value: Source)

  /** i...e, length:bytes, l...e and d...e */
  function Spelled(src: Source): (b: Buffer)
    decreases src, 1
  {
    match src
    case Number(text) => [105] + text + [101]
    case Text(len, s) => len + [58] + s
    case Sequence(items) => [108] + SpelledItems(items) + [101]
    case Table(pairs) => [100] + SpelledPairs(pairs) + [101]
  }

  function SpelledItems(items: seq<Source>): Buffer
    decreases items, 0
  {
    if items == [] then [] else Spelled(items[0]) + SpelledItems(items[1..])
  }

  function SpelledPairs(pairs: seq<Pair>): Buffer
    decreases pairs, 0
  {
    if pairs == [] then []
    else (pairs[0].len + [58] + pairs[0].key) + Spelled(pairs[0].value) + SpelledPairs(pairs[1..])
  }

  /** A length starts with a digit, has no colon in it, and reads as the number of bytes that follow the colon. */
  predicate IsLength(len: Buffer, n: nat) {
    len != [] && 48 <= len[0] <= 57 && 58 !in len && Stoll(len) == Ok(n as int)
  }

  predicate Proper(src: Source)
    decreases src, 1
  {
    match src
    case Number(text) => 101 !in text && Stoll(text).Ok?
    case Text(len, s) => IsLength(len, |s|)
    case Sequence(items) => ProperItems(items)
    case Table(pairs) => ProperPairs(pairs)
  }

  predicate ProperItems(items: seq<Source>)
    decreases items, 0
  {
    items == [] || (Proper(items[0]) && ProperItems(items[1..]))
  }

  predicate ProperPairs(pairs: seq<Pair>)
    decreases pairs, 0
  {
    pairs == [] || (IsLength(pairs[0].len, |pairs[0].key|) && Proper(pairs[0].value) && ProperPairs(pairs[1..]))
  }

  /** A dictionary is what assigning its pairs one by one makes. */
  function Meaning(src: Source): Node
    requires Proper(src)
    decreases src, 1
  {
    match src
    case Number(text) => Int(Stoll(text).value)
    case Text(_, s) => Str(s)
    case Sequence(items) => List(MeaningItems(items))
    case Table(pairs) => Dict(Build(MeaningPairs(pairs)))
  }

  function MeaningItems(items: seq<Source>): seq<Node>
    requires ProperItems(items)
    decreases items, 0
  {
    if items == [] then [] else [Meaning(items[0])] + MeaningItems(items[1..])
  }

  function MeaningPairs(pairs: seq<Pair>): seq<Entry>
    requires ProperPairs(pairs)
    decreases pairs, 0
  {
    if pairs == [] then [] else [Entry(pairs[0].key, Meaning(pairs[0].value))] + MeaningPairs(pairs[1..])
  }

  // ---- What is spelled is read ----

  lemma NumberReads(data: Buffer, i: nat, text: Buffer)
    requires 101 !in text && Stoll(text).Ok? && At(data, i, [105] + text + [101])
    ensures DecodeElement(data, i) == Ok(Decoded(Int(Stoll(text).value), i + |text| + 2))
  {
    hide Stoll, Find, DecodeElement;
    OpenAt(data, i, 105, text);
    FindAfter(data, i + 1, text, END);
    BnodeLaws.IntAt(data, i, i + 1 + |text|, Stoll(text).value);
  }

  lemma TextReads(data: Buffer, i: nat, len: Buffer, s: Buffer)
    requires IsLength(len, |s|) && At(data, i, len + [58] + s)
    ensures DecodeElement(data, i) == Ok(Decoded(Str(s), i + |len + [58] + s|))
  {
    hide Stoll, Find;
    AtSplit(data, i, len + [58], s);
    AtHead(data, i, len + [58]);
    FindAfter(data, i, len, COLON);
    StrAt(data, i, i + |len|, s);
  }

  lemma HeadIsNotEnd(src: Source)
    requires Proper(src)
    ensures Spelled(src) != [] && Spelled(src)[0] != 101
  {
  }

  lemma {:induction false} SpelledReads(data: Buffer, i: nat, src: Source)
    requires Proper(src) && At(data, i, Spelled(src))
    ensures DecodeElement(data, i) == Ok(Decoded(Meaning(src), i + |Spelled(src)|))
    decreases src, 1
  {
    hide DecodeElement, DecodeItems, DecodeEntries, Stoll, SpelledItems, SpelledPairs, MeaningItems, MeaningPairs;
    match src
    case Number(text) => NumberReads(data, i, text);
    case Text(len, s) => TextReads(data, i, len, s);
    case Sequence(items) =>
      OpenAt(data, i, 108, SpelledItems(items));
      OpenStep(data, i);
      ItemsRead(data, i + 1, items, [], MeaningItems(items));
    case Table(pairs) =>
      OpenAt(data, i, 100, SpelledPairs(pairs));
      OpenStep(data, i);
      PairsRead(data, i + 1, pairs, [], MeaningPairs(pairs));
  }

  lemma {:induction false} ItemsRead(data: Buffer, i: nat, items: seq<Source>, done: seq<Node>, all: seq<Node>)
    requires ProperItems(items) && At(data, i, SpelledItems(items) + [101]) && all == done + MeaningItems(items)
    ensures DecodeItems(data, i, done) == Ok(Decoded(List(all), i + |SpelledItems(items)| + 1))
    decreases items, 0
  {
    hide DecodeElement, DecodeItems, Spelled, Meaning, Proper;
    if items == [] {
      AtHead(data, i, SpelledItems(items) + [101]);
      EndStep(data, i, done, []);
      assert all == done;
    } else {
      var e, rest := Spelled(items[0]), SpelledItems(items[1..]) + [101];
      assert SpelledItems(items) + [101] == e + rest;
      AtSplit(data, i, e, rest);
      HeadIsNotEnd(items[0]);
      AtHead(data, i, e);
      SpelledReads(data, i, items[0]);
      ItemsStep(data, i, done, Meaning(items[0]), i + |e|);
      assert all == done + [Meaning(items[0])] + MeaningItems(items[1..]);
      ItemsRead(data, i + |e|, items[1..], done + [Meaning(items[0])], all);
    }
  }

  lemma KeyReads(data: Buffer, i: nat, len: Buffer, key: Buffer)
    requires IsLength(len, |key|) && At(data, i, len + [58] + key)
    ensures i < |data| && data[i] != END
    ensures DecodeElement(data, i) == Ok(Decoded(Str(key), i + |len + [58] + key|))
  {
    hide DecodeElement, Stoll;
    TextReads(data, i, len, key);
    AtHead(data, i, len + [58] + key);
  }

  lemma {:induction false} PairsRead(data: Buffer, i: nat, pairs: seq<Pair>, done: seq<Entry>, all: seq<Entry>)
    requires ProperPairs(pairs) && At(data, i, SpelledPairs(pairs) + [101]) && all == done + MeaningPairs(pairs)
    ensures DecodeEntries(data, i, done) == Ok(Decoded(Dict(Build(all)), i + |SpelledPairs(pairs)| + 1))
    decreases pairs, 0
  {
    hide DecodeElement, DecodeEntries, Spelled, Meaning, Proper, Build, IsLength;
    if pairs == [] {
      AtHead(data, i, SpelledPairs(pairs) + [101]);
      EndStep(data, i, [], done);
      assert all == done;
    } else {
      var p := pairs[0];
      var k, v, rest := p.len + [58] + p.key, Spelled(p.value), SpelledPairs(pairs[1..]);
      var e := Entry(p.key, Meaning(p.value));
      assert SpelledPairs(pairs) == k + v + rest;
      AtSplitEntry(data, i, k, v, rest, [101]);
      KeyReads(data, i, p.len, p.key);
      SpelledReads(data, i + |k|, p.value);
      EntriesStep(data, i, done, e, i + |k|, i + |k| + |v|);
      assert all == done + [e] + MeaningPairs(pairs[1..]);
      PairsRead(data, i + |k| + |v|, pairs[1..], done + [e], all);
    }
  }

  // ---- What is read was spelled ----

  lemma NoneBefore(data: Buffer, i: nat, b: byte)
    requires i <= |data|
    ensures b !in data[i..Find(data, i, b)]
  {
    forall m | i <= m < Find(data, i, b) ensures data[m] != b {
      FindSkips(data, i, b, m);
    }
  }

  lemma NumberSource(data: Buffer, i: nat) returns (src: Source)
    requires i < |data| && data[i] == 105 && DecodeElement(data, i).Ok?
    ensures Proper(src) && DecodeElement(data, i).value.node == Meaning(src)
    ensures Spelled(src) == data[i..DecodeElement(data, i).value.next]
  {
    hide Stoll;
    var end := Find(data, i + 1, END);
    src := Number(data[i + 1..end]);
    NoneBefore(data, i + 1, END);
    assert data[i..end + 1] == [105] + data[i + 1..end] + [101];
  }

  lemma TextSource(data: Buffer, i: nat) returns (len: Buffer, s: Buffer)
    requires i < |data| && IsDigit(data[i]) && DecodeStr(data, i).Ok?
    ensures IsLength(len, |s|) && DecodeStr(data, i).value.node == Str(s)
    ensures len + [58] + s == data[i..DecodeStr(data, i).value.next]
  {
    hide Stoll;
    var colon := Find(data, i, COLON);
    var next := DecodeStr(data, i).value.next;
    len, s := data[i..colon], data[colon + 1..next];
    NoneBefore(data, i, COLON);
    assert data[i..next] == len + [58] + s;
  }

  /** What a decoded element was spelled like. */
  ghost predicate SpellsAt(data: Buffer, i: nat, src: Source, n: Node, next: nat) {
    Proper(src) && i <= next <= |data| && Spelled(src) == data[i..next] && Meaning(src) == n
  }

  lemma Enclosed(data: Buffer, i: nat, next: nat, open: byte, body: Buffer)
    requires i < next <= |data| && data[i] == open && body + [101] == data[i + 1..next]
    ensures [open] + body + [101] == data[i..next]
  {
    assert data[i..next] == [open] + data[i + 1..next];
  }

  lemma {:induction false} ElementSource(data: Buffer, i: nat) returns (src: Source)
    requires i <= |data| && DecodeElement(data, i).Ok?
    ensures SpellsAt(data, i, src, DecodeElement(data, i).value.node, DecodeElement(data, i).value.next)
    decreases |data| - i, 0
  {
    hide Stoll, DecodeItems, DecodeEntries, DecodeStr;
    var next := DecodeElement(data, i).value.next;
    if data[i] == INT {
      src := NumberSource(data, i);
    } else if data[i] == LIST {
      var items := ItemsSource(data, i + 1, []);
      src := Sequence(items);
      assert [] + MeaningItems(items) == MeaningItems(items);
      Enclosed(data, i, next, 108, SpelledItems(items));
    } else if data[i] == DICT {
      var pairs := PairsSource(data, i + 1, []);
      src := Table(pairs);
      assert [] + MeaningPairs(pairs) == MeaningPairs(pairs);
      Enclosed(data, i, next, 100, SpelledPairs(pairs));
    } else {
      var len, s := TextSource(data, i);
      src := Text(len, s);
    }
  }

  lemma Joined(data: Buffer, i: nat, mid: nat, end: nat, a: Buffer, b: Buffer)
    requires i <= mid <= end <= |data| && a == data[i..mid] && b + [101] == data[mid..end]
    ensures (a + b) + [101] == data[i..end]
  {
    assert data[i..end] == data[i..mid] + data[mid..end];
    assert (a + b) + [101] == a + (b + [101]);
  }

  lemma {:induction false} ItemsSource(data: Buffer, i: nat, done: seq<Node>) returns (items: seq<Source>)
    requires i <= |data| && DecodeItems(data, i, done).Ok?
    ensures ProperItems(items) && SpelledItems(items) + [101] == data[i..DecodeItems(data, i, done).value.next]
    ensures DecodeItems(data, i, done).value.node == List(done + MeaningItems(items))
    decreases |data| - i, 1
  {
    hide DecodeElement;
    var end := DecodeItems(data, i, done).value.next;
    if data[i] == END {
      items := [];
      assert data[i..end] == [101];
    } else {
      var d := DecodeElement(data, i).value;
      var first := ElementSource(data, i);
      var rest := ItemsSource(data, d.next, done + [d.node]);
      items := [first] + rest;
      assert items[1..] == rest;
      Joined(data, i, d.next, end, Spelled(first), SpelledItems(rest));
      assert done + [d.node] + MeaningItems(rest) == done + MeaningItems(items);
    }
  }

  /** Only a string decodes to a string. */
  lemma {:induction false} KeySource(data: Buffer, i: nat) returns (len: Buffer)
    requires i <= |data| && DecodeElement(data, i).Ok? && DecodeElement(data, i).value.node.Str?
    ensures var d := DecodeElement(data, i).value;
            IsLength(len, |d.node.s|) && len + [58] + d.node.s == data[i..d.next]
    decreases |data| - i, 1
  {
    var src := ElementSource(data, i);
    len := src.len;
  }

  lemma NoPairs()
    ensures ProperPairs([]) && SpelledPairs([]) == [] && MeaningPairs([]) == []
  {
  }

  lemma OnePairMore(p: Pair, rest: seq<Pair>)
    requires IsLength(p.len, |p.key|) && Proper(p.value) && ProperPairs(rest)
    ensures var pairs := [p] + rest;
            && ProperPairs(pairs)
            && SpelledPairs(pairs) == (p.len + [58] + p.key) + (Spelled(p.value) + SpelledPairs(rest))
            && MeaningPairs(pairs) == [Entry(p.key, Meaning(p.value))] + MeaningPairs(rest)
  {
    hide IsLength, Proper, Spelled, Meaning;
    var pairs := [p] + rest;
    assert pairs[1..] == rest;
    assert SpelledPairs(pairs) == (p.len + [58] + p.key) + Spelled(p.value) + SpelledPairs(rest);
  }

  lemma {:induction false} PairsSource(data: Buffer, i: nat, done: seq<Entry>) returns (pairs: seq<Pair>)
    requires i <= |data| && DecodeEntries(data, i, done).Ok?
    ensures ProperPairs(pairs) && SpelledPairs(pairs) + [101] == data[i..DecodeEntries(data, i, done).value.next]
    ensures DecodeEntries(data, i, done).value.node == Dict(Build(done + MeaningPairs(pairs)))
    decreases |data| - i, 2
  {
    hide DecodeElement, Build, IsLength, SpelledPairs, ProperPairs, MeaningPairs, Spelled, Meaning, Proper;
    var end := DecodeEntries(data, i, done).value.next;
    if data[i] == END {
      pairs := [];
      NoPairs();
      assert data[i..end] == [] + [101];
      assert done + [] == done;
    } else {
      var k := DecodeElement(data, i).value;
      var d := DecodeElement(data, k.next).value;
      var len := KeySource(data, i);
      var value := ElementSource(data, k.next);
      var e := Entry(k.node.s, d.node);
      var rest := PairsSource(data, d.next, done + [e]);
      var first := Pair(len, k.node.s, value);
      pairs := [first] + rest;
      OnePairMore(first, rest);
      Joined(data, k.next, d.next, end, Spelled(value), SpelledPairs(rest));
      Joined(data, i, k.next, end, len + [58] + k.node.s, Spelled(value) + SpelledPairs(rest));
      assert done + [e] + MeaningPairs(rest) == done + MeaningPairs(pairs);
    }
  }

  /**
    The decoder accepts exactly the spelled values: an element is read as `n` up to `next` if and only if the bytes in
    between spell a value that means `n`.
   */
  lemma DecodesIff(data: Buffer, i: nat, n: Node, next: nat)
    requires i <= |data|
    ensures DecodeElement(data, i) == Ok(Decoded(n, next)) <==> exists src :: SpellsAt(data, i, src, n, next)
  {
    if DecodeElement(data, i) == Ok(Decoded(n, next)) {
      var src := ElementSource(data, i);
    }
    if src :| SpellsAt(data, i, src, n, next) {
      assert i + |Spelled(src)| == next;
      SpelledReads(data, i, src);
    }
  }

  // ---- What the encoder writes ----

  /** The digits of a number, most significant first; 48 is the digit 0 and 45 the minus sign. */
  lemma DigitsGrow(n: nat, d: nat)
    requires d < 10
    ensures Digits(d) == [48 + d]
    ensures n > 0 ==> Digits(10 * n + d) == Digits(n) + [48 + d]
    ensures n > 0 ==> ToText(0 - (n as int)) == [45] + Digits(n)
    ensures ToText(n) == Digits(n)
  {
    assert (10 * n + d) / 10 == n && (10 * n + d) % 10 == d;
  }

  /** Each value is written with its mark, and an element of a list or a dictionary after the one before. */
  lemma EncodingIs(n: Node)
    ensures n.Int? ==> Encode(n) == [105] + ToText(n.v) + [101]
    ensures n.Str? ==> Encode(n) == Digits(|n.s|) + [58] + n.s
    ensures n.List? ==> Encode(n) == [108] + EncodeItems(n.items) + [101]
    ensures n.Dict? ==> Encode(n) == [100] + EncodeEntries(n.entries) + [101]
    ensures EncodeItems([]) == [] && EncodeEntries([]) == []
  {
  }

  lemma EncodingMore(items: seq<Node>, n: Node, entries: seq<Entry>, e: Entry)
    ensures EncodeItems([n] + items) == Encode(n) + EncodeItems(items)
    ensures EncodeEntries([e] + entries) ==
            (Digits(|e.key|) + [58] + e.key) + Encode(e.value) + EncodeEntries(entries)
  {
    assert ([n] + items)[1..] == items && ([e] + entries)[1..] == entries;
  }

  /** What the encoder writes of a node spells that node. */
  lemma EncodingSpells(n: Node) returns (src: Source)
    requires WellFormed(n)
    ensures Proper(src) && Spelled(src) == Encode(n) && Meaning(src) == n
  {
    hide DecodeElement, Encode, Spelled, Meaning, Proper;
    RoundTripInContext([], n, []);
    var data := [] + Encode(n) + [];
    assert data == Encode(n) && data[0..|Encode(n)|] == data;
    src := ElementSource(data, 0);
  }

  // ---- Elements that are refused ----

  /** What the first byte, the closing byte and the length of a leaf decide. */
  lemma Refused(data: Buffer, i: nat)
    requires i <= |data|
    ensures i == |data| ==> DecodeElement(data, i) == Throw(RuntimeError("Unexpected end of buffer"))
    ensures i < |data| && data[i] !in [105, 108, 100] && !(48 <= data[i] <= 57) ==>
              DecodeElement(data, i) == Throw(RuntimeError("Unknown Bencode type"))
    ensures i < |data| && data[i] == 105 && 101 !in data[i + 1..] ==>
              DecodeElement(data, i) == Throw(RuntimeError("Invalid Integer"))
    ensures i < |data| && 48 <= data[i] <= 57 && 58 !in data[i..] ==>
              DecodeElement(data, i) == Throw(RuntimeError("Invalid String length"))
  {
  }
}
