/** Locality, progress and the round trip of the bencode codec. */
module BnodeLaws {
  import opened Exceptions
  import opened Bytes
  import opened Numbers
  import opened Bnode

  /** The bytes `e` stand at position `i`. */
  predicate At(data: Buffer, i: nat, e: Buffer) {
    i + |e| <= |data| && data[i..i + |e|] == e
  }

  lemma AtSplit(data: Buffer, i: nat, a: Buffer, b: Buffer)
    ensures At(data, i, a + b) <==> At(data, i, a) && At(data, i + |a|, b)
  {
    if i + |a| + |b| <= |data| {
      var s := data[i..i + |a| + |b|];
      assert s[..|a|] == data[i..i + |a|] && s[|a|..] == data[i + |a|..i + |a| + |b|];
      assert s == s[..|a|] + s[|a|..];
      assert (a + b)[..|a|] == a && (a + b)[|a|..] == b;
    }
  }

  lemma AtSplitEntry(data: Buffer, i: nat, k: Buffer, e: Buffer, rest: Buffer, end: Buffer)
    requires At(data, i, k + e + rest + end)
    ensures At(data, i, k) && At(data, i + |k|, e) && At(data, i + |k| + |e|, rest + end)
  {
    assert k + e + rest + end == (k + e) + (rest + end);
    AtSplit(data, i, k + e, rest + end);
    AtSplit(data, i, k, e);
  }

  lemma AtHead(data: Buffer, i: nat, e: Buffer)
    requires At(data, i, e) && e != []
    ensures i < |data| && data[i] == e[0]
  {
    assert data[i] == data[i..i + |e|][0];
  }

  lemma {:induction false} FindIs(data: Buffer, i: nat, b: byte, k: nat)
    requires i <= k < |data| && data[k] == b && forall m :: i <= m < k ==> data[m] != b
    ensures Find(data, i, b) == k
    decreases k - i
  {
    if i == k {
    } else {
      FindIs(data, i + 1, b, k);
    }
  }

  lemma {:induction false} FindSkips(data: Buffer, i: nat, b: byte, m: nat)
    requires i <= |data| && i <= m < Find(data, i, b)
    ensures data[m] != b
    decreases |data| - i
  {
    if i == m {
    } else {
      FindSkips(data, i + 1, b, m);
    }
  }

  // ---- Round trip ----

  lemma OpenAt(data: Buffer, i: nat, open: byte, body: Buffer)
    requires At(data, i, [open] + body + [END])
    ensures i < |data| && data[i] == open && At(data, i + 1, body + [END])
  {
    assert [open] + body + [END] == [open] + (body + [END]);
    AtSplit(data, i, [open], body + [END]);
    AtHead(data, i, [open]);
  }

  lemma IntAt(data: Buffer, i: nat, end: nat, v: int)
    requires i + 1 <= end < |data| && data[i] == INT && Find(data, i + 1, END) == end
    requires Stoll(data[i + 1..end]) == Ok(v)
    ensures DecodeElement(data, i) == Ok(Decoded(Int(v), end + 1))
  {
    hide Stoll;
  }

  lemma TextHasNoEnd(v: int)
    ensures forall k :: 0 <= k < |ToText(v)| ==> ToText(v)[k] != END && ToText(v)[k] != COLON
  {
    var digits := Digits(if v < 0 then -v else v);
    DigitsAreDigits(if v < 0 then -v else v);
    forall k | 0 <= k < |ToText(v)| ensures ToText(v)[k] != END && ToText(v)[k] != COLON {
      if v < 0 { assert k > 0 ==> ToText(v)[k] == digits[k - 1]; }
    }
  }

  /** A text without the byte `b`, followed by `b`: that is where the search stops. */
  lemma FindAfter(data: Buffer, i: nat, text: Buffer, b: byte)
    requires At(data, i, text + [b]) && forall k :: 0 <= k < |text| ==> text[k] != b
    ensures i + |text| < |data| && Find(data, i, b) == i + |text| && data[i..i + |text|] == text
  {
    AtSplit(data, i, text, [b]);
    AtHead(data, i + |text|, [b]);
    forall m | i <= m < i + |text| ensures data[m] != b {
      assert data[m] == data[i..i + |text|][m - i];
    }
    FindIs(data, i, b, i + |text|);
  }

  lemma IntRoundTrip(data: Buffer, i: nat, v: int)
    requires Fits64(v) && At(data, i, [INT] + ToText(v) + [END])
    ensures DecodeElement(data, i) == Ok(Decoded(Int(v), i + |ToText(v)| + 2))
  {
    hide Stoll, Digits, Find, ToText, DecodeElement;
    OpenAt(data, i, INT, ToText(v));
    TextHasNoEnd(v);
    FindAfter(data, i + 1, ToText(v), END);
    StollUndoesToText(v);
    IntAt(data, i, i + 1 + |ToText(v)|, v);
  }

  lemma StrAt(data: Buffer, i: nat, colon: nat, s: Buffer)
    requires i <= colon < |data| && IsDigit(data[i]) && Find(data, i, COLON) == colon
    requires Stoll(data[i..colon]) == Ok(|s|) && At(data, colon + 1, s)
    ensures DecodeStr(data, i) == Ok(Decoded(Str(s), colon + 1 + |s|))
  {
    hide Stoll;
  }

  lemma StrRoundTrip(data: Buffer, i: nat, s: Buffer)
    requires |s| < I64 && At(data, i, EncodeStr(s))
    ensures DecodeElement(data, i) == Ok(Decoded(Str(s), i + |EncodeStr(s)|))
  {
    hide Stoll, Digits, Find;
    var text := ToText(|s|);
    AtSplit(data, i, text + [COLON], s);
    AtHead(data, i, text + [COLON]);
    TextHasNoEnd(|s|);
    FindAfter(data, i, text, COLON);
    StollUndoesToText(|s|);
    StrAt(data, i, i + |text|, s);
  }

  /** No encoding starts with the byte that closes a list or a dictionary. */
  lemma HeadIsNotEnd(n: Node)
    ensures Encode(n)[0] != END
  {
  }

  /** Decoding at a cursor where an encoding stands gives the node back and leaves the cursor at its end. */
  lemma {:induction false} RoundTripAt(data: Buffer, i: nat, n: Node)
    requires WellFormed(n) && At(data, i, Encode(n))
    ensures DecodeElement(data, i) == Ok(Decoded(n, i + |Encode(n)|))
    decreases n, 1
  {
    hide DecodeInt, DecodeStr, DecodeItems, DecodeEntries, DecodeElement, EncodeItems, EncodeEntries, EncodeStr, ToText;
    match n
    case Int(v) => IntRoundTrip(data, i, v);
    case Str(s) => StrRoundTrip(data, i, s);
    case List(items) =>
      ListRoundTrip(data, i, items);
    case Dict(entries) =>
      DictRoundTrip(data, i, entries);
  }

  lemma OpenStep(data: Buffer, i: nat)
    requires i < |data|
    ensures data[i] == LIST ==> DecodeElement(data, i) == DecodeItems(data, i + 1, [])
    ensures data[i] == DICT ==> DecodeElement(data, i) == DecodeEntries(data, i + 1, [])
  {
  }

  lemma {:induction false} ListRoundTrip(data: Buffer, i: nat, items: seq<Node>)
    requires WellFormedItems(items) && At(data, i, [LIST] + EncodeItems(items) + [END])
    ensures DecodeElement(data, i) == Ok(Decoded(List(items), i + |EncodeItems(items)| + 2))
    decreases items, 1
  {
    hide DecodeElement, DecodeItems, EncodeItems;
    OpenAt(data, i, LIST, EncodeItems(items));
    OpenStep(data, i);
    ItemsRoundTrip(data, i + 1, items, [], items, i + |EncodeItems(items)| + 2);
  }

  lemma {:induction false} DictRoundTrip(data: Buffer, i: nat, entries: seq<Entry>)
    requires WellFormedEntries(entries) && Ascending(entries)
    requires At(data, i, [DICT] + EncodeEntries(entries) + [END])
    ensures DecodeElement(data, i) == Ok(Decoded(Dict(entries), i + |EncodeEntries(entries)| + 2))
    decreases entries, 2
  {
    assert Build(entries) == entries by { BuildAscending(entries); }
    DictBuilds(data, i, entries, i + |EncodeEntries(entries)| + 2);
  }

  lemma {:induction false} DictBuilds(data: Buffer, i: nat, entries: seq<Entry>, end: nat)
    requires WellFormedEntries(entries) && At(data, i, [DICT] + EncodeEntries(entries) + [END])
    requires end == i + |EncodeEntries(entries)| + 2
    ensures DecodeElement(data, i) == Ok(Decoded(Dict(Build(entries)), end))
    decreases entries, 1
  {
    hide DecodeElement, DecodeEntries, EncodeEntries, Build;
    OpenAt(data, i, DICT, EncodeEntries(entries));
    OpenStep(data, i);
    EntriesRoundTrip(data, i + 1, entries, [], entries, end);
  }

  lemma EndStep(data: Buffer, i: nat, items: seq<Node>, pairs: seq<Entry>)
    requires i < |data| && data[i] == END
    ensures DecodeItems(data, i, items) == Ok(Decoded(List(items), i + 1))
    ensures DecodeEntries(data, i, pairs) == Ok(Decoded(Dict(Build(pairs)), i + 1))
  {
  }

  lemma ItemsStep(data: Buffer, i: nat, done: seq<Node>, n: Node, next: nat)
    requires i < |data| && data[i] != END && DecodeElement(data, i) == Ok(Decoded(n, next))
    ensures DecodeItems(data, i, done) == DecodeItems(data, next, done + [n])
  {
  }

  lemma SplitHead(data: Buffer, i: nat, e: Buffer, rest: Buffer, end: Buffer)
    requires At(data, i, e + rest + end) && e != []
    ensures At(data, i, e) && At(data, i + |e|, rest + end) && i < |data| && data[i] == e[0]
  {
    assert (e + rest) + end == e + (rest + end);
    AtSplit(data, i, e, rest + end);
    AtHead(data, i, e);
  }

  lemma ItemsSplit(data: Buffer, i: nat, items: seq<Node>)
    requires items != [] && At(data, i, EncodeItems(items) + [END])
    ensures var e := Encode(items[0]);
            && At(data, i, e) && At(data, i + |e|, EncodeItems(items[1..]) + [END])
            && i < |data| && data[i] != END
            && |EncodeItems(items)| == |e| + |EncodeItems(items[1..])|
  {
    hide Encode, At;
    SplitHead(data, i, Encode(items[0]), EncodeItems(items[1..]), [END]);
    HeadIsNotEnd(items[0]);
  }

  lemma {:induction false} ItemsRoundTrip(
    data: Buffer, i: nat, items: seq<Node>, done: seq<Node>, all: seq<Node>, end: nat)
    requires WellFormedItems(items) && At(data, i, EncodeItems(items) + [END])
    requires all == done + items && end == i + |EncodeItems(items)| + 1
    ensures DecodeItems(data, i, done) == Ok(Decoded(List(all), end))
    decreases items, 0
  {
    hide DecodeElement, DecodeEntries, DecodeItems, Encode;
    if items == [] {
      AtHead(data, i, EncodeItems(items) + [END]);
      EndStep(data, i, done, []);
      assert all == done;
    } else {
      var next := i + |Encode(items[0])|;
      ItemsSplit(data, i, items);
      RoundTripAt(data, i, items[0]);
      ItemsStep(data, i, done, items[0], next);
      assert done + items == done + [items[0]] + items[1..];
      ItemsRoundTrip(data, next, items[1..], done + [items[0]], all, end);
    }
  }

  lemma EntriesStep(data: Buffer, i: nat, done: seq<Entry>, e: Entry, mid: nat, next: nat)
    requires i < |data| && data[i] != END && DecodeElement(data, i) == Ok(Decoded(Str(e.key), mid))
    requires mid <= |data| && DecodeElement(data, mid) == Ok(Decoded(e.value, next))
    ensures DecodeEntries(data, i, done) == DecodeEntries(data, next, done + [e])
  {
  }

  lemma EntriesSplit(data: Buffer, i: nat, entries: seq<Entry>)
    requires entries != [] && At(data, i, EncodeEntries(entries) + [END])
    ensures var k, e := EncodeStr(entries[0].key), Encode(entries[0].value);
            && At(data, i, k) && At(data, i + |k|, e) && At(data, i + |k| + |e|, EncodeEntries(entries[1..]) + [END])
            && i < |data| && data[i] != END
            && |EncodeEntries(entries)| == |k| + |e| + |EncodeEntries(entries[1..])|
  {
    var first := entries[0];
    var k, e, rest := EncodeStr(first.key), Encode(first.value), EncodeEntries(entries[1..]);
    assert EncodeEntries(entries) == k + e + rest;
    AtSplitEntry(data, i, k, e, rest, [END]);
    AtHead(data, i, k);
    HeadIsNotEnd(Str(first.key));
  }

  lemma OneEntry(data: Buffer, i: nat, done: seq<Entry>, e: Entry, mid: nat, next: nat)
    requires |e.key| < I64 && At(data, i, EncodeStr(e.key)) && i < |data| && data[i] != END
    requires mid == i + |EncodeStr(e.key)| && DecodeElement(data, mid) == Ok(Decoded(e.value, next))
    ensures DecodeEntries(data, i, done) == DecodeEntries(data, next, done + [e])
  {
    hide DecodeElement, DecodeEntries, EncodeStr;
    StrRoundTrip(data, i, e.key);
    EntriesStep(data, i, done, e, mid, next);
  }

  lemma {:induction false} EntriesRoundTrip(
    data: Buffer, i: nat, entries: seq<Entry>, done: seq<Entry>, all: seq<Entry>, end: nat)
    requires WellFormedEntries(entries) && At(data, i, EncodeEntries(entries) + [END])
    requires all == done + entries && end == i + |EncodeEntries(entries)| + 1
    ensures DecodeEntries(data, i, done) == Ok(Decoded(Dict(Build(all)), end))
    decreases entries, 0
  {
    hide DecodeElement, DecodeEntries, DecodeItems, Encode, EncodeStr, Build;
    if entries == [] {
      AtHead(data, i, EncodeEntries(entries) + [END]);
      EndStep(data, i, [], done);
      assert all == done;
    } else {
      var e := entries[0];
      var mid := i + |EncodeStr(e.key)|;
      var next := mid + |Encode(e.value)|;
      EntriesSplit(data, i, entries);
      RoundTripAt(data, mid, e.value);
      OneEntry(data, i, done, e, mid, next);
      assert done + entries == done + [e] + entries[1..];
      EntriesRoundTrip(data, next, entries[1..], done + [e], all, end);
    }
  }

  /** For every node tree and all bytes before and after its encoding. */
  lemma RoundTripInContext(before: Buffer, n: Node, after: Buffer)
    requires WellFormed(n)
    ensures DecodeElement(before + Encode(n) + after, |before|) == Ok(Decoded(n, |before| + |Encode(n)|))
    ensures Decode(Encode(n) + after) == Ok(n)
  {
    hide DecodeElement, Encode;
    var data := before + Encode(n) + after;
    assert data[|before|..|before| + |Encode(n)|] == Encode(n);
    RoundTripAt(data, |before|, n);
    assert (Encode(n) + after)[0..0 + |Encode(n)|] == Encode(n);
    RoundTripAt(Encode(n) + after, 0, n);
  }

  // ---- Locality ----

  /** The bytes from `i` to `j` also stand `shift` places further in `data'`. */
  predicate Shifted(data: Buffer, i: nat, j: nat, data': Buffer, shift: int) {
    && j <= |data| && 0 <= i + shift && j + shift <= |data'|
    && forall m {:trigger data[m]} :: i <= m < j ==> data'[m + shift] == data[m]
  }

  lemma FindElsewhere(data: Buffer, i: nat, data': Buffer, shift: int, b: byte)
    requires i <= |data| && Find(data, i, b) < |data| && Shifted(data, i, Find(data, i, b) + 1, data', shift)
    ensures Find(data', i + shift, b) == Find(data, i, b) + shift
  {
    var k := Find(data, i, b);
    forall m | i + shift <= m < k + shift ensures data'[m] != b {
      FindSkips(data, i, b, m - shift);
    }
    FindIs(data', i + shift, b, k + shift);
  }

  lemma SliceElsewhere(data: Buffer, i: nat, j: nat, data': Buffer, shift: int)
    requires i <= j && Shifted(data, i, j, data', shift)
    ensures data'[i + shift..j + shift] == data[i..j]
  {
    forall m | 0 <= m < j - i ensures data'[i + shift..j + shift][m] == data[i..j][m] {
      assert data[i..j][m] == data[i + m];
    }
  }

  ghost predicate Moved(r: Result<Decoded>, r': Result<Decoded>, shift: int) {
    r.Ok? && r'.Ok? && r'.value.node == r.value.node && r'.value.next == r.value.next + shift
  }

  lemma IntIsLocal(data: Buffer, i: nat, data': Buffer, shift: int)
    requires i < |data| && data[i] == INT && DecodeInt(data, i).Ok?
    requires Shifted(data, i, DecodeInt(data, i).value.next, data', shift)
    ensures Moved(DecodeInt(data, i), DecodeInt(data', i + shift), shift)
  {
    hide Stoll;
    var end := Find(data, i + 1, END);
    FindElsewhere(data, i + 1, data', shift, END);
    SliceElsewhere(data, i + 1, end, data', shift);
  }

  lemma StrIsLocal(data: Buffer, i: nat, data': Buffer, shift: int)
    requires i < |data| && IsDigit(data[i]) && DecodeStr(data, i).Ok?
    requires Shifted(data, i, DecodeStr(data, i).value.next, data', shift)
    ensures IsDigit(data'[i + shift]) && Moved(DecodeStr(data, i), DecodeStr(data', i + shift), shift)
  {
    hide Stoll;
    assert data'[i + shift] == data[i];
    var colon, next := Find(data, i, COLON), DecodeStr(data, i).value.next;
    FindElsewhere(data, i, data', shift, COLON);
    SliceElsewhere(data, i, colon, data', shift);
    SliceElsewhere(data, colon + 1, next, data', shift);
  }

  /** What an element decodes to depends only on the bytes it consumes, not on where they are or what follows. */
  lemma {:induction false} ElementIsLocal(data: Buffer, i: nat, data': Buffer, shift: int)
    requires i <= |data| && DecodeElement(data, i).Ok?
    requires Shifted(data, i, DecodeElement(data, i).value.next, data', shift)
    ensures Moved(DecodeElement(data, i), DecodeElement(data', i + shift), shift)
    decreases |data| - i, 0
  {
    assert data'[i + shift] == data[i];
    if data[i] == LIST {
      ItemsAreLocal(data, i + 1, data', shift, []);
    } else if data[i] == DICT {
      EntriesAreLocal(data, i + 1, data', shift, []);
    } else if data[i] == INT {
      IntIsLocal(data, i, data', shift);
    } else {
      StrIsLocal(data, i, data', shift);
    }
  }

  lemma {:induction false} ItemsAreLocal(data: Buffer, i: nat, data': Buffer, shift: int, items: seq<Node>)
    requires i <= |data| && DecodeItems(data, i, items).Ok?
    requires Shifted(data, i, DecodeItems(data, i, items).value.next, data', shift)
    ensures Moved(DecodeItems(data, i, items), DecodeItems(data', i + shift, items), shift)
    decreases |data| - i, 1
  {
    assert data'[i + shift] == data[i];
    if data[i] == END {
    } else {
      var d := DecodeElement(data, i).value;
      ElementIsLocal(data, i, data', shift);
      ItemsAreLocal(data, d.next, data', shift, items + [d.node]);
    }
  }

  lemma {:induction false} EntriesAreLocal(data: Buffer, i: nat, data': Buffer, shift: int, entries: seq<Entry>)
    requires i <= |data| && DecodeEntries(data, i, entries).Ok?
    requires Shifted(data, i, DecodeEntries(data, i, entries).value.next, data', shift)
    ensures Moved(DecodeEntries(data, i, entries), DecodeEntries(data', i + shift, entries), shift)
    decreases |data| - i, 1
  {
    assert data'[i + shift] == data[i];
    if data[i] == END {
    } else {
      var k := DecodeElement(data, i).value;
      var d := DecodeElement(data, k.next).value;
      ElementIsLocal(data, i, data', shift);
      ElementIsLocal(data, k.next, data', shift);
      EntriesAreLocal(data, d.next, data', shift, entries + [Entry(k.node.s, d.node)]);
    }
  }

  /** An element that is accepted as a whole. */
  predicate IsElement(x: Buffer) {
    DecodeElement(x, 0).Ok? && DecodeElement(x, 0).value.next == |x|
  }

  /** No accepted element is a proper prefix of another. */
  lemma ElementsArePrefixFree(x: Buffer, y: Buffer)
    requires IsElement(x) && IsElement(y) && x <= y
    ensures x == y
  {
    ElementIsLocal(x, 0, y, 0);
  }
}
