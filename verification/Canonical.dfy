/**
  Canonical bencoding, recognized directly on the bytes (BEP 3, section "bencoding"): no leading zeros, no minus zero,
  keys strictly ascending as raw bytes at every level.  Numbers are within the 64 bits that the client can hold.
 */
module Canonical {
  import opened Exceptions
  import opened Bytes
  import opened Numbers
  import opened Bnode
  import opened BnodeLaws

  datatype Scan = Bad | Upto(next: nat)

  function ScanInt(data: Buffer, i: nat): (r: Scan)
    requires i < |data|
    ensures r.Upto? ==> i < r.next <= |data|
  {
    var end := Find(data, i + 1, END);
    if end < |data| && PlainText(data[i + 1..end]) && Stoll(data[i + 1..end]).Ok? then Upto(end + 1) else Bad
  }

  function ScanStr(data: Buffer, i: nat): (r: Scan)
    requires i < |data| && IsDigit(data[i])
    ensures r.Upto? ==> i <= Find(data, i, COLON) < r.next <= |data|
  {
    var colon := Find(data, i, COLON);
    if colon >= |data| || !PlainDigits(data[i..colon], 0) then Bad
    else
      match Stoll(data[i..colon])
      case Throw(_) => Bad
      case Ok(len) => if colon + 1 + len <= |data| then Upto(colon + 1 + len) else Bad
  }

  function ScanElement(data: Buffer, i: nat): (r: Scan)
    requires i <= |data|
    ensures r.Upto? ==> i < r.next <= |data|
    decreases |data| - i, 0
  {
    if i == |data| then Bad
    else if data[i] == INT then ScanInt(data, i)
    else if data[i] == LIST then ScanItems(data, i + 1)
    else if data[i] == DICT then ScanEntries(data, i + 1, None)
    else if IsDigit(data[i]) then ScanStr(data, i)
    else Bad
  }

  function ScanItems(data: Buffer, i: nat): (r: Scan)
    requires i <= |data|
    ensures r.Upto? ==> i < r.next <= |data|
    decreases |data| - i, 1
  {
    if i == |data| then Bad
    else if data[i] == END then Upto(i + 1)
    else
      match ScanElement(data, i)
      case Bad => Bad
      case Upto(next) => ScanItems(data, next)
  }

  /** `last` is the key before, which the next key must exceed. */
  function ScanEntries(data: Buffer, i: nat, last: Option<Buffer>): (r: Scan)
    requires i <= |data|
    ensures r.Upto? ==> i < r.next <= |data|
    decreases |data| - i, 1
  {
    if i == |data| then Bad
    else if data[i] == END then Upto(i + 1)
    else if !IsDigit(data[i]) then Bad
    else
      match ScanStr(data, i)
      case Bad => Bad
      case Upto(mid) =>
        var key := data[Find(data, i, COLON) + 1..mid];
        if last.Some? && !Less(last.value, key) then Bad
        else
          match ScanElement(data, mid)
          case Bad => Bad
          case Upto(next) => ScanEntries(data, next, Some(key))
  }

  predicate IsCanonical(x: Buffer) {
    ScanElement(x, 0) == Upto(|x|)
  }

  // ---- Every encoding is canonical ----

  lemma IntScans(data: Buffer, i: nat, v: int)
    requires Fits64(v) && At(data, i, [INT] + ToText(v) + [END])
    ensures i < |data| && ScanElement(data, i) == Upto(i + |ToText(v)| + 2)
  {
    OpenAt(data, i, INT, ToText(v));
    TextHasNoEnd(v);
    FindAfter(data, i + 1, ToText(v), END);
    StollUndoesToText(v);
    ToTextIsPlain(v);
  }

  lemma StrScans(data: Buffer, i: nat, s: Buffer)
    requires |s| < I64 && At(data, i, EncodeStr(s))
    ensures i < |data| && IsDigit(data[i]) && ScanStr(data, i) == Upto(i + |EncodeStr(s)|)
    ensures data[Find(data, i, COLON) + 1..i + |EncodeStr(s)|] == s
  {
    hide Stoll, Digits;
    var text := ToText(|s|);
    AtSplit(data, i, text + [COLON], s);
    AtHead(data, i, text + [COLON]);
    TextHasNoEnd(|s|);
    FindAfter(data, i, text, COLON);
    StollUndoesToText(|s|);
    DigitsArePlain(|s|);
  }

  lemma {:induction false} EncodingScans(data: Buffer, i: nat, n: Node)
    requires WellFormed(n) && At(data, i, Encode(n))
    ensures ScanElement(data, i) == Upto(i + |Encode(n)|)
    decreases n, 1
  {
    hide EncodeItems, EncodeEntries, EncodeStr, ToText, ScanInt, ScanStr, Stoll;
    match n
    case Int(v) => IntScans(data, i, v);
    case Str(s) => StrScans(data, i, s);
    case List(items) =>
      OpenAt(data, i, LIST, EncodeItems(items));
      ItemsScan(data, i + 1, items);
    case Dict(entries) =>
      OpenAt(data, i, DICT, EncodeEntries(entries));
      EntriesScan(data, i + 1, entries, None, i + |EncodeEntries(entries)| + 2);
  }

  lemma {:induction false} ItemsScan(data: Buffer, i: nat, items: seq<Node>)
    requires WellFormedItems(items) && At(data, i, EncodeItems(items) + [END])
    ensures ScanItems(data, i) == Upto(i + |EncodeItems(items)| + 1)
    decreases items, 0
  {
    hide ScanElement, Encode, WellFormed;
    if items == [] {
      AtHead(data, i, EncodeItems(items) + [END]);
    } else {
      ItemsSplit(data, i, items);
      EncodingScans(data, i, items[0]);
      ItemsScan(data, i + |Encode(items[0])|, items[1..]);
    }
  }

  predicate Above(entries: seq<Entry>, last: Option<Buffer>) {
    entries != [] && last.Some? ==> Less(last.value, entries[0].key)
  }

  lemma ScanEnd(data: Buffer, i: nat, last: Option<Buffer>)
    requires i < |data| && data[i] == END
    ensures ScanItems(data, i) == Upto(i + 1) && ScanEntries(data, i, last) == Upto(i + 1)
  {
  }

  lemma ScanEntriesStep(data: Buffer, i: nat, last: Option<Buffer>, key: Buffer, mid: nat, next: nat)
    requires i < |data| && IsDigit(data[i]) && ScanStr(data, i) == Upto(mid)
    requires key == data[Find(data, i, COLON) + 1..mid] && (last.Some? ==> Less(last.value, key))
    requires ScanElement(data, mid) == Upto(next)
    ensures ScanEntries(data, i, last) == ScanEntries(data, next, Some(key))
  {
    hide ScanInt, ScanStr, Find, Less, ScanElement, ScanItems;
  }

  lemma OneEntryScans(data: Buffer, i: nat, e: Entry, last: Option<Buffer>, mid: nat, next: nat)
    requires |e.key| < I64 && At(data, i, EncodeStr(e.key)) && (last.Some? ==> Less(last.value, e.key))
    requires mid == i + |EncodeStr(e.key)| && ScanElement(data, mid) == Upto(next)
    ensures ScanEntries(data, i, last) == ScanEntries(data, next, Some(e.key))
  {
    hide ScanElement, ScanStr, ScanEntries, EncodeStr;
    StrScans(data, i, e.key);
    ScanEntriesStep(data, i, last, e.key, mid, next);
  }

  lemma {:induction false} EntriesScan(data: Buffer, i: nat, entries: seq<Entry>, last: Option<Buffer>, end: nat)
    requires WellFormedEntries(entries) && Ascending(entries) && Above(entries, last)
    requires At(data, i, EncodeEntries(entries) + [END]) && end == i + |EncodeEntries(entries)| + 1
    ensures ScanEntries(data, i, last) == Upto(end)
    decreases entries, 0
  {
    hide ScanElement, ScanEntries, Encode, EncodeStr;
    if entries == [] {
      AtHead(data, i, EncodeEntries(entries) + [END]);
      ScanEnd(data, i, last);
    } else {
      var e := entries[0];
      var mid := i + |EncodeStr(e.key)|;
      var next := mid + |Encode(e.value)|;
      EntriesSplit(data, i, entries);
      EncodingScans(data, mid, e.value);
      OneEntryScans(data, i, e, last, mid, next);
      EntriesScan(data, next, entries[1..], Some(e.key), end);
    }
  }

  /** The encoder writes canonical bencoding. */
  lemma EncodeIsCanonical(n: Node)
    requires WellFormed(n)
    ensures IsCanonical(Encode(n))
  {
    assert Encode(n)[0..0 + |Encode(n)|] == Encode(n);
    EncodingScans(Encode(n), 0, n);
  }

  // ---- Canonical bytes are encodings ----

  lemma IntParts(data: Buffer, i: nat) returns (text: Buffer, v: int)
    requires i < |data| && data[i] == INT && ScanInt(data, i).Upto?
    ensures data[i..ScanInt(data, i).next] == [INT] + text + [END]
    ensures PlainText(text) && Stoll(text) == Ok(v)
    ensures DecodeInt(data, i) == Ok(Decoded(Int(v), ScanInt(data, i).next))
  {
    hide Stoll, PlainText;
    var end := Find(data, i + 1, END);
    text := data[i + 1..end];
    v := Stoll(text).value;
    assert data[i..end + 1] == [INT] + text + [END];
  }

  lemma IntIsEncoding(data: Buffer, i: nat)
    requires i < |data| && data[i] == INT && ScanInt(data, i).Upto?
    ensures var next, r := ScanInt(data, i).next, DecodeInt(data, i);
            r.Ok? && r.value.next == next && r.value.node.Int?
            && WellFormed(r.value.node) && Encode(r.value.node) == data[i..next]
  {
    hide Stoll, PlainText, ScanInt, DecodeInt, ToText;
    var text, v := IntParts(data, i);
    ToTextUndoesStoll(text);
  }

  lemma NotEmpty(text: Buffer)
    requires PlainDigits(text, 0)
    ensures text != []
  {
  }

  lemma StrParts(data: Buffer, i: nat) returns (text: Buffer, s: Buffer)
    requires i < |data| && IsDigit(data[i]) && ScanStr(data, i).Upto?
    ensures var next := ScanStr(data, i).next;
            && data[i..next] == text + [COLON] + s && s == data[Find(data, i, COLON) + 1..next]
            && DecodeStr(data, i) == Ok(Decoded(Str(s), next))
    ensures PlainDigits(text, 0) && text[0] == data[i] && Stoll(text) == Ok(|s|)
  {
    hide Stoll, PlainDigits;
    var colon, next := Find(data, i, COLON), ScanStr(data, i).next;
    text, s := data[i..colon], data[colon + 1..next];
    NotEmpty(text);
    assert data[i..next] == text + [COLON] + s;
  }

  lemma StrIsEncoding(data: Buffer, i: nat)
    requires i < |data| && IsDigit(data[i]) && ScanStr(data, i).Upto?
    ensures var next, s := ScanStr(data, i).next, data[Find(data, i, COLON) + 1..ScanStr(data, i).next];
            DecodeElement(data, i) == Ok(Decoded(Str(s), next)) && |s| < I64 && EncodeStr(s) == data[i..next]
  {
    hide Stoll, PlainDigits, ScanStr, DecodeStr, Digits, Find;
    var text, s := StrParts(data, i);
    ToTextUndoesStoll(text);
  }

  /** What `[i..next)` decodes to, if it is canonical: a node whose encoding is these very bytes. */
  ghost predicate IsEncodingOf(data: Buffer, i: nat, next: nat, n: Node) {
    i <= next <= |data| && DecodeElement(data, i) == Ok(Decoded(n, next)) && WellFormed(n) && Encode(n) == data[i..next]
  }

  lemma EnclosedIsEncoding(data: Buffer, i: nat, next: nat, open: byte, body: Buffer)
    requires i < next <= |data| && data[i] == open && body + [END] == data[i + 1..next]
    ensures [open] + body + [END] == data[i..next]
  {
    assert data[i..next] == [open] + data[i + 1..next];
  }

  lemma {:induction false} ScannedIsEncoding(data: Buffer, i: nat) returns (n: Node)
    requires i <= |data| && ScanElement(data, i).Upto?
    ensures IsEncodingOf(data, i, ScanElement(data, i).next, n)
    decreases |data| - i, 0
  {
    var next := ScanElement(data, i).next;
    if data[i] == INT {
      IntIsEncoding(data, i);
      n := DecodeElement(data, i).value.node;
    } else if data[i] == LIST {
      n := ListIsEncoding(data, i, next);
    } else if data[i] == DICT {
      n := DictIsEncoding(data, i, next);
    } else {
      StrIsEncoding(data, i);
      n := DecodeElement(data, i).value.node;
    }
  }

  lemma {:induction false} ListIsEncoding(data: Buffer, i: nat, next: nat) returns (n: Node)
    requires i < |data| && data[i] == LIST && ScanItems(data, i + 1) == Upto(next)
    ensures IsEncodingOf(data, i, next, n)
    decreases |data| - i - 1, 2
  {
    var items, all := ItemsAreEncoding(data, i + 1, []);
    assert all == items;
    OpenStep(data, i);
    EnclosedIsEncoding(data, i, next, LIST, EncodeItems(items));
    n := List(items);
  }

  lemma {:induction false} DictIsEncoding(data: Buffer, i: nat, next: nat) returns (n: Node)
    requires i < |data| && data[i] == DICT && ScanEntries(data, i + 1, None) == Upto(next)
    ensures IsEncodingOf(data, i, next, n)
    decreases |data| - i - 1, 2
  {
    var entries, all := EntriesAreEncoding(data, i + 1, [], None);
    assert all == entries;
    BuildAscending(entries);
    OpenStep(data, i);
    EnclosedIsEncoding(data, i, next, DICT, EncodeEntries(entries));
    n := Dict(entries);
  }

  lemma ScanItemsStep(data: Buffer, i: nat)
    requires i < |data| && data[i] != END && ScanItems(data, i).Upto?
    ensures ScanElement(data, i).Upto? && ScanItems(data, i) == ScanItems(data, ScanElement(data, i).next)
  {
  }

  lemma ItemsJoin(data: Buffer, i: nat, next: nat, end: nat, first: Node, rest: seq<Node>)
    requires i <= next <= end <= |data|
    requires Encode(first) == data[i..next] && EncodeItems(rest) + [END] == data[next..end]
    ensures EncodeItems([first] + rest) + [END] == data[i..end]
  {
    hide Encode;
    assert ([first] + rest)[1..] == rest;
    assert data[i..end] == data[i..next] + data[next..end];
    assert Encode(first) + EncodeItems(rest) + [END] == Encode(first) + (EncodeItems(rest) + [END]);
  }

  lemma {:induction false} ItemsAreEncoding(data: Buffer, i: nat, done: seq<Node>)
    returns (items: seq<Node>, all: seq<Node>)
    requires i <= |data| && ScanItems(data, i).Upto?
    ensures WellFormedItems(items) && EncodeItems(items) + [END] == data[i..ScanItems(data, i).next]
    ensures all == done + items && DecodeItems(data, i, done) == Ok(Decoded(List(all), ScanItems(data, i).next))
    decreases |data| - i, 1
  {
    hide ScanElement, DecodeElement, DecodeItems, Encode;
    var end := ScanItems(data, i).next;
    if data[i] == END {
      items, all := [], done;
      ScanEnd(data, i, None);
      EndStep(data, i, done, []);
      assert data[i..end] == [END];
    } else {
      ScanItemsStep(data, i);
      var next := ScanElement(data, i).next;
      var first := ScannedIsEncoding(data, i);
      var rest, all' := ItemsAreEncoding(data, next, done + [first]);
      ItemsStep(data, i, done, first, next);
      ItemsJoin(data, i, next, end, first, rest);
      items, all := [first] + rest, all';
    }
  }

  lemma ScanEntriesParts(data: Buffer, i: nat, last: Option<Buffer>) returns (key: Buffer, mid: nat, next: nat)
    requires i < |data| && data[i] != END && ScanEntries(data, i, last).Upto?
    ensures IsDigit(data[i]) && ScanStr(data, i) == Upto(mid) && key == data[Find(data, i, COLON) + 1..mid]
    ensures last.Some? ==> Less(last.value, key)
    ensures ScanElement(data, mid) == Upto(next) && ScanEntries(data, i, last) == ScanEntries(data, next, Some(key))
  {
    mid := ScanStr(data, i).next;
    key := data[Find(data, i, COLON) + 1..mid];
    next := ScanElement(data, mid).next;
  }

  lemma EntriesJoin(data: Buffer, i: nat, mid: nat, next: nat, end: nat, first: Entry, rest: seq<Entry>)
    requires i <= mid <= next <= end <= |data|
    requires EncodeStr(first.key) == data[i..mid] && Encode(first.value) == data[mid..next]
    requires EncodeEntries(rest) + [END] == data[next..end]
    ensures EncodeEntries([first] + rest) + [END] == data[i..end]
  {
    hide Encode, EncodeStr;
    var k, e, r := EncodeStr(first.key), Encode(first.value), EncodeEntries(rest);
    assert ([first] + rest)[1..] == rest;
    assert EncodeEntries([first] + rest) == k + e + r;
    assert k + e + r + [END] == k + e + (r + [END]);
    assert data[i..end] == data[i..mid] + data[mid..next] + data[next..end];
  }

  lemma EntryReads(data: Buffer, i: nat, done: seq<Entry>, e: Entry, mid: nat, next: nat)
    requires i < |data| && IsDigit(data[i]) && ScanStr(data, i) == Upto(mid)
    requires e.key == data[Find(data, i, COLON) + 1..mid] && DecodeElement(data, mid) == Ok(Decoded(e.value, next))
    ensures DecodeEntries(data, i, done) == DecodeEntries(data, next, done + [e])
    ensures |e.key| < I64 && EncodeStr(e.key) == data[i..mid]
  {
    hide ScanStr, DecodeElement, DecodeEntries, EncodeStr, Find;
    StrIsEncoding(data, i);
    EntriesStep(data, i, done, e, mid, next);
  }

  lemma {:induction false} EntriesAreEncoding(data: Buffer, i: nat, done: seq<Entry>, last: Option<Buffer>)
    returns (entries: seq<Entry>, all: seq<Entry>)
    requires i <= |data| && ScanEntries(data, i, last).Upto?
    ensures WellFormedEntries(entries) && Ascending(entries) && Above(entries, last)
    ensures EncodeEntries(entries) + [END] == data[i..ScanEntries(data, i, last).next]
    ensures all == done + entries
    ensures DecodeEntries(data, i, done) == Ok(Decoded(Dict(Build(all)), ScanEntries(data, i, last).next))
    decreases |data| - i, 1
  {
    hide Find, ScanStr, ScanElement, ScanItems, DecodeElement, DecodeItems, DecodeEntries, Encode, EncodeStr, Build,
      Less;
    var end := ScanEntries(data, i, last).next;
    if data[i] == END {
      entries, all := [], done;
      ScanEnd(data, i, last);
      EndStep(data, i, [], done);
      assert data[i..end] == [END];
    } else {
      var key, mid, next := ScanEntriesParts(data, i, last);
      var value := ScannedIsEncoding(data, mid);
      var e := Entry(key, value);
      var rest, all' := EntriesAreEncoding(data, next, done + [e], Some(key));
      EntryReads(data, i, done, e, mid, next);
      EntriesJoin(data, i, mid, next, end, e, rest);
      entries, all := [e] + rest, all';
    }
  }

  /** A stretch of bytes is canonical exactly when it decodes and re-encodes to itself. */
  lemma CanonicalIffRoundTrip(data: Buffer, i: nat, next: nat)
    requires i <= next <= |data|
    ensures ScanElement(data, i) == Upto(next) <==>
            exists n :: IsEncodingOf(data, i, next, n)
  {
    if ScanElement(data, i) == Upto(next) {
      var n := ScannedIsEncoding(data, i);
    }
    if n :| IsEncodingOf(data, i, next, n) {
      assert data[i..i + |Encode(n)|] == Encode(n);
      EncodingScans(data, i, n);
    }
  }

  /** Canonical bytes survive decoding and re-encoding. */
  lemma ReencodingCanonical(x: Buffer)
    requires IsCanonical(x)
    ensures Decode(x).Ok? && Encode(Decode(x).value) == x
  {
    var n := ScannedIsEncoding(x, 0);
    assert x[0..|x|] == x;
  }
}
