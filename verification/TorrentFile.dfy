/** Reading a metainfo file (parsing/TorrentFile.cpp): its fields, its piece digests, and the bytes of the info hash. */
module TorrentFile {
  import opened Exceptions
  import opened Bytes
  import opened Numbers
  import opened Bnode
  import opened BnodeLaws
  import opened Canonical
  import BnodeCodec
  import Torrents

  datatype Metainfo = Metainfo(
    announce: Buffer, name: Buffer, length: int, pieceLength: int, pieceHashes: seq<Buffer>, infoHash: Buffer)

  const ANNOUNCE: Buffer := [97, 110, 110, 111, 117, 110, 99, 101]
  const INFO: Buffer := [105, 110, 102, 111]
  const NAME: Buffer := [110, 97, 109, 101]
  const PIECE_LENGTH: Buffer := [112, 105, 101, 99, 101, 32, 108, 101, 110, 103, 116, 104]
  const LENGTH: Buffer := [108, 101, 110, 103, 116, 104]
  const PIECES: Buffer := [112, 105, 101, 99, 101, 115]

  /** The bytes of a text in ASCII. */
  function Ascii(s: string): Buffer
    requires forall k :: 0 <= k < |s| ==> s[k] < 128 as char
  {
    seq(|s|, k requires 0 <= k < |s| => s[k] as int)
  }

  /** The keys that are looked up. */
  lemma KeysAre()
    ensures ANNOUNCE == Ascii("announce") && INFO == Ascii("info") && NAME == Ascii("name")
    ensures PIECE_LENGTH == Ascii("piece length") && LENGTH == Ascii("length") && PIECES == Ascii("pieces")
  {
  }

  // ---- What a file must hold ----

  predicate StringAt(d: seq<Entry>, key: Buffer) {
    Lookup(d, key).Some? && Lookup(d, key).value.Str?
  }

  predicate IntAt(d: seq<Entry>, key: Buffer) {
    Lookup(d, key).Some? && Lookup(d, key).value.Int?
  }

  predicate DictAt(d: seq<Entry>, key: Buffer) {
    Lookup(d, key).Some? && Lookup(d, key).value.Dict?
  }

  /** The dictionary of a single-file torrent. */
  predicate IsInfo(info: seq<Entry>) {
    && StringAt(info, NAME) && IntAt(info, PIECE_LENGTH) && IntAt(info, LENGTH) && StringAt(info, PIECES)
    && |Lookup(info, PIECES).value.s| % 20 == 0
  }

  predicate Loadable(data: Buffer) {
    var r := Bnode.Decode(data);
    && r.Ok? && r.value.Dict?
    && StringAt(r.value.entries, ANNOUNCE) && DictAt(r.value.entries, INFO)
    && IsInfo(Lookup(r.value.entries, INFO).value.entries)
  }

  function InfoOf(data: Buffer): Node
    requires Loadable(data)
  {
    Lookup(Bnode.Decode(data).value.entries, INFO).value
  }

  /** The digests are the blob cut into 20-byte chunks, nothing more and nothing less. */
  predicate CutsInto(blob: Buffer, hashes: seq<Buffer>) {
    |blob| == 20 * |hashes| && forall k :: 0 <= k < |hashes| ==> hashes[k] == blob[20 * k..20 * k + 20]
  }

  /** What loading promises of its result. */
  ghost predicate Describes(data: Buffer, sha1: Buffer -> Buffer, t: Metainfo)
    requires Loadable(data)
  {
    var root, info := Bnode.Decode(data).value.entries, InfoOf(data).entries;
    && Lookup(root, ANNOUNCE) == Some(Str(t.announce))
    && Lookup(info, NAME) == Some(Str(t.name))
    && Lookup(info, LENGTH) == Some(Int(t.length))
    && Lookup(info, PIECE_LENGTH) == Some(Int(t.pieceLength))
    && CutsInto(Lookup(info, PIECES).value.s, t.pieceHashes)
    && t.infoHash == sha1(Encode(InfoOf(data)))
  }

  // ---- std::map::at and the typed getters ----

  function MapAt(d: seq<Entry>, key: Buffer): Result<Node> {
    match Lookup(d, key)
    case None => Throw(OutOfRange)
    case Some(n) => Ok(n)
  }

  function GetString(r: Result<Node>): Result<Buffer> {
    match r
    case Throw(f) => Throw(f)
    case Ok(n) => if n.Str? then Ok(n.s) else Throw(RuntimeError("Type mismatch: Expected String"))
  }

  function GetInt(r: Result<Node>): Result<int> {
    match r
    case Throw(f) => Throw(f)
    case Ok(n) => if n.Int? then Ok(n.v) else Throw(RuntimeError("Type mismatch: Expected Int"))
  }

  function GetDict(r: Result<Node>): Result<seq<Entry>> {
    match r
    case Throw(f) => Throw(f)
    case Ok(n) => if n.Dict? then Ok(n.entries) else Throw(RuntimeError("Type mismatch: Expected Dict"))
  }

  // ---- Which exception a file gives that does not load ----

  function StringFault(d: seq<Entry>, key: Buffer): Option<Fault> {
    match Lookup(d, key)
    case None => Some(OutOfRange)
    case Some(n) => if n.Str? then None else Some(RuntimeError("Type mismatch: Expected String"))
  }

  function IntFault(d: seq<Entry>, key: Buffer): Option<Fault> {
    match Lookup(d, key)
    case None => Some(OutOfRange)
    case Some(n) => if n.Int? then None else Some(RuntimeError("Type mismatch: Expected Int"))
  }

  /** A key that is looked for before it is read has a message of its own when it is missing. */
  function MissingFault(d: seq<Entry>, key: Buffer, what: string): Option<Fault> {
    if Lookup(d, key).None? then Some(RuntimeError(what)) else None
  }

  /** The first fault, or else the later one. */
  function Before(first: Option<Fault>, later: Option<Fault>): Option<Fault> {
    if first.Some? then first else later
  }

  function PiecesFault(info: seq<Entry>): Option<Fault> {
    if StringAt(info, PIECES) && |Lookup(info, PIECES).value.s| % 20 != 0
    then Some(RuntimeError("Invalid pieces length"))
    else StringFault(info, PIECES)
  }

  function InfoFault(info: seq<Entry>): Option<Fault> {
    Before(StringFault(info, NAME),
           Before(IntFault(info, PIECE_LENGTH),
                  Before(MissingFault(info, LENGTH, "Multi-file torrents not supported yet"),
                         Before(IntFault(info, LENGTH), PiecesFault(info)))))
  }

  function RootFault(root: seq<Entry>): Option<Fault> {
    Before(StringFault(root, ANNOUNCE),
           Before(MissingFault(root, INFO, "Invalid Torrent: Missing info"),
                  if DictAt(root, INFO) then InfoFault(Lookup(root, INFO).value.entries)
                  else Some(RuntimeError("Type mismatch: Expected Dict"))))
  }

  /** The exception that loading `data` ends with, if any: the first of these faults, in this order. */
  function LoadFault(data: Buffer): (f: Option<Fault>)
    ensures f.None? <==> Loadable(data)
  {
    match Bnode.Decode(data)
    case Throw(f) => Some(f)
    case Ok(n) => if n.Dict? then RootFault(n.entries) else Some(RuntimeError("Type mismatch: Expected Dict"))
  }

  // ---- Loading ----

  method CutPieces(blob: Buffer) returns (hashes: seq<Buffer>)
    requires |blob| % 20 == 0
    ensures CutsInto(blob, hashes)
  {
    hashes := [];
    var i := 0;
    while i < |blob|
      invariant 0 <= i <= |blob| && i == 20 * |hashes|
      invariant forall k :: 0 <= k < |hashes| ==> hashes[k] == blob[20 * k..20 * k + 20]
    {
      hashes := hashes + [blob[i..i + 20]];
      i := i + 20;
    }
  }

  /** A file loads exactly when it holds what it must; the result describes it, and a failure is its first fault. */
  method Load(data: Buffer, sha1: Buffer -> Buffer) returns (r: Result<Metainfo>)
    ensures r.Ok? <==> Loadable(data)
    ensures r.Ok? ==> Describes(data, sha1, r.value)
    ensures r.Throw? ==> LoadFault(data) == Some(r.fault)
  {
    hide Bnode.Decode, Encode, Lookup;
    var decoded := BnodeCodec.Decode(data);
    var rootDict := GetDict(decoded);
    if rootDict.Throw? { return Throw(rootDict.fault); }

    var announce := GetString(MapAt(rootDict.value, ANNOUNCE));
    if announce.Throw? { return Throw(announce.fault); }

    if Lookup(rootDict.value, INFO).None? { return Throw(RuntimeError("Invalid Torrent: Missing info")); }
    var infoNode := Lookup(rootDict.value, INFO).value;
    var infoDict := GetDict(Ok(infoNode));
    if infoDict.Throw? { return Throw(infoDict.fault); }

    var name := GetString(MapAt(infoDict.value, NAME));
    if name.Throw? { return Throw(name.fault); }
    var pieceLength := GetInt(MapAt(infoDict.value, PIECE_LENGTH));
    if pieceLength.Throw? { return Throw(pieceLength.fault); }

    if Lookup(infoDict.value, LENGTH).None? {
      return Throw(RuntimeError("Multi-file torrents not supported yet"));
    }
    var length := GetInt(MapAt(infoDict.value, LENGTH));
    if length.Throw? { return Throw(length.fault); }

    var piecesBlob := GetString(MapAt(infoDict.value, PIECES));
    if piecesBlob.Throw? { return Throw(piecesBlob.fault); }
    if |piecesBlob.value| % 20 != 0 { return Throw(RuntimeError("Invalid pieces length")); }
    var hashes := CutPieces(piecesBlob.value);

    var infoBytes := BnodeCodec.EncodeNode(infoNode);
    r := Ok(Metainfo(announce.value, name.value, length.value, pieceLength.value, hashes, sha1(infoBytes)));
  }

  // ---- Which loaded files the download can work on ----

  /** What the download takes from a loaded file; `digest` is what pieces are hashed with. */
  function TorrentOf(m: Metainfo, digest: Buffer -> Buffer): Torrents.Torrent
    requires 0 <= m.length && 0 <= m.pieceLength
  {
    Torrents.Torrent(m.length, m.pieceLength, m.pieceHashes, m.infoHash, digest)
  }

  lemma CeilingIs(x: nat, d: nat, n: nat)
    requires d > 0
    ensures n == (x + d - 1) / d <==> x <= n * d && (n > 0 ==> (n - 1) * d < x)
  {
    var q := (x + d - 1) / d;
    assert q * d <= x + d - 1 < q * d + d;
    if n < q {
      Torrents.MulGap(n, q, d);
    } else if q < n {
      Torrents.MulGap(q, n, d);
      assert (n - 1) * d == n * d - d;
    } else if n > 0 {
      assert (n - 1) * d == n * d - d;
    }
  }

  /**
    The laws of the download take a valid torrent.  A loaded file gives one exactly when its piece length is positive
    and its pieces are 20 bytes for each of ceil(length / piece length) pieces, all within an int.
   */
  lemma ValidTorrentIff(data: Buffer, sha1: Buffer -> Buffer, m: Metainfo, digest: Buffer -> Buffer)
    requires Loadable(data) && Describes(data, sha1, m) && 0 <= m.length && 0 <= m.pieceLength
    ensures Torrents.Valid(TorrentOf(m, digest)) <==>
            && 0 < m.pieceLength < I32
            && |Lookup(InfoOf(data).entries, PIECES).value.s| < 20 * I32
            && |Lookup(InfoOf(data).entries, PIECES).value.s| == 20 * ((m.length + m.pieceLength - 1) / m.pieceLength)
  {
    if m.pieceLength > 0 {
      CeilingIs(m.length, m.pieceLength, |m.pieceHashes|);
    }
  }

  // ---- Decoded nodes are well-formed ----

  lemma {:induction false} InsertWellFormed(entries: seq<Entry>, key: Buffer, value: Node)
    requires WellFormedEntries(entries) && |key| < I64 && WellFormed(value)
    ensures WellFormedEntries(Insert(entries, key, value))
  {
    if entries == [] {
    } else {
      InsertWellFormed(entries[1..], key, value);
      var r := Insert(entries, key, value);
      if entries[0].key == key || !Less(key, entries[0].key) {
        assert r[1..] == if entries[0].key == key then entries[1..] else Insert(entries[1..], key, value);
      } else {
        assert r[1..] == entries;
      }
    }
  }

  lemma {:induction false} ItemsSnoc(items: seq<Node>, n: Node)
    requires WellFormedItems(items) && WellFormed(n)
    ensures WellFormedItems(items + [n])
  {
    if items == [] {
    } else {
      ItemsSnoc(items[1..], n);
      assert (items + [n])[1..] == items[1..] + [n];
    }
  }

  lemma ItemsEmpty()
    ensures WellFormedItems([])
  {
  }

  lemma BuildEmpty()
    ensures WellFormedEntries(Build([]))
  {
  }

  lemma {:induction false} DecodedIsWellFormed(data: Buffer, i: nat)
    requires i <= |data| && DecodeElement(data, i).Ok?
    ensures WellFormed(DecodeElement(data, i).value.node)
    decreases |data| - i, 0
  {
    hide Stoll, Build, WellFormedItems, WellFormedEntries;
    if data[i] == LIST {
      OpenStep(data, i);
      ItemsEmpty();
      ItemsWellFormed(data, i + 1, []);
    } else if data[i] == DICT {
      OpenStep(data, i);
      BuildEmpty();
      EntriesWellFormed(data, i + 1, []);
    }
  }

  lemma {:induction false} ItemsWellFormed(data: Buffer, i: nat, items: seq<Node>)
    requires i <= |data| && DecodeItems(data, i, items).Ok? && WellFormedItems(items)
    ensures WellFormed(DecodeItems(data, i, items).value.node)
    decreases |data| - i, 1
  {
    hide DecodeElement, WellFormedItems;
    if data[i] == END {
    } else {
      DecodedIsWellFormed(data, i);
      var d := DecodeElement(data, i).value;
      ItemsSnoc(items, d.node);
      ItemsWellFormed(data, d.next, items + [d.node]);
    }
  }

  lemma BuildMore(pairs: seq<Entry>, e: Entry)
    requires WellFormedEntries(Build(pairs)) && |e.key| < I64 && WellFormed(e.value)
    ensures WellFormedEntries(Build(pairs + [e]))
  {
    assert (pairs + [e])[..|pairs|] == pairs;
    InsertWellFormed(Build(pairs), e.key, e.value);
  }

  lemma {:induction false} EntriesWellFormed(data: Buffer, i: nat, pairs: seq<Entry>)
    requires i <= |data| && DecodeEntries(data, i, pairs).Ok? && WellFormedEntries(Build(pairs))
    ensures WellFormed(DecodeEntries(data, i, pairs).value.node)
    decreases |data| - i, 1
  {
    hide DecodeElement, WellFormedEntries, Build, Ascending;
    if data[i] == END {
      BuildIsAscending(pairs);
    } else {
      var k := DecodeElement(data, i).value;
      DecodedIsWellFormed(data, i);
      DecodedIsWellFormed(data, k.next);
      var d := DecodeElement(data, k.next).value;
      BuildMore(pairs, Entry(k.node.s, d.node));
      EntriesWellFormed(data, d.next, pairs + [Entry(k.node.s, d.node)]);
    }
  }

  // ---- The info hash is taken over the bytes of the file ----

  datatype Span = Span(from: nat, to: nat)

  /** Walking over the entries of the top-level dictionary: where the value of its last `info` key stands. */
  function InfoSpan(data: Buffer, i: nat, found: Option<Span>): Option<Span>
    requires i <= |data|
    decreases |data| - i
  {
    if i == |data| || data[i] == END then found
    else
      match DecodeElement(data, i)
      case Throw(_) => found
      case Ok(k) =>
        match DecodeElement(data, k.next)
        case Throw(_) => found
        case Ok(d) => InfoSpan(data, d.next, if k.node == Str(INFO) then Some(Span(k.next, d.next)) else found)
  }

  /** What a span holds is what the dictionary has under `info`. */
  ghost predicate Holds(data: Buffer, span: Option<Span>, n: Option<Node>) {
    match span
    case None => n.None?
    case Some(s) => s.from <= |data| && n.Some? && DecodeElement(data, s.from) == Ok(Decoded(n.value, s.to))
  }

  lemma LookupMore(pairs: seq<Entry>, e: Entry)
    ensures Lookup(Build(pairs + [e]), INFO) == if e.key == INFO then Some(e.value) else Lookup(Build(pairs), INFO)
  {
    assert (pairs + [e])[..|pairs|] == pairs;
    InsertIsMapUpdate(Build(pairs), e.key, e.value, INFO);
  }

  lemma {:induction false} SpanIsInfo(data: Buffer, i: nat, pairs: seq<Entry>, found: Option<Span>)
    requires i <= |data| && DecodeEntries(data, i, pairs).Ok? && Holds(data, found, Lookup(Build(pairs), INFO))
    ensures var r := DecodeEntries(data, i, pairs).value.node;
            r.Dict? && Holds(data, InfoSpan(data, i, found), Lookup(r.entries, INFO))
    decreases |data| - i
  {
    hide DecodeElement, Build, Lookup;
    if data[i] == END {
    } else {
      var k := DecodeElement(data, i).value;
      var d := DecodeElement(data, k.next).value;
      var e := Entry(k.node.s, d.node);
      var found' := if k.node == Str(INFO) then Some(Span(k.next, d.next)) else found;
      LookupMore(pairs, e);
      SpanIsInfo(data, d.next, pairs + [e], found');
    }
  }

  /** In a canonical dictionary the bytes of the info value are canonical themselves. */
  lemma {:induction false} CanonicalSpan(data: Buffer, i: nat, last: Option<Buffer>, found: Option<Span>)
    requires i <= |data| && ScanEntries(data, i, last).Upto?
    requires found.Some? ==> found.value.from <= |data| && ScanElement(data, found.value.from) == Upto(found.value.to)
    ensures var s := InfoSpan(data, i, found);
            s.Some? ==> s.value.from <= |data| && ScanElement(data, s.value.from) == Upto(s.value.to)
    decreases |data| - i
  {
    hide DecodeElement, ScanElement, ScanStr, Find, Less;
    if data[i] == END {
    } else {
      var key, mid, next := ScanEntriesParts(data, i, last);
      var value := ScannedIsEncoding(data, mid);
      StrIsEncoding(data, i);
      CanonicalSpan(data, next, Some(key), if Str(key) == Str(INFO) then Some(Span(mid, next)) else found);
    }
  }

  lemma {:induction false} ListGivesList(data: Buffer, i: nat, items: seq<Node>)
    requires i <= |data|
    ensures DecodeItems(data, i, items).Ok? ==> DecodeItems(data, i, items).value.node.List?
    decreases |data| - i
  {
    hide DecodeElement;
    if i >= |data| || data[i] == END || DecodeElement(data, i).Throw? {
    } else {
      var d := DecodeElement(data, i).value;
      ListGivesList(data, d.next, items + [d.node]);
    }
  }

  lemma RootOpens(data: Buffer)
    requires Loadable(data)
    ensures data != [] && data[0] == DICT && DecodeElement(data, 0) == DecodeEntries(data, 1, [])
    ensures Lookup(Build([]), INFO) == None
  {
    hide DecodeItems, DecodeEntries, Stoll;
    assert DecodeElement(data, 0).Ok?;
    if data[0] == LIST { ListGivesList(data, 1, []); }
  }

  /**
    The bytes hashed for the info hash are the bytes of the info value in the file exactly when that value is written
    canonically.
   */
  lemma InfoBytesAreFileBytesIff(data: Buffer) returns (s: Span)
    requires Loadable(data)
    ensures InfoSpan(data, 1, None) == Some(s) && s.from < s.to <= |data|
    ensures DecodeElement(data, s.from) == Ok(Decoded(InfoOf(data), s.to))
    ensures Encode(InfoOf(data)) == data[s.from..s.to] <==> ScanElement(data, s.from) == Upto(s.to)
  {
    RootOpens(data);
    SpanIsInfo(data, 1, [], None);
    s := InfoSpan(data, 1, None).value;
    DecodedIsWellFormed(data, s.from);
    CanonicalIffRoundTrip(data, s.from, s.to);
    if n :| IsEncodingOf(data, s.from, s.to, n) {
      assert n == InfoOf(data);
    }
    if Encode(InfoOf(data)) == data[s.from..s.to] {
      assert IsEncodingOf(data, s.from, s.to, InfoOf(data));
    }
  }

  /** For a canonical metainfo file the info hash is over the exact bytes of `info` in the file. */
  lemma InfoHashOfCanonicalFile(data: Buffer) returns (s: Span)
    requires Loadable(data) && IsCanonical(data)
    ensures InfoSpan(data, 1, None) == Some(s) && s.from < s.to <= |data|
    ensures Encode(InfoOf(data)) == data[s.from..s.to]
  {
    s := InfoBytesAreFileBytesIff(data);
    RootOpens(data);
    CanonicalSpan(data, 1, None, None);
  }

  // ---- A file that loads although its info hash is not over its own bytes ----

  /** A number with a zero in front, as in i01e. */
  function Padded(v: nat): Buffer {
    [INT, ZERO] + Digits(v) + [END]
  }

  /** The fields of an info dictionary after its length. */
  function OtherFields(name: Buffer, pieceLength: int, blob: Buffer): seq<Entry> {
    [Entry(NAME, Str(name)), Entry(PIECE_LENGTH, Int(pieceLength)), Entry(PIECES, Str(blob))]
  }

  function Fields(length: nat, others: seq<Entry>): seq<Entry> {
    [Entry(LENGTH, Int(length))] + others
  }

  /** Canonical in all but the zero in front of the length. */
  function PaddedInfo(length: nat, others: seq<Entry>): Buffer {
    [DICT] + (EncodeStr(LENGTH) + Padded(length) + EncodeEntries(others)) + [END]
  }

  function PaddedFile(announce: Buffer, info: Buffer): Buffer {
    [DICT] + (EncodeStr(ANNOUNCE) + EncodeStr(announce) + (EncodeStr(INFO) + info)) + [END]
  }

  lemma PaddedReads(data: Buffer, i: nat, v: nat)
    requires Fits64(v) && At(data, i, Padded(v))
    ensures DecodeElement(data, i) == Ok(Decoded(Int(v), i + |Padded(v)|))
  {
    hide Stoll, Digits, Find, DecodeElement;
    var text := [ZERO] + Digits(v);
    assert Padded(v) == [INT] + text + [END];
    OpenAt(data, i, INT, text);
    TextHasNoEnd(v);
    assert forall k :: 0 < k < |text| ==> text[k] == ToText(v)[k - 1];
    FindAfter(data, i + 1, text, END);
    StollDropsZero(v);
    BnodeLaws.IntAt(data, i, i + 1 + |text|, v);
  }

  /** An entry of a dictionary: a key, and whatever its value reads as. */
  lemma EntryReads(data: Buffer, i: nat, done: seq<Entry>, e: Entry, bytes: Buffer, rest: Buffer, next: nat)
    requires |e.key| < I64 && At(data, i, EncodeStr(e.key) + bytes + rest + [END])
    requires DecodeElement(data, i + |EncodeStr(e.key)|) == Ok(Decoded(e.value, next))
    ensures i < |data| && data[i] != END && DecodeElement(data, i) == Ok(Decoded(Str(e.key), i + |EncodeStr(e.key)|))
    ensures DecodeEntries(data, i, done) == DecodeEntries(data, next, done + [e])
  {
    hide DecodeElement, DecodeEntries, EncodeStr;
    AtSplitEntry(data, i, EncodeStr(e.key), bytes, rest, [END]);
    StrRoundTrip(data, i, e.key);
    AtHead(data, i, EncodeStr(e.key));
    HeadIsNotEnd(Str(e.key));
    OneEntry(data, i, done, e, i + |EncodeStr(e.key)|, next);
  }

  lemma AscendingCons(e: Entry, entries: seq<Entry>)
    requires Ascending(entries) && (entries != [] ==> Less(e.key, entries[0].key))
    ensures Ascending([e] + entries)
  {
    assert ([e] + entries)[1..] == entries;
  }

  lemma AscendingOne(entries: seq<Entry>)
    requires |entries| == 1
    ensures Ascending(entries)
  {
  }

  lemma KeysAscend()
    ensures Less(LENGTH, NAME) && Less(NAME, PIECE_LENGTH) && Less(PIECE_LENGTH, PIECES)
  {
    assert LessAt(PIECE_LENGTH, PIECES, 5);
    LessMeans(PIECE_LENGTH, PIECES);
  }

  lemma FieldsAscend(length: nat, name: Buffer, pieceLength: int, blob: Buffer)
    ensures Ascending(Fields(length, OtherFields(name, pieceLength, blob)))
  {
    hide Ascending, Less;
    KeysAscend();
    var pieces := [Entry(PIECES, Str(blob))];
    var last2 := [Entry(PIECE_LENGTH, Int(pieceLength))] + pieces;
    AscendingOne(pieces);
    AscendingCons(last2[0], pieces);
    AscendingCons(Entry(NAME, Str(name)), last2);
    assert OtherFields(name, pieceLength, blob) == [Entry(NAME, Str(name))] + last2;
    AscendingCons(Entry(LENGTH, Int(length)), OtherFields(name, pieceLength, blob));
  }

  lemma PaddedInfoReads(data: Buffer, i: nat, length: nat, others: seq<Entry>)
    requires Fits64(length) && WellFormedEntries(others) && Ascending(Fields(length, others))
    requires At(data, i, PaddedInfo(length, others))
    ensures DecodeElement(data, i) == Ok(Decoded(Dict(Fields(length, others)), i + |PaddedInfo(length, others)|))
  {
    hide DecodeElement, DecodeEntries, EncodeStr, EncodeEntries, Padded, Build, Ascending;
    var key, number, rest := EncodeStr(LENGTH), Padded(length), EncodeEntries(others);
    OpenAt(data, i, DICT, key + number + rest);
    OpenStep(data, i);
    AtSplitEntry(data, i + 1, key, number, rest, [END]);
    var mid := i + 1 + |key|;
    var next := mid + |number|;
    PaddedReads(data, mid, length);
    EntryReads(data, i + 1, [], Entry(LENGTH, Int(length)), number, rest, next);
    assert [] + [Entry(LENGTH, Int(length))] == [Entry(LENGTH, Int(length))];
    EntriesRoundTrip(data, next, others, [Entry(LENGTH, Int(length))], Fields(length, others), next + |rest| + 1);
    BuildAscending(Fields(length, others));
  }

  lemma SpanStep(data: Buffer, i: nat, found: Option<Span>, key: Buffer, mid: nat, value: Node, next: nat)
    requires i < |data| && data[i] != END && DecodeElement(data, i) == Ok(Decoded(Str(key), mid))
    requires mid <= |data| && DecodeElement(data, mid) == Ok(Decoded(value, next)) && next <= |data|
    ensures InfoSpan(data, i, found) == InfoSpan(data, next, if key == INFO then Some(Span(mid, next)) else found)
  {
  }

  /** Where the info value of the file starts. */
  function InfoStart(announce: Buffer): nat {
    1 + |EncodeStr(ANNOUNCE)| + |EncodeStr(announce)| + |EncodeStr(INFO)|
  }

  lemma FileParts(announce: Buffer, info: Buffer)
    ensures var data := PaddedFile(announce, info);
            var ka, va, ki := EncodeStr(ANNOUNCE), EncodeStr(announce), EncodeStr(INFO);
            && data[0] == DICT && |data| == InfoStart(announce) + |info| + 1
            && At(data, 1, ka + va + (ki + info) + [END]) && At(data, 1 + |ka|, va)
            && At(data, 1 + |ka| + |va|, ki + info + [] + [END])
            && At(data, InfoStart(announce), info) && data[InfoStart(announce) + |info|] == END
  {
    hide EncodeStr;
    var data, ka, va, ki := PaddedFile(announce, info), EncodeStr(ANNOUNCE), EncodeStr(announce), EncodeStr(INFO);
    assert data[0..0 + |data|] == data;
    OpenAt(data, 0, DICT, ka + va + (ki + info));
    AtSplitEntry(data, 1, ka, va, ki + info, [END]);
    assert ki + info + [] == ki + info;
    AtSplitEntry(data, 1 + |ka| + |va|, ki, info, [], [END]);
    AtHead(data, InfoStart(announce) + |info|, [] + [END]);
  }

  lemma SpanEnds(data: Buffer, i: nat, found: Option<Span>)
    requires i < |data| && data[i] == END
    ensures InfoSpan(data, i, found) == found
  {
  }

  lemma RootAscends(announce: Buffer, n: Node)
    ensures var root := [Entry(ANNOUNCE, Str(announce)), Entry(INFO, n)]; Build(root) == root
  {
    BuildAscending([Entry(ANNOUNCE, Str(announce)), Entry(INFO, n)]);
  }

  lemma FileReads(announce: Buffer, info: Buffer, n: Node)
    requires |announce| < I64
    requires var data, at := PaddedFile(announce, info), InfoStart(announce);
             at <= |data| && DecodeElement(data, at) == Ok(Decoded(n, at + |info|))
    ensures var data, at := PaddedFile(announce, info), InfoStart(announce);
            && DecodeElement(data, 0) == Ok(Decoded(Dict([Entry(ANNOUNCE, Str(announce)), Entry(INFO, n)]), |data|))
            && InfoSpan(data, 1, None) == Some(Span(at, at + |info|)) && data[at..at + |info|] == info
  {
    hide DecodeElement, DecodeEntries, EncodeStr, Build, InfoSpan, PaddedFile;
    var data, at := PaddedFile(announce, info), InfoStart(announce);
    var ka, va := EncodeStr(ANNOUNCE), EncodeStr(announce);
    var first, second := Entry(ANNOUNCE, Str(announce)), Entry(INFO, n);
    var mid := 1 + |ka| + |va|;
    FileParts(announce, info);
    OpenStep(data, 0);
    StrRoundTrip(data, 1 + |ka|, announce);
    EntryReads(data, 1, [], first, va, EncodeStr(INFO) + info, mid);
    EntryReads(data, mid, [first], second, info, [], at + |info|);
    assert [] + [first] == [first] && [first] + [second] == [first, second];
    EndStep(data, at + |info|, [], [first, second]);
    RootAscends(announce, n);
    SpanStep(data, 1, None, ANNOUNCE, 1 + |ka|, first.value, mid);
    SpanStep(data, mid, None, INFO, at, n, at + |info|);
    SpanEnds(data, at + |info|, Some(Span(at, at + |info|)));
  }

  lemma LookupNext(entries: seq<Entry>, key: Buffer)
    requires entries != []
    ensures entries[0].key != key ==> Lookup(entries, key) == Lookup(entries[1..], key)
    ensures |entries| > 1 && entries[0].key != key && entries[1].key == key ==>
              Lookup(entries, key) == Some(entries[1].value)
  {
  }

  /** The fields of the file are found where they should be. */
  lemma FieldsAreThere(announce: Buffer, name: Buffer, length: nat, pieceLength: int, blob: Buffer)
    requires |blob| % 20 == 0
    ensures var info := Fields(length, OtherFields(name, pieceLength, blob));
            var root := [Entry(ANNOUNCE, Str(announce)), Entry(INFO, Dict(info))];
            && IsInfo(info) && Lookup(root, INFO) == Some(Dict(info)) && StringAt(root, ANNOUNCE)
  {
    var info := Fields(length, OtherFields(name, pieceLength, blob));
    assert Lookup(info, LENGTH) == Some(Int(length));
    assert info[1..] == OtherFields(name, pieceLength, blob);
    LookupNext(info, NAME);
    LookupNext(info, PIECE_LENGTH);
    LookupNext(info[1..], PIECE_LENGTH);
    LookupNext(info, PIECES);
    LookupNext(info[1..], PIECES);
    LookupNext(info[2..], PIECES);
  }

  lemma WellFormedCons(e: Entry, entries: seq<Entry>)
    requires |e.key| < I64 && WellFormed(e.value) && WellFormedEntries(entries)
    ensures WellFormedEntries([e] + entries)
  {
    assert ([e] + entries)[1..] == entries;
  }

  lemma OthersWellFormed(name: Buffer, pieceLength: int, blob: Buffer)
    requires |name| < I64 && |blob| < I64 && Fits64(pieceLength)
    ensures WellFormedEntries(OtherFields(name, pieceLength, blob))
  {
    var pieces := [Entry(PIECES, Str(blob))];
    WellFormedCons(pieces[0], []);
    assert pieces == [pieces[0]] + [];
    var last2 := [Entry(PIECE_LENGTH, Int(pieceLength))] + pieces;
    WellFormedCons(last2[0], pieces);
    WellFormedCons(Entry(NAME, Str(name)), last2);
    assert OtherFields(name, pieceLength, blob) == [Entry(NAME, Str(name))] + last2;
  }

  lemma PaddedLength(v: nat)
    ensures |Encode(Int(v))| + 1 == |Padded(v)|
  {
    hide Digits;
    assert ToText(v) == Digits(v);
  }

  lemma PaddedIsLonger(length: nat, others: seq<Entry>)
    ensures |Encode(Dict(Fields(length, others)))| + 1 == |PaddedInfo(length, others)|
  {
    hide EncodeStr, Digits, Padded;
    var info := Fields(length, others);
    assert info[1..] == others && info[0] == Entry(LENGTH, Int(length));
    assert |Encode(Int(length))| + 1 == |Padded(length)| by { PaddedLength(length); }
    assert EncodeEntries(info) == EncodeStr(LENGTH) + Encode(Int(length)) + EncodeEntries(others);
  }

  /**
    A file can load although its info hash is not over its own bytes.  Whatever the other fields are, a zero in front of
    the length, as in d8:announce0:4:infod6:lengthi01e4:name0:12:piece lengthi1e6:pieces0:ee, is lost: the bytes
    hashed are one byte shorter than the info value of the file.
   */
  lemma LeadingZeroIsLost(announce: Buffer, name: Buffer, length: nat, pieceLength: int, blob: Buffer) returns (s: Span)
    requires |announce| < I64 && |name| < I64 && |blob| < I64 && |blob| % 20 == 0
    requires Fits64(length) && Fits64(pieceLength)
    ensures var info := PaddedInfo(length, OtherFields(name, pieceLength, blob));
            var x := PaddedFile(announce, info);
            && Loadable(x) && InfoSpan(x, 1, None) == Some(s) && s.from <= s.to <= |x| && x[s.from..s.to] == info
            && |Encode(InfoOf(x))| + 1 == |info| && Encode(InfoOf(x)) != x[s.from..s.to]
  {
    hide DecodeElement, EncodeStr, PaddedFile, Ascending, InfoSpan, Lookup, EncodeEntries, Fields, OtherFields;
    var others := OtherFields(name, pieceLength, blob);
    var info, n := PaddedInfo(length, others), Dict(Fields(length, others));
    var x, at := PaddedFile(announce, info), InfoStart(announce);
    s := Span(at, at + |info|);
    FileParts(announce, info);
    FieldsAscend(length, name, pieceLength, blob);
    OthersWellFormed(name, pieceLength, blob);
    PaddedInfoReads(x, at, length, others);
    FileReads(announce, info, n);
    FieldsAreThere(announce, name, length, pieceLength, blob);
    PaddedIsLonger(length, others);
  }
}
