/** The peer wire messages this client builds and the length prefix it reads (download/message.cpp). */
module Message {
  import opened Bytes

  const CHOKE: byte := 0
  const UNCHOKE: byte := 1
  const INTERESTED: byte := 2
  const BITFIELD: byte := 5
  const REQUEST: byte := 6
  const PIECE: byte := 7

  /** A length-prefixed message: four bytes of length, one byte of id, the payload. */
  function Frame(id: byte, payload: Buffer): (b: Buffer)
    requires |payload| + 1 < U32
    ensures |b| == 5 + |payload|
  {
    BE32(1 + |payload|) + [id] + payload
  }

  function KeepAlive(): Buffer { [0, 0, 0, 0] }

  function Interested(): Buffer { Frame(INTERESTED, []) }

  function Request(index: nat, begin: nat, length: nat): (b: Buffer)
    requires index < U32 && begin < U32 && length < U32
  {
    Frame(REQUEST, BE32(index) + BE32(begin) + BE32(length))
  }

  function PiecePayload(index: nat, begin: nat, data: Buffer): Buffer
    requires index < U32 && begin < U32
  {
    BE32(index) + BE32(begin) + data
  }

  function ReadMessageLength(b: Buffer): nat {
    if |b| < 4 then 0 else At32(b, 0)
  }

  function ReadMessageID(b: Buffer): byte {
    if |b| < 5 then 0 else b[4]
  }

  /** Cutting a frame off the front of a buffer recovers its length, its id, its payload and the rest. */
  lemma FrameParts(id: byte, payload: Buffer, rest: Buffer)
    requires |payload| + 1 < U32
    ensures var b := Frame(id, payload) + rest;
            && ReadMessageLength(b) == 1 + |payload|
            && ReadMessageID(b) == id
            && b[5..5 + |payload|] == payload
            && b[5 + |payload|..] == rest
  {
    var b := Frame(id, payload) + rest;
    assert b == [] + BE32(1 + |payload|) + ([id] + payload + rest);
    At32UndoesBE32([], 1 + |payload|, [id] + payload + rest);
  }

  lemma PieceFields(index: nat, begin: nat, data: Buffer)
    requires index < U32 && begin < U32
    ensures var p := PiecePayload(index, begin, data);
            |p| == 8 + |data| && At32(p, 0) == index && At32(p, 4) == begin && p[8..] == data
  {
    var p := PiecePayload(index, begin, data);
    assert p == [] + BE32(index) + (BE32(begin) + data);
    At32UndoesBE32([], index, BE32(begin) + data);
    At32UndoesBE32(BE32(index), begin, data);
  }

  /** A request on the wire names its piece, its offset and its length, and nothing else. */
  lemma RequestFields(index: nat, begin: nat, length: nat)
    requires index < U32 && begin < U32 && length < U32
    ensures var b := Request(index, begin, length);
            && |b| == 17 && ReadMessageLength(b) == 13 && ReadMessageID(b) == REQUEST
            && At32(b, 5) == index && At32(b, 9) == begin && At32(b, 13) == length
  {
    var b := Request(index, begin, length);
    var payload := BE32(index) + BE32(begin) + BE32(length);
    assert b == b + [];
    FrameParts(REQUEST, payload, []);
    PieceFields(index, begin, BE32(length));
    assert BE32(length) == [] + BE32(length) + [];
    At32UndoesBE32([], length, []);
    assert b[5..9] == payload[0..4] == BE32(index);
    assert b[9..13] == payload[4..8] == BE32(begin);
    assert b[13..17] == BE32(length)[0..4];
    At32Local(b, 5, payload, 0);
    At32Local(b, 9, payload, 4);
    At32Local(b, 13, BE32(length), 0);
  }

  /** Two requests with the same bytes ask for the same range: the encoding is injective. */
  lemma RequestInjective(i: nat, b: nat, l: nat, i': nat, b': nat, l': nat)
    requires i < U32 && b < U32 && l < U32 && i' < U32 && b' < U32 && l' < U32
    requires Request(i, b, l) == Request(i', b', l')
    ensures i == i' && b == b' && l == l'
  {
    RequestFields(i, b, l);
    RequestFields(i', b', l');
  }

  method PushInt32(b: Buffer, val: nat) returns (r: Buffer)
    requires val < U32
    ensures |r| == |b| + 4 && r[..|b|] == b && At32(r, |b|) == val
    ensures r == b + BE32(val)
  {
    r := WriteBE32(b, val);
  }

  method BuildRequest(index: nat, begin: nat, length: nat) returns (b: Buffer)
    requires index < U32 && begin < U32 && length < U32
    ensures |b| == 17 && ReadMessageLength(b) == 13 && ReadMessageID(b) == 6
    ensures At32(b, 5) == index && At32(b, 9) == begin && At32(b, 13) == length
    ensures b == Request(index, begin, length)
  {
    b := PushInt32([], 13);
    b := b + [REQUEST];
    b := PushInt32(b, index);
    b := PushInt32(b, begin);
    b := PushInt32(b, length);
    assert b == Request(index, begin, length);
    RequestFields(index, begin, length);
  }

  method BuildInterested() returns (b: Buffer)
    ensures |b| == 5 && ReadMessageLength(b) == 1 && ReadMessageID(b) == 2
    ensures b == Interested()
  {
    b := PushInt32([], 1);
    b := b + [INTERESTED];
    assert b == Interested() + [];
    FrameParts(INTERESTED, [], []);
  }

  /** "BitTorrent protocol" in ASCII. */
  const PROTOCOL: Buffer := [66, 105, 116, 84, 111, 114, 114, 101, 110, 116, 32, 112, 114, 111, 116, 111, 99, 111, 108]

  function Handshake(infoHash: Buffer, peerId: Buffer): Buffer {
    [19] + PROTOCOL + Zeros(8) + infoHash + peerId
  }

  /** The 68 bytes of the handshake, for a 20-byte info hash and a 20-byte peer id. */
  method BuildHandshake(infoHash: Buffer, peerId: Buffer) returns (hs: Buffer)
    ensures hs == Handshake(infoHash, peerId)
    ensures |infoHash| == 20 && |peerId| == 20 ==>
              |hs| == 68 && hs[0] == 19 && hs[1..20] == PROTOCOL && hs[28..48] == infoHash && hs[48..] == peerId
  {
    hs := [19];
    hs := hs + PROTOCOL;
    var i := 0;
    while i < 8
      invariant 0 <= i <= 8
      invariant hs == [19] + PROTOCOL + Zeros(i)
    {
      hs := hs + [0];
      i := i + 1;
    }
    hs := hs + infoHash;
    hs := hs + peerId;
  }
}
