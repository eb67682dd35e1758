// apps/bam-coprocessor/lib/src/lib.rs: the second decoder of the batch format, and the bytes under the message set
// commitment.
module Coprocessor {
  import opened Wrappers
  import opened Bytes
  import opened BigEndian
  import opened BatchCodec
  import opened Segment

  const MIN_RECORD_SIZE: nat := 97

  datatype PayloadError =
    | TooShort
    | BadVersion(version: byte)
    | UnsupportedCodec(codec: byte)
    | TruncatedRecord
    | TrailingBytes(consumed: nat, payloadLen: nat)
    | MsgCountTooLarge(declared: nat, payloadLen: nat)

  function NoZstd(b: bytes): Option<bytes> {
    None
  }

  /** The early limit on the declared count turns away no buffer that says something. */
  lemma {:induction false} CountLimitRejectsNothing(data: bytes, d: Decoded)
    requires Says(data, NoZstd, d)
    ensures data[1] == CODEC_NONE && Count(data) <= PayloadLen(data) / MIN_RECORD_SIZE
  {
    PayloadSize(d.messages, d.signatures);
    hide Payload, Value, AllWellFormed, TotalSize;
  }

  function MaxRecords(payloadLen: nat): nat {
    payloadLen / MIN_RECORD_SIZE
  }

  lemma {:induction false} TooManyDeclared(data: bytes)
    requires HeaderGood(data) && data[1] == CODEC_NONE && Count(data) > MaxRecords(PayloadLen(data))
    ensures forall d :: !Says(data, NoZstd, d)
  {
    forall d ensures !Says(data, NoZstd, d) {
      if Says(data, NoZstd, d) {
        CountLimitRejectsNothing(data, d);
      }
    }
  }

  /** How this decoder names what is wrong with a payload of `size` bytes. */
  predicate Names(e: PayloadError, f: DecodeError, size: nat) {
    match f
    case RecordHeaderPast(_) => e == TruncatedRecord
    case RecordBodyPast(_) => e == TruncatedRecord
    case TrailingBytes(left) => e.TrailingBytes? && e.consumed + left == size == e.payloadLen
    case _ => false
  }

  ghost predicate RecordsComplaint(payload: bytes, msgCount: nat, e: PayloadError) {
    exists f :: PayloadComplaint(payload, msgCount, f) && Names(e, f, |payload|)
  }

  /** The first thing wrong with a buffer, as this decoder looks at it. */
  ghost predicate BamComplaint(data: bytes, e: PayloadError) {
    if |data| < 10 then e == PayloadError.TooShort
    else if data[0] != 0x02 then e == PayloadError.BadVersion(data[0])
    else if data[1] != 0x00 then e == UnsupportedCodec(data[1])
    else if 10 + PayloadLen(data) > |data| then e == TruncatedRecord
    else if Count(data) > MaxRecords(PayloadLen(data)) then e == MsgCountTooLarge(Count(data), PayloadLen(data))
    else RecordsComplaint(data[10..10 + PayloadLen(data)], Count(data), e)
  }

  /** The records of a payload that is to hold `msgCount` of them. */
  method ParseRecords(payload: bytes, msgCount: nat) returns (r: Result<Decoded, PayloadError>)
    ensures r.Ok? ==> Spells(payload, msgCount, r.value)
    ensures r.Err? ==> RecordsComplaint(payload, msgCount, r.error)
  {
    hide Payload, Value, Opens, Record;
    var messages: seq<Message>, signatures: seq<bytes>, o: nat := [], [], 0;
    NoRecords();
    for i := 0 to msgCount
      invariant |messages| == i && AllWellFormed(messages, signatures)
      invariant o <= |payload| && payload[..o] == Payload(messages, signatures)
    {
      ghost var read := Decoded(messages, signatures);
      assert StartsWith(payload, read) && |RunBytes(read)| == o;
      if o + 20 + 8 + 4 > |payload| {
        assert BreaksAfter(payload, msgCount, read, RecordHeaderPast(i));
        assert Names(TruncatedRecord, RecordHeaderPast(i), |payload|);
        return Err(TruncatedRecord);
      }
      var contentsLen := ReadU32BE(payload, o + 28);
      assert payload[o..][28..32] == payload[o + 28..o + 32];
      if o + 32 + contentsLen + 65 > |payload| {
        assert BreaksAfter(payload, msgCount, read, RecordBodyPast(i));
        assert Names(TruncatedRecord, RecordBodyPast(i), |payload|);
        return Err(TruncatedRecord);
      }
      var m, sig := ReadRecord(payload, o);
      ReadOn(payload, messages, signatures, o, m, sig, payload[o..][97 + |m.contents|..]);
      messages, signatures, o := messages + [m], signatures + [sig], o + 97 + contentsLen;
    }
    if o != |payload| {
      ghost var read := Decoded(messages, signatures);
      assert StartsWith(payload, read) && |RunBytes(read)| == o;
      assert BreaksAfter(payload, msgCount, read, DecodeError.TrailingBytes(|payload| - o));
      assert Names(PayloadError.TrailingBytes(o, |payload|), DecodeError.TrailingBytes(|payload| - o), |payload|);
      return Err(PayloadError.TrailingBytes(o, |payload|));
    }
    assert payload[..o] == payload;
    r := Ok(Decoded(messages, signatures));
  }

  lemma {:induction false} BamComplaintSaysNothing(data: bytes, e: PayloadError)
    requires BamComplaint(data, e)
    ensures forall d :: !Says(data, NoZstd, d)
  {
    hide Value, PayloadComplaint, Spells, MaxRecords;
    if HeaderGood(data) && data[1] == CODEC_NONE {
      if Count(data) > MaxRecords(PayloadLen(data)) {
        TooManyDeclared(data);
      } else {
        var f :| PayloadComplaint(data[10..10 + PayloadLen(data)], Count(data), f) && Names(e, f, PayloadLen(data));
        ComplaintSaysNothing(data, NoZstd, f);
      }
    }
  }

  /** Returns what the buffer says, zstd aside; fails exactly for a buffer that says nothing, with the first thing wrong. */
  method DecodeBamPayload(data: bytes) returns (r: Result<Decoded, PayloadError>)
    ensures r.Ok? ==> Says(data, NoZstd, r.value)
    ensures r.Err? ==> BamComplaint(data, r.error)
    ensures r.Err? ==> forall d :: !Says(data, NoZstd, d)
  {
    hide Value, MaxRecords, Spells, RecordsComplaint;
    if |data| < 10 {
      r := Err(PayloadError.TooShort);
      BamComplaintSaysNothing(data, r.error);
      return;
    }
    if data[0] != 0x02 {
      r := Err(PayloadError.BadVersion(data[0]));
      BamComplaintSaysNothing(data, r.error);
      return;
    }
    if data[1] != 0x00 {
      r := Err(UnsupportedCodec(data[1]));
      BamComplaintSaysNothing(data, r.error);
      return;
    }
    var msgCount := ReadU32BE(data, 2);
    var payloadLen := ReadU32BE(data, 6);
    if 10 + payloadLen > |data| {
      r := Err(TruncatedRecord);
      BamComplaintSaysNothing(data, r.error);
      return;
    }
    var payload := data[10..10 + payloadLen];
    var maxRecords := MaxRecords(|payload|);
    if msgCount > maxRecords {
      r := Err(MsgCountTooLarge(msgCount, |payload|));
      BamComplaintSaysNothing(data, r.error);
      return;
    }
    r := ParseRecords(payload, msgCount);
    if r.Err? {
      BamComplaintSaysNothing(data, r.error);
    }
  }

  /** The same fault under its two names; only the Rust decoder looks at the declared count before it reads records. */
  predicate SameFault(typescript: DecodeError, rust: PayloadError, size: nat) {
    match typescript
    case TooShort => rust == PayloadError.TooShort
    case BadVersion(v) => rust == PayloadError.BadVersion(v)
    case UnknownCodec(c) => rust == UnsupportedCodec(c)
    case PayloadPastBuffer => rust == TruncatedRecord
    case NotDecompressed => false
    case RecordHeaderPast(_) => rust == TruncatedRecord || rust.MsgCountTooLarge?
    case RecordBodyPast(_) => rust == TruncatedRecord || rust.MsgCountTooLarge?
    case TrailingBytes(left) => rust.TrailingBytes? && rust.consumed + left == size == rust.payloadLen
  }

  /** Bytes left behind `n` records mean that as many fit. */
  lemma {:induction false} TrailingFits(plain: bytes, n: nat, left: nat)
    requires PayloadComplaint(plain, n, DecodeError.TrailingBytes(left))
    ensures n <= MaxRecords(|plain|)
  {
    var d :| BreaksAfter(plain, n, d, DecodeError.TrailingBytes(left));
    PayloadSize(d.messages, d.signatures);
    hide Payload, TotalSize, AllWellFormed;
  }

  lemma {:induction false} FaultsMatch(data: bytes, decompress: bytes -> Option<bytes>, e: DecodeError, f: PayloadError)
    requires DecodeComplaint(data, decompress, e) && BamComplaint(data, f)
    requires |data| < 2 || data[1] != CODEC_ZSTD
    ensures SameFault(e, f, if |data| < HEADER_SIZE then 0 else PayloadLen(data))
  {
    hide Value, PayloadComplaint, MaxRecords;
    if HeaderGood(data) && data[1] == CODEC_NONE {
      var plain, n := data[10..10 + PayloadLen(data)], Count(data);
      assert Plain(data, decompress) == Some(plain);
      if e.TrailingBytes? {
        TrailingFits(plain, n, e.left);
      }
      if n <= MaxRecords(|plain|) {
        var g :| PayloadComplaint(plain, n, g) && Names(f, g, |plain|);
        assert DecodeComplaint(data, decompress, g);
        OneComplaint(data, decompress, e, g);
      } else {
        PayloadComplaintKind(plain, n, e);
      }
    }
  }

  lemma {:induction false} PayloadComplaintKind(plain: bytes, n: nat, e: DecodeError)
    requires PayloadComplaint(plain, n, e)
    ensures e.RecordHeaderPast? || e.RecordBodyPast? || e.TrailingBytes?
  {
    hide StartsWith;
  }

  /** The two decoders side by side: on all but compressed batches they accept the same buffers with the same result, and reject the
      others for the same fault. */
  method DecodeBoth(data: bytes, decompress: bytes -> Option<bytes>)
    returns (typescript: Result<Decoded, DecodeError>, rust: Result<Decoded, PayloadError>)
    ensures |data| < 2 || data[1] != CODEC_ZSTD ==>
              && (typescript.Ok? <==> rust.Ok?) && (typescript.Ok? ==> typescript.value == rust.value)
              && (typescript.Err? ==>
                    SameFault(typescript.error, rust.error, if |data| < HEADER_SIZE then 0 else PayloadLen(data)))
    ensures rust.Ok? ==> typescript.Ok? && typescript.value == rust.value
  {
    typescript := DecodeBatch(data, decompress);
    rust := DecodeBamPayload(data);
    hide Value;
    forall d ensures Says(data, NoZstd, d) ==> Says(data, decompress, d) {
    }
    forall d ensures |data| < 2 || data[1] != CODEC_ZSTD ==> (Says(data, decompress, d) <==> Says(data, NoZstd, d)) {
    }
    hide DecodeComplaint, BamComplaint, SameFault, Says;
    if rust.Ok? && typescript.Ok? {
      SaysOne(data, decompress, typescript.value, rust.value);
    }
    if (|data| < 2 || data[1] != CODEC_ZSTD) && typescript.Err? {
      FaultsMatch(data, decompress, typescript.error, rust.error);
    }
  }

  /** What a segment says depends on its own field elements only. */
  lemma {:induction false} SegmentSaysAlone(x: bytes, y: bytes, a: nat, b: nat, decompress: bytes -> Option<bytes>, d: Decoded)
    requires a <= b && b * BYTES_PER_FIELD_ELEMENT <= |x| && b * BYTES_PER_FIELD_ELEMENT <= |y|
    requires forall i | a * 32 <= i < b * 32 && i % 32 != 0 :: x[i] == y[i]
    ensures Says(Usable(x, a, b), decompress, d) <==> Says(Usable(y, a, b), decompress, d)
  {
    SegmentIsLocal(x, y, a, b);
  }

  // ----- the message set commitment -----

  datatype VerifiedMessage = VerifiedMessage(
    sender: bytes, nonce: nat, contents: bytes, blockNumber: nat, txIndex: nat, msgIndex: nat)

  /** The field widths of the Rust type; contents have no width of their own. */
  predicate Typed(m: VerifiedMessage) {
    |m.sender| == 20 && m.nonce < U64 && m.blockNumber < U64 && m.txIndex < U32 && m.msgIndex < U32
  }

  function Coordinates(m: VerifiedMessage): (b: bytes)
    ensures |b| == 16
  {
    BE(m.blockNumber, 8) + BE(m.txIndex, 4) + BE(m.msgIndex, 4)
  }

  /** record_len, sender, nonce, contents_len, contents, coordinates; both lengths are 32-bit and wrap. */
  function CommitmentFrame(m: VerifiedMessage): bytes {
    BE(48 + |m.contents|, 4) + m.sender + BE(m.nonce, 8) + BE(|m.contents|, 4) + m.contents + Coordinates(m)
  }

  function CommitmentPreimage(ms: seq<VerifiedMessage>): bytes {
    if ms == [] then [] else CommitmentFrame(ms[0]) + CommitmentPreimage(ms[1..])
  }

  /** Feeds the hasher one message, field by field. */
  method FeedMessage(fed: bytes, m: VerifiedMessage) returns (hashed: bytes)
    ensures hashed == fed + CommitmentFrame(m)
  {
    WrapsSum(|m.contents|);
    Wraps(48 + |m.contents|);
    Wraps(|m.contents|);
    hide BE;
    var recordLen := BE((20 + 8 + 4 + |m.contents| % U32 + 8 + 4 + 4) % U32, 4);
    var contentsLen := BE(|m.contents| % U32, 4);
    assert recordLen == BE(48 + |m.contents|, 4) && contentsLen == BE(|m.contents|, 4);
    var nonce, block, tx, index := BE(m.nonce, 8), BE(m.blockNumber, 8), BE(m.txIndex, 4), BE(m.msgIndex, 4);
    hashed := fed + recordLen;
    hashed := hashed + m.sender;
    hashed := hashed + nonce;
    hashed := hashed + contentsLen;
    hashed := hashed + m.contents;
    hashed := hashed + block;
    hashed := hashed + tx;
    hashed := hashed + index;
    Eight(fed, recordLen, m.sender, nonce, contentsLen, m.contents, block, tx, index);
  }

  lemma {:induction false} Eight(x: bytes, a: bytes, b: bytes, c: bytes, d: bytes, e: bytes, f: bytes, g: bytes, h: bytes)
    ensures x + a + b + c + d + e + f + g + h == x + (a + b + c + d + e + (f + g + h))
  {
    Regroup(x, a, b);
    Regroup(x, a + b, c);
    Regroup(x, a + b + c, d);
    Regroup(x, a + b + c + d, e);
    var y := x + (a + b + c + d + e);
    Regroup(y, f, g);
    Regroup(y, f + g, h);
    Regroup(x, a + b + c + d + e, f + g + h);
  }

  /** The bytes the hasher has been fed after the loop. */
  method FeedCommitment(ms: seq<VerifiedMessage>) returns (hashed: bytes)
    ensures hashed == CommitmentPreimage(ms)
  {
    hide CommitmentFrame;
    hashed := [];
    for i := 0 to |ms|
      invariant hashed + CommitmentPreimage(ms[i..]) == CommitmentPreimage(ms)
    {
      ghost var before, rest := hashed, CommitmentPreimage(ms[i + 1..]);
      assert ms[i..][1..] == ms[i + 1..];
      hashed := FeedMessage(hashed, ms[i]);
      Regroup(before, CommitmentFrame(ms[i]), rest);
    }
  }

  /** Truncating to 32 bits before writing four bytes changes nothing. */
  lemma {:induction false} Wraps(n: nat)
    ensures BE(n % U32, 4) == BE(n, 4)
  {
    Written32(n);
    BEOfValue(BE(n, 4));
  }

  lemma {:induction false} WrapsSum(n: nat)
    ensures (48 + n % U32) % U32 == (48 + n) % U32
  {
  }

  // ----- the commitment's preimage tells message sequences apart -----

  ghost predicate Within(ms: seq<VerifiedMessage>, limit: nat) {
    forall i :: 0 <= i < |ms| ==> Typed(ms[i]) && |ms[i].contents| <= limit
  }

  /** The bytes `p` open with the frame of `m` and go on with `tail`. */
  ghost predicate FrameOpens(p: bytes, m: VerifiedMessage, tail: bytes) {
    var n := |m.contents|;
    && |p| >= 52 + n && p[4..24] == m.sender && Value(p[24..32]) == m.nonce && Value(p[32..36]) == n
    && p[36..36 + n] == m.contents && Value(p[36 + n..44 + n]) == m.blockNumber
    && Value(p[44 + n..48 + n]) == m.txIndex && Value(p[48 + n..52 + n]) == m.msgIndex && p[52 + n..] == tail
  }

  lemma {:induction false} CommitmentFrameOpens(m: VerifiedMessage, tail: bytes)
    requires Typed(m) && |m.contents| < U32
    ensures FrameOpens(CommitmentFrame(m) + tail, m, tail)
  {
    hide BE, Value;
    var n := |m.contents|;
    var len, nonce, clen := BE(48 + n, 4), BE(m.nonce, 8), BE(n, 4);
    var block, tx, index := BE(m.blockNumber, 8), BE(m.txIndex, 4), BE(m.msgIndex, 4);
    Written64(m.nonce);
    Written32(n);
    Written64(m.blockNumber);
    Written32(m.txIndex);
    Written32(m.msgIndex);
    var p := CommitmentFrame(m) + tail;
    assert p == len + m.sender + nonce + clen + m.contents + block + tx + index + tail;
    hide CommitmentFrame;
    assert p[4..24] == m.sender;
    assert p[24..32] == nonce;
    assert p[32..36] == clen;
    assert p[36..36 + n] == m.contents;
    assert p[36 + n..44 + n] == block;
    assert p[44 + n..48 + n] == tx;
    assert p[48 + n..52 + n] == index;
    assert p[52 + n..] == tail;
  }

  lemma {:induction false} FrameOpensOne(p: bytes, m: VerifiedMessage, x: bytes, n: VerifiedMessage, y: bytes)
    requires FrameOpens(p, m, x) && FrameOpens(p, n, y)
    ensures m == n && x == y
  {
  }

  lemma {:induction false} CommitmentInjective(a: seq<VerifiedMessage>, b: seq<VerifiedMessage>, limit: nat)
    requires limit < U32 && Within(a, limit) && Within(b, limit) && CommitmentPreimage(a) == CommitmentPreimage(b)
    ensures a == b
  {
    hide FrameOpens, CommitmentFrame;
    if a != [] && b != [] {
      var p, x, y := CommitmentPreimage(a), CommitmentPreimage(a[1..]), CommitmentPreimage(b[1..]);
      CommitmentFrameOpens(a[0], x);
      CommitmentFrameOpens(b[0], y);
      FrameOpensOne(p, a[0], x, b[0], y);
      CommitmentInjective(a[1..], b[1..], limit);
      assert a == [a[0]] + a[1..] && b == [b[0]] + b[1..];
    } else {
      FramesAreNotEmpty(a);
      FramesAreNotEmpty(b);
    }
  }

  lemma {:induction false} FramesAreNotEmpty(a: seq<VerifiedMessage>)
    ensures a == [] <==> CommitmentPreimage(a) == []
  {
    hide BE;
  }

  /** A contents length that wraps hides a second message inside the first. */
  lemma {:induction false} CommitmentCollides(b0: VerifiedMessage, b1: VerifiedMessage) returns (a: VerifiedMessage)
    requires Typed(b0) && Typed(b1) && b0.contents == [] && |b1.contents| == U32 - 52
    ensures Typed(a) && |a.contents| == U32 && CommitmentPreimage([a]) == CommitmentPreimage([b0, b1])
  {
    hide BE;
    var f0, f1 := CommitmentFrame(b0), CommitmentFrame(b1);
    assert |f1| == U32 && f1[U32 - 16..] == Coordinates(b1);
    a := b1.(sender := b0.sender, nonce := b0.nonce, contents := Coordinates(b0) + f1[..U32 - 16]);
    hide Coordinates;
    Wraps(48 + U32);
    Wraps(U32);
    assert BE(48 + U32, 4) == BE(48, 4) && BE(U32, 4) == BE(0, 4);
    assert Coordinates(a) == Coordinates(b1) by { SameCoordinates(a, b1); }
    var head := BE(48, 4) + b0.sender + BE(b0.nonce, 8) + BE(0, 4);
    assert f0 == head + Coordinates(b0);
    assert CommitmentFrame(a) == head + (Coordinates(b0) + f1[..U32 - 16]) + f1[U32 - 16..];
    hide CommitmentFrame;
    assert f1 == f1[..U32 - 16] + f1[U32 - 16..];
    assert head + (Coordinates(b0) + f1[..U32 - 16]) + f1[U32 - 16..] == f0 + f1;
    OneFrame(a);
    OneFrame(b1);
    assert [b0, b1][1..] == [b1];
  }

  lemma {:induction false} OneFrame(m: VerifiedMessage)
    ensures CommitmentPreimage([m]) == CommitmentFrame(m)
  {
    hide CommitmentFrame;
    assert CommitmentPreimage([m]) == CommitmentFrame(m) + CommitmentPreimage([]);
  }

  lemma {:induction false} SameCoordinates(a: VerifiedMessage, b: VerifiedMessage)
    requires a.blockNumber == b.blockNumber && a.txIndex == b.txIndex && a.msgIndex == b.msgIndex
    ensures Coordinates(a) == Coordinates(b)
  {
  }

  /** Sequences with the same preimage are the same for contents up to a limit exactly when the limit fits in 32 bits. */
  lemma {:induction false} CommitmentInjectiveIff(limit: nat)
    ensures (forall a, b | Within(a, limit) && Within(b, limit) && CommitmentPreimage(a) == CommitmentPreimage(b) :: a == b)
            <==> limit < U32
  {
    if limit < U32 {
      forall a, b | Within(a, limit) && Within(b, limit) && CommitmentPreimage(a) == CommitmentPreimage(b) ensures a == b {
        CommitmentInjective(a, b, limit);
      }
    } else {
      var zeros := seq<byte>(U32 - 52, i => 0);
      var b0 := VerifiedMessage(zeros[..20], 0, [], 0, 0, 0);
      var b1 := b0.(contents := zeros);
      var a := CommitmentCollides(b0, b1);
      hide CommitmentPreimage;
      assert Within([a], limit) && Within([b0, b1], limit);
      assert |[a]| != |[b0, b1]|;
    }
  }
}
