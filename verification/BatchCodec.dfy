// packages/bam-sdk/src/batch.ts: the batch wire format, its encoder and its decoder.
module BatchCodec {
  import opened Wrappers
  import opened Bytes
  import opened BigEndian

  const BATCH_VERSION: byte := 0x02
  const CODEC_NONE: byte := 0x00
  const CODEC_ZSTD: byte := 0x01
  const HEADER_SIZE: nat := 10
  const SIGNATURE_BYTES: nat := 65
  const RECORD_FIXED_OVERHEAD: nat := 97

  /** A message with its sender as raw bytes. */
  datatype Message = Message(sender: bytes, nonce: int, contents: bytes)

  datatype Decoded = Decoded(messages: seq<Message>, signatures: seq<bytes>)

  // ----- the format -----

  predicate WellFormed(m: Message, sig: bytes) {
    |sig| == SIGNATURE_BYTES && |m.sender| == 20 && 0 <= m.nonce < U64 && |m.contents| < U32
  }

  ghost predicate AllWellFormed(ms: seq<Message>, sigs: seq<bytes>) {
    |ms| == |sigs| && forall i :: 0 <= i < |ms| ==> WellFormed(ms[i], sigs[i])
  }

  /** sender, nonce, contents length, contents, signature. */
  function Record(m: Message, sig: bytes): bytes
    requires m.nonce >= 0
  {
    m.sender + BE(m.nonce, 8) + BE(|m.contents|, 4) + m.contents + sig
  }

  function Payload(ms: seq<Message>, sigs: seq<bytes>): bytes
    requires |ms| == |sigs| && forall i :: 0 <= i < |ms| ==> ms[i].nonce >= 0
  {
    if ms == [] then [] else Record(ms[0], sigs[0]) + Payload(ms[1..], sigs[1..])
  }

  function Header(codec: byte, count: nat, payloadSize: nat): (h: bytes)
    ensures |h| == HEADER_SIZE
  {
    [BATCH_VERSION, codec] + BE(count, 4) + BE(payloadSize, 4)
  }

  // ----- records form a prefix code -----

  /** The bytes `p` open with the record of `m` and `sig` and go on with `tail`. */
  ghost predicate Opens(p: bytes, m: Message, sig: bytes, tail: bytes) {
    var n := |m.contents|;
    && |p| >= RECORD_FIXED_OVERHEAD + n
    && p[..20] == m.sender && Value(p[20..28]) == m.nonce && Value(p[28..32]) == n
    && p[32..32 + n] == m.contents && p[32 + n..97 + n] == sig && p[97 + n..] == tail
  }

  lemma {:induction false} RecordOpens(m: Message, sig: bytes, tail: bytes)
    requires WellFormed(m, sig)
    ensures Opens(Record(m, sig) + tail, m, sig, tail)
  {
    hide BE, Value;
    var nonce, len, n := BE(m.nonce, 8), BE(|m.contents|, 4), |m.contents|;
    assert Value(nonce) == m.nonce by { Written64(m.nonce); }
    assert Value(len) == n by { Written32(n); }
    var p := m.sender + nonce + len + m.contents + sig + tail;
    assert p[..20] == m.sender;
    assert p[20..28] == nonce;
    assert p[28..32] == len;
    assert p[32..32 + n] == m.contents;
    assert p[32 + n..97 + n] == sig;
    assert p[97 + n..] == tail;
  }

  lemma {:induction false} Regroup(a: bytes, b: bytes, c: bytes)
    ensures (a + b) + c == a + (b + c)
  {
  }

  /** What the first record of a payload looks like from the bytes alone. */
  lemma {:induction false} HeadRecord(ms: seq<Message>, sigs: seq<bytes>, x: bytes)
    requires AllWellFormed(ms, sigs) && ms != []
    ensures Opens(Payload(ms, sigs) + x, ms[0], sigs[0], Payload(ms[1..], sigs[1..]) + x)
  {
    assert WellFormed(ms[0], sigs[0]);
    hide Record, Opens;
    var head, rest := Record(ms[0], sigs[0]), Payload(ms[1..], sigs[1..]);
    assert Payload(ms, sigs) == head + rest;
    Regroup(head, rest, x);
    RecordOpens(ms[0], sigs[0], rest + x);
  }

  function Tail(d: Decoded): Decoded
    requires d.messages != [] && d.signatures != []
  {
    Decoded(d.messages[1..], d.signatures[1..])
  }

  function RunBytes(d: Decoded): bytes
    requires AllWellFormed(d.messages, d.signatures)
  {
    Payload(d.messages, d.signatures)
  }

  /** A run of records opens with its first and goes on with the others. */
  lemma {:induction false} RunOpens(d: Decoded, x: bytes)
    requires AllWellFormed(d.messages, d.signatures) && d.messages != []
    ensures AllWellFormed(Tail(d).messages, Tail(d).signatures)
    ensures Opens(RunBytes(d) + x, d.messages[0], d.signatures[0], RunBytes(Tail(d)) + x)
  {
    HeadRecord(d.messages, d.signatures, x);
  }

  lemma {:induction false} SameRun(a: Decoded, b: Decoded)
    requires a.messages != [] && b.messages != [] && |a.signatures| == |a.messages| && |b.signatures| == |b.messages|
    requires a.messages[0] == b.messages[0] && a.signatures[0] == b.signatures[0] && Tail(a) == Tail(b)
    ensures a == b
  {
    assert a.messages == [a.messages[0]] + a.messages[1..] && b.messages == [b.messages[0]] + b.messages[1..];
    assert a.signatures == [a.signatures[0]] + a.signatures[1..] && b.signatures == [b.signatures[0]] + b.signatures[1..];
  }

  /** Two runs of as many records with the same bytes, whatever follows them, are the same records. */
  lemma {:induction false} PrefixCode(a: Decoded, x: bytes, b: Decoded, y: bytes)
    requires AllWellFormed(a.messages, a.signatures) && AllWellFormed(b.messages, b.signatures)
    requires |a.messages| == |b.messages|
    requires RunBytes(a) + x == RunBytes(b) + y
    ensures a == b && x == y
    decreases |a.messages|
  {
    if a.messages == [] {
      assert RunBytes(a) + x == x && RunBytes(b) + y == y;
    } else {
      RunOpens(a, x);
      RunOpens(b, y);
      hide RunBytes, Opens, WellFormed;
      OpensOne(RunBytes(a) + x, a.messages[0], a.signatures[0], RunBytes(Tail(a)) + x,
               b.messages[0], b.signatures[0], RunBytes(Tail(b)) + y);
      PrefixCode(Tail(a), x, Tail(b), y);
      SameRun(a, b);
    }
  }

  /** The bytes decide the record they open with. */
  lemma {:induction false} OpensOne(p: bytes, m: Message, s: bytes, x: bytes, n: Message, t: bytes, y: bytes)
    requires Opens(p, m, s, x) && Opens(p, n, t, y)
    ensures m == n && s == t && x == y
  {
  }

  lemma {:induction false} PayloadAppend(a: seq<Message>, s: seq<bytes>, m: Message, sig: bytes)
    requires |a| == |s| && m.nonce >= 0 && forall i :: 0 <= i < |a| ==> a[i].nonce >= 0
    ensures Payload(a + [m], s + [sig]) == Payload(a, s) + Record(m, sig)
  {
    if a == [] {
      assert a + [m] == [m] && s + [sig] == [sig];
      assert Payload([m], [sig]) == Record(m, sig) + Payload([], []);
    } else {
      hide Record;
      PayloadAppend(a[1..], s[1..], m, sig);
      assert (a + [m])[1..] == a[1..] + [m] && (s + [sig])[1..] == s[1..] + [sig];
      var head, rest := Record(a[0], s[0]), Payload(a[1..], s[1..]);
      assert Payload(a + [m], s + [sig]) == head + (rest + Record(m, sig));
      assert Payload(a, s) == head + rest;
      hide Payload;
      Regroup(head, rest, Record(m, sig));
    }
  }

  /** Every record takes at least 97 bytes. */
  lemma {:induction false} PayloadSize(ms: seq<Message>, sigs: seq<bytes>)
    requires AllWellFormed(ms, sigs)
    ensures |Payload(ms, sigs)| == TotalSize(ms) >= RECORD_FIXED_OVERHEAD * |ms|
  {
    if ms != [] {
      PayloadSize(ms[1..], sigs[1..]);
      assert WellFormed(ms[0], sigs[0]);
    }
  }

  function TotalSize(ms: seq<Message>): nat {
    if ms == [] then 0 else RECORD_FIXED_OVERHEAD + |ms[0].contents| + TotalSize(ms[1..])
  }

  // ----- encoding -----

  datatype EncodeError =
    | NotParallel
    | TooManyMessages
    | BadSignature(index: nat)
    | BadSender(index: nat)
    | NonceRange(index: nat)
    | ContentsTooLarge(index: nat)
    | ZstdNotApplied

  datatype EncodedBatch = EncodedBatch(data: bytes, messageCount: nat, codec: byte, size: nat)

  /** The zstd frame magic. */
  predicate IsCompressed(b: bytes) {
    |b| >= 4 && b[..4] == [0x28, 0xB5, 0x2F, 0xFD]
  }

  /** What is wrong with one message, in the order it is checked. */
  function Flaw(m: Message, sig: bytes, i: nat): Option<EncodeError> {
    if |sig| != SIGNATURE_BYTES then Some(BadSignature(i))
    else if |m.sender| != 20 then Some(BadSender(i))
    else if m.nonce < 0 || m.nonce >= U64 then Some(NonceRange(i))
    else if |m.contents| >= U32 then Some(ContentsTooLarge(i))
    else None
  }

  ghost predicate Encodable(ms: seq<Message>, sigs: seq<bytes>, zstd: bool) {
    |ms| < U32 && AllWellFormed(ms, sigs) && (zstd ==> IsCompressed(Payload(ms, sigs)))
  }

  /** `e` is the first thing encodeBatch finds wrong. */
  ghost predicate Complaint(ms: seq<Message>, sigs: seq<bytes>, zstd: bool, e: EncodeError) {
    if |ms| != |sigs| then e == NotParallel
    else if |ms| >= U32 then e == TooManyMessages
    else if AllWellFormed(ms, sigs) then zstd && !IsCompressed(Payload(ms, sigs)) && e == ZstdNotApplied
    else exists i :: 0 <= i < |ms| && Flaw(ms[i], sigs[i], i) == Some(e) && AllWellFormed(ms[..i], sigs[..i])
  }

  ghost function Encoding(ms: seq<Message>, sigs: seq<bytes>, zstd: bool): bytes
    requires Encodable(ms, sigs, zstd)
  {
    var payload := Payload(ms, sigs);
    Header(if zstd then CODEC_ZSTD else CODEC_NONE, |ms|, |payload|) + payload
  }

  method EncodeRecord(m: Message, sig: bytes) returns (rec: bytes)
    requires WellFormed(m, sig)
    ensures rec == Record(m, sig)
  {
    var buf := new byte[RECORD_FIXED_OVERHEAD + |m.contents|];
    var o := 0;
    SetBytes(buf, m.sender, o);
    o := o + 20;
    WriteU64BE(buf, o, m.nonce);
    o := o + 8;
    WriteU32BE(buf, o, |m.contents|);
    o := o + 4;
    SetBytes(buf, m.contents, o);
    o := o + |m.contents|;
    SetBytes(buf, sig, o);
    rec := buf[..];
    hide BE;
    assert rec[..20] == m.sender && rec[20..28] == BE(m.nonce, 8) && rec[28..32] == BE(|m.contents|, 4);
    assert rec[32..32 + |m.contents|] == m.contents && rec[32 + |m.contents|..] == sig;
    assert rec == rec[..20] + rec[20..28] + rec[28..32] + rec[32..32 + |m.contents|] + rec[32 + |m.contents|..];
  }

  function Concat(rs: seq<bytes>): bytes {
    if rs == [] then [] else Concat(rs[..|rs| - 1]) + rs[|rs| - 1]
  }

  lemma {:induction false} ConcatStep(rs: seq<bytes>, r: bytes)
    ensures Concat(rs + [r]) == Concat(rs) + r
  {
    assert (rs + [r])[..|rs|] == rs;
  }

  /** The records one after the other in one buffer. */
  method Join(rs: seq<bytes>, size: nat) returns (plain: bytes)
    requires size == |Concat(rs)|
    ensures plain == Concat(rs)
  {
    var buf := new byte[size];
    var p := 0;
    for k := 0 to |rs|
      invariant p == |Concat(rs[..k])| <= size && buf[..p] == Concat(rs[..k])
    {
      assert rs[..k + 1] == rs[..k] + [rs[k]];
      ConcatStep(rs[..k], rs[k]);
      ConcatGrows(rs, k + 1);
      SetBytes(buf, rs[k], p);
      p := p + |rs[k]|;
    }
    assert rs[..|rs|] == rs;
    plain := buf[..];
    assert plain == buf[..p];
  }

  lemma {:induction false} ConcatGrows(rs: seq<bytes>, k: nat)
    requires k <= |rs|
    ensures |Concat(rs[..k])| <= |Concat(rs)|
    decreases |rs|
  {
    if k == |rs| {
      assert rs[..k] == rs;
    } else {
      assert rs[..|rs| - 1][..k] == rs[..k];
      ConcatGrows(rs[..|rs| - 1], k);
    }
  }

  lemma {:induction false} FirstFlaw(ms: seq<Message>, sigs: seq<bytes>, zstd: bool, i: nat)
    requires |ms| == |sigs| < U32 && i < |ms| && AllWellFormed(ms[..i], sigs[..i])
    requires Flaw(ms[i], sigs[i], i).Some?
    ensures Complaint(ms, sigs, zstd, Flaw(ms[i], sigs[i], i).value) && !AllWellFormed(ms, sigs)
  {
    hide Payload;
    assert !WellFormed(ms[i], sigs[i]);
  }

  /** Throws exactly for what Encodable excludes, naming the first thing found wrong; otherwise header and payload. */
  method EncodeBatch(ms: seq<Message>, sigs: seq<bytes>, zstd: bool) returns (r: Result<EncodedBatch, EncodeError>)
    ensures r.Ok? <==> Encodable(ms, sigs, zstd)
    ensures r.Ok? ==> r.value.data == Encoding(ms, sigs, zstd)
    ensures r.Ok? ==> r.value.messageCount == |ms| && r.value.size == |r.value.data|
    ensures r.Ok? ==> r.value.codec == if zstd then CODEC_ZSTD else CODEC_NONE
    ensures r.Err? ==> Complaint(ms, sigs, zstd, r.error)
  {
    hide Payload, Concat, Record;
    NoRecords();
    if |ms| != |sigs| {
      return Err(NotParallel);
    }
    if |ms| > 0xffff_ffff {
      return Err(TooManyMessages);
    }
    var recordBuffers: seq<bytes> := [];
    var payloadSize := 0;
    for i := 0 to |ms|
      invariant AllWellFormed(ms[..i], sigs[..i])
      invariant Concat(recordBuffers) == Payload(ms[..i], sigs[..i]) && payloadSize == |Concat(recordBuffers)|
    {
      var flaw := Flaw(ms[i], sigs[i], i);
      if flaw.Some? {
        FirstFlaw(ms, sigs, zstd, i);
        return Err(flaw.value);
      }
      var rec := EncodeRecord(ms[i], sigs[i]);
      assert ms[..i + 1] == ms[..i] + [ms[i]] && sigs[..i + 1] == sigs[..i] + [sigs[i]];
      PayloadAppend(ms[..i], sigs[..i], ms[i], sigs[i]);
      ConcatStep(recordBuffers, rec);
      recordBuffers := recordBuffers + [rec];
      payloadSize := payloadSize + |rec|;
    }
    assert ms[..|ms|] == ms && sigs[..|sigs|] == sigs;
    var payload := Join(recordBuffers, payloadSize);
    var zstdActuallyApplied := zstd && IsCompressed(payload);
    if zstd && !zstdActuallyApplied {
      return Err(ZstdNotApplied);
    }
    var codec := if zstdActuallyApplied then CODEC_ZSTD else CODEC_NONE;
    var data := Frame(codec, |ms|, payload);
    r := Ok(EncodedBatch(data, |ms|, codec, |data|));
  }

  /** Header and payload in one buffer. */
  method Frame(codec: byte, count: nat, payload: bytes) returns (framed: bytes)
    ensures framed == Header(codec, count, |payload|) + payload
  {
    var data := new byte[HEADER_SIZE + |payload|];
    data[0] := BATCH_VERSION;
    data[1] := codec;
    WriteU32BE(data, 2, count);
    WriteU32BE(data, 6, |payload|);
    SetBytes(data, payload, HEADER_SIZE);
    hide BE;
    framed := data[..];
    assert framed == framed[..2] + framed[2..6] + framed[6..10] + framed[10..];
    assert framed[..2] == [BATCH_VERSION, codec];
  }

  /** Adds up the record sizes. */
  method EstimateBatchSize(ms: seq<Message>) returns (total: nat)
    ensures total == HEADER_SIZE + TotalSize(ms)
  {
    total := HEADER_SIZE;
    for i := 0 to |ms|
      invariant total + TotalSize(ms[i..]) == HEADER_SIZE + TotalSize(ms)
    {
      total := total + (RECORD_FIXED_OVERHEAD + |ms[i].contents|);
    }
  }

  /** The estimate is the encoded size. */
  lemma {:induction false} EstimateIsEncodedSize(ms: seq<Message>, sigs: seq<bytes>)
    requires Encodable(ms, sigs, false)
    ensures HEADER_SIZE + TotalSize(ms) == |Encoding(ms, sigs, false)|
  {
    PayloadSize(ms, sigs);
  }

  // ----- decoding -----

  datatype DecodeError =
    | TooShort
    | BadVersion(version: byte)
    | UnknownCodec(codec: byte)
    | PayloadPastBuffer
    | NotDecompressed
    | RecordHeaderPast(index: nat)
    | RecordBodyPast(index: nat)
    | TrailingBytes(left: nat)

  function Count(data: bytes): nat
    requires |data| >= HEADER_SIZE
  {
    Value(data[2..6])
  }

  function PayloadLen(data: bytes): nat
    requires |data| >= HEADER_SIZE
  {
    Value(data[6..10])
  }

  predicate HeaderGood(data: bytes) {
    && |data| >= HEADER_SIZE && data[0] == BATCH_VERSION && (data[1] == CODEC_NONE || data[1] == CODEC_ZSTD)
    && HEADER_SIZE + PayloadLen(data) <= |data|
  }

  function Plain(data: bytes, decompress: bytes -> Option<bytes>): Option<bytes>
    requires HeaderGood(data)
  {
    var payload := data[HEADER_SIZE..HEADER_SIZE + PayloadLen(data)];
    if data[1] == CODEC_ZSTD then decompress(payload) else Some(payload)
  }

  /** The bytes `plain` are exactly `n` records, those of `d`. */
  ghost predicate Spells(plain: bytes, n: nat, d: Decoded) {
    AllWellFormed(d.messages, d.signatures) && |d.messages| == n && Payload(d.messages, d.signatures) == plain
  }

  /** The buffer says `d`: the format, as a relation. */
  ghost predicate Says(data: bytes, decompress: bytes -> Option<bytes>, d: Decoded) {
    HeaderGood(data) && Plain(data, decompress).Some? && Spells(Plain(data, decompress).value, Count(data), d)
  }

  lemma {:induction false} SpellsOne(plain: bytes, n: nat, a: Decoded, b: Decoded)
    requires Spells(plain, n, a) && Spells(plain, n, b)
    ensures a == b
  {
    assert plain + [] == plain;
    PrefixCode(a, [], b, []);
  }

  /** A buffer says one thing at most. */
  lemma {:induction false} SaysOne(data: bytes, decompress: bytes -> Option<bytes>, a: Decoded, b: Decoded)
    requires Says(data, decompress, a) && Says(data, decompress, b)
    ensures a == b
  {
    SpellsOne(Plain(data, decompress).value, Count(data), a, b);
  }

  lemma {:induction false} PayloadConcat(a: seq<Message>, s: seq<bytes>, b: seq<Message>, t: seq<bytes>)
    requires AllWellFormed(a, s) && AllWellFormed(b, t) && AllWellFormed(a + b, s + t)
    ensures Payload(a + b, s + t) == Payload(a, s) + Payload(b, t)
  {
    hide Payload, Record;
    if a == [] {
      NoRecords();
      assert a + b == b && s + t == t;
    } else {
      assert forall i :: 0 <= i < |a| ==> WellFormed(a[i], s[i]);
      PayloadStep(a + b, s + t);
      PayloadStep(a, s);
      hide WellFormed;
      assert (a + b)[1..] == a[1..] + b && (s + t)[1..] == s[1..] + t;
      PayloadConcat(a[1..], s[1..], b, t);
      Regroup(Record(a[0], s[0]), Payload(a[1..], s[1..]), Payload(b, t));
    }
  }

  lemma {:induction false} PayloadStep(ms: seq<Message>, sigs: seq<bytes>)
    requires AllWellFormed(ms, sigs) && ms != []
    ensures Payload(ms, sigs) == Record(ms[0], sigs[0]) + Payload(ms[1..], sigs[1..])
  {
  }

  /** With the records `ms` read off up to `o`, whatever the payload spells starts with them and goes on at `o`. */
  lemma {:induction false} SpellsOn(plain: bytes, n: nat, d: Decoded, ms: seq<Message>, sigs: seq<bytes>, o: nat)
    requires Spells(plain, n, d) && AllWellFormed(ms, sigs) && |ms| <= n
    requires o <= |plain| && plain[..o] == Payload(ms, sigs)
    ensures d.messages[..|ms|] == ms && d.signatures[..|ms|] == sigs
    ensures plain[o..] == Payload(d.messages[|ms|..], d.signatures[|ms|..])
    ensures |ms| < n ==> exists tail :: Opens(plain[o..], d.messages[|ms|], d.signatures[|ms|], tail)
  {
    hide Payload, Record, Opens;
    var i := |ms|;
    var a, b := Decoded(d.messages[..i], d.signatures[..i]), Decoded(d.messages[i..], d.signatures[i..]);
    assert d.messages == a.messages + b.messages && d.signatures == a.signatures + b.signatures;
    PayloadConcat(a.messages, a.signatures, b.messages, b.signatures);
    assert plain == plain[..o] + plain[o..];
    PrefixCode(a, Payload(b.messages, b.signatures), Decoded(ms, sigs), plain[o..]);
    if i < n {
      HeadRecord(b.messages, b.signatures, []);
      assert Payload(b.messages, b.signatures) + [] == plain[o..];
    }
  }

  lemma {:induction false} TakeMore(plain: bytes, o: nat, r: bytes, tail: bytes)
    requires o <= |plain| && plain[o..] == r + tail
    ensures o + |r| <= |plain| && plain[..o + |r|] == plain[..o] + r
  {
    assert plain[o..][..|r|] == r;
    assert plain[..o + |r|] == plain[..o] + plain[o..][..|r|];
  }

  /** The record read at `o` extends what has been read. */
  lemma {:induction false} ReadOn(plain: bytes, ms: seq<Message>, sigs: seq<bytes>, o: nat, m: Message, sig: bytes, tail: bytes)
    requires AllWellFormed(ms, sigs) && o <= |plain| && plain[..o] == Payload(ms, sigs)
    requires WellFormed(m, sig) && Opens(plain[o..], m, sig, tail)
    ensures AllWellFormed(ms + [m], sigs + [sig])
    ensures o + 97 + |m.contents| <= |plain|
    ensures plain[..o + 97 + |m.contents|] == Payload(ms + [m], sigs + [sig])
  {
    PayloadAppend(ms, sigs, m, sig);
    OpensIsRecord(plain[o..], m, sig, tail);
    hide Opens, Payload, Record, WellFormed;
    TakeMore(plain, o, Record(m, sig), tail);
  }

  lemma {:induction false} OpensIsRecord(p: bytes, m: Message, sig: bytes, tail: bytes)
    requires WellFormed(m, sig) && Opens(p, m, sig, tail)
    ensures p == Record(m, sig) + tail && |Record(m, sig)| == 97 + |m.contents|
  {
    var n := |m.contents|;
    BEOfValue(p[20..28]);
    BEOfValue(p[28..32]);
    hide BE, Value;
    assert p == p[..20] + p[20..28] + p[28..32] + p[32..32 + n] + p[32 + n..97 + n] + p[97 + n..];
  }

  /** Nothing is spelled by a payload that ends inside the header of the next record. */
  lemma {:induction false} NoHeaderLeft(plain: bytes, n: nat, ms: seq<Message>, sigs: seq<bytes>, o: nat)
    requires AllWellFormed(ms, sigs) && |ms| < n && o <= |plain| && plain[..o] == Payload(ms, sigs)
    requires o + 32 > |plain|
    ensures forall d :: !Spells(plain, n, d)
  {
    forall d ensures !Spells(plain, n, d) {
      if Spells(plain, n, d) {
        SpellsOn(plain, n, d, ms, sigs, o);
      }
    }
  }

  /** Nor by one that ends inside its body. */
  lemma {:induction false} NoBodyLeft(plain: bytes, n: nat, ms: seq<Message>, sigs: seq<bytes>, o: nat)
    requires AllWellFormed(ms, sigs) && |ms| < n && o + 32 <= |plain| && plain[..o] == Payload(ms, sigs)
    requires o + 97 + Value(plain[o + 28..o + 32]) > |plain|
    ensures forall d :: !Spells(plain, n, d)
  {
    assert plain[o..][28..32] == plain[o + 28..o + 32];
    forall d ensures !Spells(plain, n, d) {
      if Spells(plain, n, d) {
        SpellsOn(plain, n, d, ms, sigs, o);
      }
    }
  }

  /** Nor by one with bytes left after its records. */
  lemma {:induction false} NothingTrails(plain: bytes, ms: seq<Message>, sigs: seq<bytes>, o: nat)
    requires AllWellFormed(ms, sigs) && o < |plain| && plain[..o] == Payload(ms, sigs)
    ensures forall d :: !Spells(plain, |ms|, d)
  {
    forall d ensures !Spells(plain, |ms|, d) {
      if Spells(plain, |ms|, d) {
        SpellsOn(plain, |ms|, d, ms, sigs, o);
      }
    }
  }

  // ----- what a buffer that says nothing is rejected for -----

  /** The bytes start with the records of `d`. */
  ghost predicate StartsWith(plain: bytes, d: Decoded) {
    && AllWellFormed(d.messages, d.signatures)
    && |RunBytes(d)| <= |plain| && plain[..|RunBytes(d)|] == RunBytes(d)
  }

  /** After `i` records of `n` the rest of the payload is wrong in the way `e` says. */
  predicate Breaks(rest: bytes, i: nat, n: nat, e: DecodeError) {
    match e
    case RecordHeaderPast(k) => k == i < n && |rest| < 32
    case RecordBodyPast(k) => k == i < n && 32 <= |rest| < 97 + Value(rest[28..32])
    case TrailingBytes(left) => i == n && left == |rest| > 0
    case _ => false
  }

  ghost predicate BreaksAfter(plain: bytes, n: nat, d: Decoded, e: DecodeError) {
    StartsWith(plain, d) && |d.messages| <= n && Breaks(plain[|RunBytes(d)|..], |d.messages|, n, e)
  }

  /** The first thing wrong with a payload that is to hold `n` records. */
  ghost predicate PayloadComplaint(plain: bytes, n: nat, e: DecodeError) {
    exists d :: BreaksAfter(plain, n, d, e)
  }

  /** The first thing wrong with a buffer. */
  ghost predicate DecodeComplaint(data: bytes, decompress: bytes -> Option<bytes>, e: DecodeError) {
    if |data| < HEADER_SIZE then e == TooShort
    else if data[0] != BATCH_VERSION then e == BadVersion(data[0])
    else if data[1] != CODEC_NONE && data[1] != CODEC_ZSTD then e == UnknownCodec(data[1])
    else if HEADER_SIZE + PayloadLen(data) > |data| then e == PayloadPastBuffer
    else if Plain(data, decompress).None? then e == NotDecompressed
    else PayloadComplaint(Plain(data, decompress).value, Count(data), e)
  }

  /** A payload that breaks after some records holds no `n` of them. */
  lemma {:induction false} BrokenSpellsNothing(plain: bytes, n: nat, d: Decoded, e: DecodeError)
    requires BreaksAfter(plain, n, d, e)
    ensures forall x :: !Spells(plain, n, x)
  {
    hide Payload, Value, WellFormed;
    var o := |RunBytes(d)|;
    match e {
      case RecordHeaderPast(_) => NoHeaderLeft(plain, n, d.messages, d.signatures, o);
      case RecordBodyPast(_) =>
        assert plain[o..][28..32] == plain[o + 28..o + 32];
        NoBodyLeft(plain, n, d.messages, d.signatures, o);
      case TrailingBytes(_) => NothingTrails(plain, d.messages, d.signatures, o);
    }
  }

  lemma {:induction false} ComplaintSaysNothing(data: bytes, decompress: bytes -> Option<bytes>, e: DecodeError)
    requires DecodeComplaint(data, decompress, e)
    ensures forall d :: !Says(data, decompress, d)
  {
    hide BreaksAfter, Spells, Plain, Value;
    if HeaderGood(data) && Plain(data, decompress).Some? {
      var plain, n := Plain(data, decompress).value, Count(data);
      var d :| BreaksAfter(plain, n, d, e);
      BrokenSpellsNothing(plain, n, d, e);
    }
  }

  /** Bytes that start with two runs of records go on after the shorter with the next record of the longer. */
  lemma {:induction false} LongerStart(plain: bytes, a: Decoded, b: Decoded)
    requires StartsWith(plain, a) && StartsWith(plain, b) && |a.messages| <= |b.messages|
    ensures |a.messages| == |b.messages| ==> a == b
    ensures |a.messages| < |b.messages| ==>
              exists tail :: Opens(plain[|RunBytes(a)|..], b.messages[|a.messages|], b.signatures[|a.messages|], tail)
  {
    hide Payload, Record, Opens;
    var i, p, q := |a.messages|, |RunBytes(a)|, |RunBytes(b)|;
    var head, rest := Decoded(b.messages[..i], b.signatures[..i]), Decoded(b.messages[i..], b.signatures[i..]);
    assert b.messages == head.messages + rest.messages && b.signatures == head.signatures + rest.signatures;
    PayloadConcat(head.messages, head.signatures, rest.messages, rest.signatures);
    Regroup(RunBytes(head), RunBytes(rest), plain[q..]);
    assert plain == plain[..p] + plain[p..] == plain[..q] + plain[q..];
    PrefixCode(a, plain[p..], head, RunBytes(rest) + plain[q..]);
    if i < |b.messages| {
      HeadRecord(rest.messages, rest.signatures, plain[q..]);
    } else {
      assert head == b;
    }
  }

  /** A buffer has one first thing wrong with it at most. */
  lemma {:induction false} OneComplaint(data: bytes, decompress: bytes -> Option<bytes>, e: DecodeError, f: DecodeError)
    requires DecodeComplaint(data, decompress, e) && DecodeComplaint(data, decompress, f)
    ensures e == f
  {
    hide BreaksAfter, Plain, Value;
    if HeaderGood(data) && Plain(data, decompress).Some? {
      var plain, n := Plain(data, decompress).value, Count(data);
      var a :| BreaksAfter(plain, n, a, e);
      var b :| BreaksAfter(plain, n, b, f);
      OneBreak(plain, n, a, e, b, f);
    }
  }

  lemma {:induction false} OneBreak(plain: bytes, n: nat, a: Decoded, e: DecodeError, b: Decoded, f: DecodeError)
    requires BreaksAfter(plain, n, a, e) && BreaksAfter(plain, n, b, f)
    ensures e == f
  {
    hide Payload, Value, WellFormed;
    if |a.messages| <= |b.messages| {
      LongerStart(plain, a, b);
    } else {
      LongerStart(plain, b, a);
    }
  }

  /** The record whose fields stand at `o`. */
  lemma {:induction false} FieldsOpen(plain: bytes, o: nat, n: nat, m: Message, sig: bytes)
    requires o + 97 + n <= |plain| && |m.contents| == n && n == Value(plain[o + 28..o + 32])
    requires m.sender == plain[o..o + 20] && m.nonce == Value(plain[o + 20..o + 28])
    requires m.contents == plain[o + 32..o + 32 + n] && sig == plain[o + 32 + n..o + 97 + n]
    ensures Opens(plain[o..], m, sig, plain[o..][97 + n..]) && WellFormed(m, sig)
  {
    var p := plain[o..];
    ValueBound(p[20..28]);
    ValueBound(p[28..32]);
    Powers();
    hide Value, Power;
    assert p[..20] == plain[o..o + 20] && p[20..28] == plain[o + 20..o + 28] && p[28..32] == plain[o + 28..o + 32];
    assert p[32..32 + n] == m.contents && p[32 + n..97 + n] == sig;
  }

  /** Reads one record; the offset is advanced by the caller. */
  method ReadRecord(plain: bytes, o: nat) returns (m: Message, sig: bytes)
    requires o + 32 <= |plain| && o + 97 + Value(plain[o + 28..o + 32]) <= |plain|
    ensures WellFormed(m, sig) && |m.contents| == Value(plain[o + 28..o + 32])
    ensures Opens(plain[o..], m, sig, plain[o..][97 + |m.contents|..])
  {
    var sender := plain[o..o + 20];
    var nonce := ReadU64BE(plain, o + 20);
    var n := ReadU32BE(plain, o + 28);
    var contents := plain[o + 32..o + 32 + n];
    m, sig := Message(sender, nonce, contents), plain[o + 32 + n..o + 97 + n];
    FieldsOpen(plain, o, n, m, sig);
  }

  /** The records of a payload that is to hold `messageCount` of them. */
  method ReadRecords(plain: bytes, messageCount: nat) returns (r: Result<Decoded, DecodeError>)
    ensures r.Ok? ==> Spells(plain, messageCount, r.value)
    ensures r.Err? ==> PayloadComplaint(plain, messageCount, r.error)
  {
    hide Payload, Value, Opens, Record;
    var messages: seq<Message>, signatures: seq<bytes>, o: nat := [], [], 0;
    NoRecords();
    for i := 0 to messageCount
      invariant |messages| == i && AllWellFormed(messages, signatures)
      invariant o <= |plain| && plain[..o] == Payload(messages, signatures)
    {
      ghost var read := Decoded(messages, signatures);
      assert StartsWith(plain, read) && |RunBytes(read)| == o;
      if o + 20 + 8 + 4 > |plain| {
        assert BreaksAfter(plain, messageCount, read, RecordHeaderPast(i));
        return Err(RecordHeaderPast(i));
      }
      var contentsLen := ReadU32BE(plain, o + 28);
      assert plain[o..][28..32] == plain[o + 28..o + 32];
      if o + 32 + contentsLen + SIGNATURE_BYTES > |plain| {
        assert BreaksAfter(plain, messageCount, read, RecordBodyPast(i));
        return Err(RecordBodyPast(i));
      }
      var m, sig := ReadRecord(plain, o);
      ReadOn(plain, messages, signatures, o, m, sig, plain[o..][97 + |m.contents|..]);
      messages, signatures, o := messages + [m], signatures + [sig], o + 97 + contentsLen;
    }
    if o != |plain| {
      ghost var read := Decoded(messages, signatures);
      assert StartsWith(plain, read) && |RunBytes(read)| == o;
      assert BreaksAfter(plain, messageCount, read, TrailingBytes(|plain| - o));
      return Err(TrailingBytes(|plain| - o));
    }
    assert plain[..o] == plain;
    r := Ok(Decoded(messages, signatures));
  }

  /** Returns what the buffer says; fails exactly for a buffer that says nothing, with the first thing wrong with it. */
  method DecodeBatch(data: bytes, decompress: bytes -> Option<bytes>) returns (r: Result<Decoded, DecodeError>)
    ensures r.Ok? ==> Says(data, decompress, r.value)
    ensures r.Err? ==> DecodeComplaint(data, decompress, r.error)
    ensures r.Err? ==> forall d :: !Says(data, decompress, d)
  {
    hide Value, Plain, Spells, PayloadComplaint;
    if |data| < HEADER_SIZE {
      return Err(TooShort);
    }
    if data[0] != BATCH_VERSION {
      return Err(BadVersion(data[0]));
    }
    if data[1] != CODEC_NONE && data[1] != CODEC_ZSTD {
      return Err(UnknownCodec(data[1]));
    }
    var messageCount := ReadU32BE(data, 2);
    var payloadLen := ReadU32BE(data, 6);
    if HEADER_SIZE + payloadLen > |data| {
      return Err(PayloadPastBuffer);
    }
    var plain := Plain(data, decompress);
    if plain.None? {
      return Err(NotDecompressed);
    }
    r := ReadRecords(plain.value, messageCount);
    if r.Err? {
      ComplaintSaysNothing(data, decompress, r.error);
    }
  }

  lemma {:induction false} NoRecords()
    ensures Payload([], []) == [] && Concat([]) == []
  {
  }

  // ----- encoder and decoder together -----

  /** A buffer whose header announces `n` records in a payload of `size` bytes. */
  lemma {:induction false} HeaderReads(codec: byte, n: nat, size: nat, rest: bytes)
    requires n < U32
    ensures var data := Header(codec, n, size) + rest;
            && |data| >= HEADER_SIZE && data[0] == BATCH_VERSION && data[1] == codec && Count(data) == n
            && PayloadLen(data) == size % U32 && data[HEADER_SIZE..] == rest
  {
    var data := Header(codec, n, size) + rest;
    assert data[2..6] == BE(n, 4) && data[6..10] == BE(size, 4);
    Written32(n);
    Written32(size);
  }

  /** The first ten bytes of an encoded batch: version 2, the codec, the number of messages and the size of the payload, both
      in four bytes; the payload follows. */
  lemma {:induction false} EncodedHeader(ms: seq<Message>, sigs: seq<bytes>, zstd: bool)
    requires Encodable(ms, sigs, zstd)
    ensures var data := Encoding(ms, sigs, zstd);
      && |data| >= 10 && data[0] == 2 && data[1] == (if zstd then 1 else 0)
      && Value(data[2..6]) == |ms| && Value(data[6..10]) == |Payload(ms, sigs)| % 0x1_0000_0000
      && data[10..] == Payload(ms, sigs)
  {
    HeaderReads(if zstd then CODEC_ZSTD else CODEC_NONE, |ms|, |Payload(ms, sigs)|, Payload(ms, sigs));
    hide Payload, WellFormed, Value, Header;
  }

  lemma {:induction false} Truncated(n: nat)
    ensures n % U32 <= n && (n % U32 == n <==> n < U32)
  {
  }

  /** What a 32-bit length leaves of a payload. */
  function Cut(payload: bytes): bytes {
    Truncated(|payload|);
    payload[..|payload| % U32]
  }

  /** The decoder is left with the payload cut to its length modulo 2^32. */
  lemma {:induction false} EncodedReads(ms: seq<Message>, sigs: seq<bytes>, padding: bytes, decompress: bytes -> Option<bytes>)
    requires Encodable(ms, sigs, false)
    ensures var data := Encoding(ms, sigs, false) + padding;
            var payload := Payload(ms, sigs);
            && HeaderGood(data) && Count(data) == |ms|
            && Plain(data, decompress) == Some(Cut(payload))
  {
    hide Value, BE, Header;
    var payload := Payload(ms, sigs);
    hide WellFormed, Payload;
    var h := Header(CODEC_NONE, |ms|, |payload|);
    Regroup(h, payload, padding);
    HeaderReads(CODEC_NONE, |ms|, |payload|, payload + padding);
    hide Count, PayloadLen;
    var data, n := h + (payload + padding), |payload| % U32;
    Truncated(|payload|);
    assert data[HEADER_SIZE..HEADER_SIZE + n] == data[HEADER_SIZE..][..n] == (payload + padding)[..n] == payload[..n];
  }

  /** Whatever padding follows, an encoded batch decodes, and then to itself, exactly when its payload is under 4 GiB. */
  lemma {:induction false} RoundTripIff(ms: seq<Message>, sigs: seq<bytes>, padding: bytes, decompress: bytes -> Option<bytes>, d: Decoded)
    requires Encodable(ms, sigs, false)
    ensures Says(Encoding(ms, sigs, false) + padding, decompress, d)
            <==> d == Decoded(ms, sigs) && |Payload(ms, sigs)| < U32
  {
    EncodedReads(ms, sigs, padding, decompress);
    Truncated(|Payload(ms, sigs)|);
    CutSpells(ms, sigs, |Payload(ms, sigs)| % U32, d);
    hide Payload, Encoding, HeaderGood, Plain, Count, WellFormed, Spells;
  }

  /** A payload cut short spells nothing with as many records. */
  lemma {:induction false} CutSpells(ms: seq<Message>, sigs: seq<bytes>, n: nat, d: Decoded)
    requires AllWellFormed(ms, sigs) && n <= |Payload(ms, sigs)|
    ensures Spells(Payload(ms, sigs)[..n], |ms|, d) <==> d == Decoded(ms, sigs) && n == |Payload(ms, sigs)|
  {
    var payload := Payload(ms, sigs);
    hide Payload, WellFormed;
    assert payload + [] == payload && payload[..n] + payload[n..] == payload;
    if Spells(payload[..n], |ms|, d) {
      PrefixCode(Decoded(ms, sigs), [], d, payload[n..]);
    }
  }

  /** The header is what its own numbers would be written as. */
  lemma {:induction false} HeaderRewritten(data: bytes)
    requires HeaderGood(data) && data[1] == CODEC_NONE
    ensures Count(data) < U32 && Header(CODEC_NONE, Count(data), PayloadLen(data)) == data[..HEADER_SIZE]
  {
    ValueBound(data[2..6]);
    Powers();
    BEOfValue(data[2..6]);
    BEOfValue(data[6..10]);
    hide BE, Value, Power;
    assert data[..HEADER_SIZE] == data[..2] + data[2..6] + data[6..10];
    assert data[..2] == [BATCH_VERSION, CODEC_NONE];
  }

  lemma {:induction false} SaysPayload(data: bytes, decompress: bytes -> Option<bytes>, d: Decoded)
    requires Says(data, decompress, d) && data[1] == CODEC_NONE
    ensures AllWellFormed(d.messages, d.signatures) && |d.messages| == Count(data)
    ensures RunBytes(d) == data[HEADER_SIZE..HEADER_SIZE + PayloadLen(data)] && |RunBytes(d)| == PayloadLen(data)
  {
    hide Value, Payload, WellFormed;
  }

  /** Encoding again what a batch without compression says gives the header and payload bytes it was read from. */
  lemma {:induction false} ReencodingIsIdentity(data: bytes, decompress: bytes -> Option<bytes>, d: Decoded)
    requires Says(data, decompress, d) && data[1] == CODEC_NONE
    ensures Encodable(d.messages, d.signatures, false)
    ensures Encoding(d.messages, d.signatures, false) == data[..HEADER_SIZE + PayloadLen(data)]
  {
    HeaderRewritten(data);
    SaysPayload(data, decompress, d);
    var end := HEADER_SIZE + PayloadLen(data);
    hide Header, Payload, WellFormed, Says, Count, PayloadLen;
    assert data[..end] == data[..HEADER_SIZE] + data[HEADER_SIZE..end];
  }

  /** Asking for zstd succeeds exactly for a payload that happens to open with the frame magic; nothing compresses it. */
  lemma {:induction false} ZstdLeavesPayloadRaw(ms: seq<Message>, sigs: seq<bytes>)
    requires Encodable(ms, sigs, false)
    ensures Encodable(ms, sigs, true) <==> ms != [] && IsCompressed(ms[0].sender)
    ensures Encodable(ms, sigs, true) ==>
              Encoding(ms, sigs, true)[HEADER_SIZE..] == Encoding(ms, sigs, false)[HEADER_SIZE..] == Payload(ms, sigs)
  {
    var payload := Payload(ms, sigs);
    if ms != [] {
      HeadRecord(ms, sigs, []);
      assert WellFormed(ms[0], sigs[0]);
      assert payload + [] == payload;
      hide Record, Payload, WellFormed, Value;
      assert payload[..4] == payload[..20][..4];
    }
    hide Header;
  }
}
