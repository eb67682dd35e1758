// computeTimelineRoot of apps/bam-indexer/src/pipeline.ts: the bytes hashed into the timeline root.
module TimelineRoot {
  import opened Bytes
  import opened BigEndian

  /** What the root covers of a tweet: its sender as 20 bytes and its text as UTF-8 bytes. */
  datatype Leaf = Leaf(sender: bytes, nonce: nat, timestamp: nat, content: bytes)

  ghost predicate Within(ls: seq<Leaf>, limit: nat) {
    forall i :: 0 <= i < |ls| ==> |ls[i].sender| == 20 && ls[i].nonce < U64 && ls[i].timestamp < U64 && |ls[i].content| <= limit
  }

  function LeafRecord(l: Leaf): bytes {
    l.sender + BE(l.nonce, 8) + BE(l.timestamp, 8) + l.content
  }

  /** The record behind its length, which is written in four bytes and wraps. */
  function LeafFrame(l: Leaf): bytes {
    BE(|LeafRecord(l)|, 4) + LeafRecord(l)
  }

  function RootPreimage(ls: seq<Leaf>): bytes {
    if ls == [] then [] else LeafFrame(ls[0]) + RootPreimage(ls[1..])
  }

  /** One record, written field by field into its buffer. */
  method WriteRecord(l: Leaf) returns (record: bytes)
    requires |l.sender| == 20
    ensures record == LeafRecord(l)
  {
    var buf := new byte[20 + 8 + 8 + |l.content|];
    SetBytes(buf, l.sender, 0);
    WriteU64BE(buf, 20, l.nonce);
    WriteU64BE(buf, 28, l.timestamp);
    SetBytes(buf, l.content, 36);
    record := buf[..];
    hide BE;
    assert record == record[..20] + record[20..28] + record[28..36] + record[36..];
  }

  /** Feeds the hasher one tweet: the length, then the record. */
  method FeedLeaf(fed: bytes, l: Leaf) returns (hashed: bytes)
    requires |l.sender| == 20
    ensures hashed == fed + LeafFrame(l)
  {
    var record := WriteRecord(l);
    var lenBuf := new byte[4];
    WriteU32BE(lenBuf, 0, |record|);
    assert lenBuf[..] == BE(|record|, 4);
    hide BE, LeafRecord;
    hashed := fed + lenBuf[..];
    hashed := hashed + record;
  }

  /** The bytes the hasher has been fed after the loop. */
  method FeedRoot(ls: seq<Leaf>) returns (hashed: bytes)
    requires forall i :: 0 <= i < |ls| ==> |ls[i].sender| == 20
    ensures hashed == RootPreimage(ls)
  {
    hide LeafFrame;
    hashed := [];
    for i := 0 to |ls|
      invariant hashed + RootPreimage(ls[i..]) == RootPreimage(ls)
    {
      assert ls[i..][1..] == ls[i + 1..];
      ghost var before, rest := hashed, RootPreimage(ls[i + 1..]);
      hashed := FeedLeaf(hashed, ls[i]);
      assert (before + LeafFrame(ls[i])) + rest == before + (LeafFrame(ls[i]) + rest);
    }
  }

  ghost predicate LeafOpens(p: bytes, l: Leaf, tail: bytes) {
    var n := |l.content|;
    && |p| >= 40 + n && Value(p[..4]) == (36 + n) % U32 && p[4..24] == l.sender && Value(p[24..32]) == l.nonce
    && Value(p[32..40]) == l.timestamp && p[40..40 + n] == l.content && p[40 + n..] == tail
  }

  lemma {:induction false} LeafFrameOpens(l: Leaf, tail: bytes)
    requires |l.sender| == 20 && l.nonce < U64 && l.timestamp < U64
    ensures LeafOpens(LeafFrame(l) + tail, l, tail)
  {
    hide BE, Value;
    var n := |l.content|;
    var len, nonce, time := BE(36 + n, 4), BE(l.nonce, 8), BE(l.timestamp, 8);
    Written32(36 + n);
    Written64(l.nonce);
    Written64(l.timestamp);
    var p := LeafFrame(l) + tail;
    assert p == len + l.sender + nonce + time + l.content + tail;
    hide LeafFrame;
    assert p[..4] == len;
    assert p[4..24] == l.sender;
    assert p[24..32] == nonce;
    assert p[32..40] == time;
    assert p[40..40 + n] == l.content;
    assert p[40 + n..] == tail;
  }

  /** Lengths under 2^32 of the text are told apart by the wrapped record length. */
  lemma {:induction false} LengthsTold(m: nat, n: nat)
    requires m < U32 && n < U32 && (36 + m) % U32 == (36 + n) % U32
    ensures m == n
  {
  }

  lemma {:induction false} LeafOpensOne(p: bytes, a: Leaf, x: bytes, b: Leaf, y: bytes)
    requires LeafOpens(p, a, x) && LeafOpens(p, b, y) && |a.content| < U32 && |b.content| < U32
    ensures a == b && x == y
  {
    LengthsTold(|a.content|, |b.content|);
  }

  lemma {:induction false} RootInjective(a: seq<Leaf>, b: seq<Leaf>, limit: nat)
    requires limit < U32 && Within(a, limit) && Within(b, limit) && RootPreimage(a) == RootPreimage(b)
    ensures a == b
  {
    hide LeafOpens, LeafFrame;
    if a != [] && b != [] {
      var p, x, y := RootPreimage(a), RootPreimage(a[1..]), RootPreimage(b[1..]);
      LeafFrameOpens(a[0], x);
      LeafFrameOpens(b[0], y);
      LeafOpensOne(p, a[0], x, b[0], y);
      RootInjective(a[1..], b[1..], limit);
      assert a == [a[0]] + a[1..] && b == [b[0]] + b[1..];
    } else {
      LeavesAreNotEmpty(a);
      LeavesAreNotEmpty(b);
    }
  }

  lemma {:induction false} LeavesAreNotEmpty(a: seq<Leaf>)
    ensures a == [] <==> RootPreimage(a) == []
  {
    hide BE;
  }

  /** A record length that wraps hides a second tweet inside the first. */
  lemma {:induction false} RootCollides(b0: Leaf, b1: Leaf) returns (a: Leaf)
    requires Within([b0, b1], U32) && b0.content == [] && |b1.content| == U32 - 40
    ensures Within([a], U32) && |a.content| == U32 && RootPreimage([a]) == RootPreimage([b0, b1])
  {
    hide BE;
    assert Within([b0], U32) by { assert [b0, b1][0] == b0; }
    assert [b0][0] == b0;
    var f1 := LeafFrame(b1);
    assert |[b0, b1][1].sender| == 20;
    assert |f1| == U32;
    a := b0.(content := f1);
    hide LeafFrame;
    SameLength();
    assert LeafRecord(a) == LeafRecord(b0) + f1;
    assert LeafFrame(a) == LeafFrame(b0) + f1 by { FrameIs(a); FrameIs(b0); }
    OneLeaf(a);
    OneLeaf(b1);
    assert [b0, b1][1..] == [b1];
  }

  lemma {:induction false} FrameIs(l: Leaf)
    ensures LeafFrame(l) == BE(|LeafRecord(l)|, 4) + LeafRecord(l)
  {
  }

  lemma {:induction false} SameLength()
    ensures BE(36 + U32, 4) == BE(36, 4)
  {
    Written32(36 + U32);
    Written32(36);
    BEOfValue(BE(36 + U32, 4));
    BEOfValue(BE(36, 4));
  }

  lemma {:induction false} OneLeaf(l: Leaf)
    ensures RootPreimage([l]) == LeafFrame(l)
  {
    hide LeafFrame;
    assert RootPreimage([l]) == LeafFrame(l) + RootPreimage([]);
  }

  /** Timelines with the same preimage are the same for texts up to a limit exactly when the limit fits in 32 bits. */
  lemma {:induction false} RootInjectiveIff(limit: nat)
    ensures (forall a, b | Within(a, limit) && Within(b, limit) && RootPreimage(a) == RootPreimage(b) :: a == b)
            <==> limit < U32
  {
    if limit < U32 {
      forall a, b | Within(a, limit) && Within(b, limit) && RootPreimage(a) == RootPreimage(b) ensures a == b {
        RootInjective(a, b, limit);
      }
    } else {
      var zeros := seq<byte>(U32 - 40, i => 0);
      var b0 := Leaf(zeros[..20], 0, 0, []);
      var b1 := b0.(content := zeros);
      var a := RootCollides(b0, b1);
      hide RootPreimage;
      assert Within([a], limit) && Within([b0, b1], limit);
      assert |[a]| != |[b0, b1]|;
    }
  }
}
