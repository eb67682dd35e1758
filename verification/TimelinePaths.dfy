// apps/bam-indexer/src/pipeline.ts: the two ways to a timeline, from the Reader's rows and from raw blobs.
module TimelinePaths {
  import opened Wrappers
  import opened Bytes
  import opened BatchCodec
  import opened Segment
  import opened Timeline

  /** A row of the Reader; `nonce` and `contents` are absent when their text does not parse. */
  datatype Row = Row(
    author: string, nonce: Option<int>, contents: Option<bytes>, messageHash: string, batchRef: Option<string>,
    blockNumber: Option<nat>, txIndex: Option<nat>, messageIndex: Option<nat>)

  datatype BlobBatch = BlobBatch(
    blockNumber: nat, txIndex: nat, logIndex: nat, txHash: string, startFE: int, endFE: int, blobBytes: bytes)

  /** decodeTwitterContents and the zstd library, as functions that may fail. */
  datatype Codecs = Codecs(decodeApp: bytes -> Option<App>, decompress: bytes -> Option<bytes>)

  datatype Built = Built(timeline: seq<Tweet>, skippedDecode: nat, skippedDedup: nat)

  function Nibble(n: nat): char
    requires n < 16
  {
    if n < 10 then ('0' as int + n) as char else ('a' as int + n - 10) as char
  }

  /** `bytesToHex`. */
  function Hex(b: bytes): string {
    if b == [] then "0x" else Hex(b[..|b| - 1]) + [Nibble(High(b[|b| - 1])), Nibble(Low(b[|b| - 1]))]
  }

  function High(b: byte): (n: nat)
    ensures n < 16
  {
    b / 16
  }

  function Low(b: byte): (n: nat)
    ensures n < 16
  {
    b % 16
  }

  // ----- decoding -----

  function DecodeRow(c: Codecs, row: Row): Option<Tweet> {
    if row.blockNumber.None? || row.txIndex.None? || row.messageIndex.None? then None
    else if row.contents.None? || c.decodeApp(row.contents.value).None? || row.nonce.None? then None
    else
      Some(Tweet(row.author, row.nonce.value, row.messageHash, c.decodeApp(row.contents.value).value,
                 Coord(row.blockNumber.value, row.txIndex.value, row.messageIndex.value), row.batchRef.GetOr("")))
  }

  function DecodeRows(c: Codecs, rows: seq<Row>): seq<Tweet> {
    if rows == [] then []
    else
      var t := DecodeRow(c, rows[|rows| - 1]);
      DecodeRows(c, rows[..|rows| - 1]) + if t.Some? then [t.value] else []
  }

  function MessageTweet(c: Codecs, b: BlobBatch, m: Message, index: nat): Option<Tweet> {
    var app := c.decodeApp(m.contents);
    if app.None? then None
    else Some(Tweet(Hex(m.sender), m.nonce, "", app.value, Coord(b.blockNumber, b.txIndex, index), b.txHash))
  }

  function MessageTweets(c: Codecs, b: BlobBatch, ms: seq<Message>): seq<Tweet> {
    if ms == [] then []
    else
      var t := MessageTweet(c, b, ms[|ms| - 1], |ms| - 1);
      MessageTweets(c, b, ms[..|ms| - 1]) + if t.Some? then [t.value] else []
  }

  ghost predicate BatchSays(c: Codecs, b: BlobBatch, d: Decoded) {
    InRange(b.blobBytes, b.startFE, b.endFE) && Says(Usable(b.blobBytes, b.startFE, b.endFE), c.decompress, d)
  }

  ghost function WhatBatchSays(c: Codecs, b: BlobBatch): (r: Option<Decoded>)
    ensures r.Some? ==> BatchSays(c, b, r.value)
    ensures r.None? ==> forall d :: !BatchSays(c, b, d)
  {
    if exists d :: BatchSays(c, b, d) then
      var d :| BatchSays(c, b, d);
      Some(d)
    else None
  }

  /** The messages of a batch; none when its segment cannot be extracted or decoded. */
  ghost function BatchMessages(c: Codecs, b: BlobBatch): seq<Message> {
    var d := WhatBatchSays(c, b);
    if d.Some? then d.value.messages else []
  }

  lemma {:induction false} BatchMessagesAre(c: Codecs, b: BlobBatch, d: Decoded)
    requires BatchSays(c, b, d)
    ensures BatchMessages(c, b) == d.messages
  {
    SaysOne(Usable(b.blobBytes, b.startFE, b.endFE), c.decompress, d, WhatBatchSays(c, b).value);
  }

  ghost function BlobTweets(c: Codecs, batches: seq<BlobBatch>): seq<Tweet> {
    if batches == [] then []
    else
      var b := batches[|batches| - 1];
      BlobTweets(c, batches[..|batches| - 1]) + MessageTweets(c, b, BatchMessages(c, b))
  }

  /** What a batch adds to the counts: its messages, or itself when it cannot be extracted or decoded. */
  ghost function Carried(c: Codecs, b: BlobBatch): nat {
    var d := WhatBatchSays(c, b);
    if d.Some? then |d.value.messages| else 1
  }

  ghost function AllCarried(c: Codecs, batches: seq<BlobBatch>): nat {
    if batches == [] then 0 else AllCarried(c, batches[..|batches| - 1]) + Carried(c, batches[|batches| - 1])
  }

  // ----- the common second half -----

  /** Drops all but the first of every (author, nonce), counting what it drops. */
  method DropRepeats(decoded: seq<Tweet>) returns (timeline: seq<Tweet>, skippedDedup: nat)
    ensures timeline == Firsts(decoded) && |decoded| == |timeline| + skippedDedup
  {
    var seen: set<(string, int)> := {};
    timeline, skippedDedup := [], 0;
    for i := 0 to |decoded|
      invariant timeline == Firsts(decoded[..i]) && i == |timeline| + skippedDedup
      invariant forall key :: key in seen <==> Seen(decoded[..i], key)
    {
      var tweet := decoded[i];
      var key := Key(tweet);
      assert decoded[..i + 1][..i] == decoded[..i];
      SeenStep(decoded, i);
      hide Key, Seen;
      if key in seen {
        skippedDedup := skippedDedup + 1;
      } else {
        seen := seen + {key};
        timeline := timeline + [tweet];
      }
    }
    assert decoded[..|decoded|] == decoded;
  }

  lemma {:induction false} SeenStep(s: seq<Tweet>, i: nat)
    requires i < |s|
    ensures forall key :: Seen(s[..i + 1], key) <==> Seen(s[..i], key) || key == Key(s[i])
  {
    assert s[..i + 1] == s[..i] + [s[i]];
    forall key ensures Seen(s[..i + 1], key) <==> Seen(s[..i], key) || key == Key(s[i]) {
      if Seen(s[..i], key) {
        var j :| 0 <= j < i && Key(s[..i][j]) == key;
        assert Key(s[..i + 1][j]) == key;
      }
      if key == Key(s[i]) {
        assert Key(s[..i + 1][i]) == key;
      }
    }
  }

  // ----- from rows -----

  method BuildTimeline(c: Codecs, rows: seq<Row>) returns (r: Built)
    ensures r.timeline == Timeline.Timeline(DecodeRows(c, rows))
    ensures r.skippedDecode == |rows| - |DecodeRows(c, rows)|
    ensures |rows| == |r.timeline| + r.skippedDecode + r.skippedDedup
  {
    var skippedDecode: nat := 0;
    var decoded: seq<Tweet> := [];
    for i := 0 to |rows|
      invariant decoded == DecodeRows(c, rows[..i]) && i == |decoded| + skippedDecode
    {
      assert rows[..i + 1][..i] == rows[..i];
      var tweet := DecodeRow(c, rows[i]);
      if tweet.Some? {
        decoded := decoded + [tweet.value];
      } else {
        skippedDecode := skippedDecode + 1;
      }
    }
    assert rows[..|rows|] == rows;
    var sorted := ChainSort(decoded);
    SameSize(decoded, sorted);
    var timeline, skippedDedup := DropRepeats(sorted);
    r := Built(timeline, skippedDecode, skippedDedup);
  }

  lemma {:induction false} SameSize(a: seq<Tweet>, b: seq<Tweet>)
    requires multiset(a) == multiset(b)
    ensures |a| == |b|
  {
    assert |a| == |multiset(a)| && |b| == |multiset(b)|;
  }

  // ----- from blobs -----

  predicate BatchAtMost(a: BlobBatch, b: BlobBatch) {
    a.blockNumber < b.blockNumber || (a.blockNumber == b.blockNumber && a.logIndex <= b.logIndex)
  }

  function PlaceBatch(s: seq<BlobBatch>, b: BlobBatch): (r: seq<BlobBatch>)
    ensures multiset(r) == multiset(s) + multiset{b}
  {
    if s == [] || BatchAtMost(s[|s| - 1], b) then s + [b]
    else
      assert s == s[..|s| - 1] + [s[|s| - 1]];
      PlaceBatch(s[..|s| - 1], b) + [s[|s| - 1]]
  }

  /** The library's stable sort by block and log index. */
  function SortBatches(s: seq<BlobBatch>): (r: seq<BlobBatch>)
    ensures multiset(r) == multiset(s)
  {
    if s == [] then []
    else
      assert s == s[..|s| - 1] + [s[|s| - 1]];
      PlaceBatch(SortBatches(s[..|s| - 1]), s[|s| - 1])
  }

  /** Extracts and decodes one segment, catching what they throw. */
  method ReadBatch(c: Codecs, b: BlobBatch) returns (r: Option<seq<Message>>)
    ensures BatchMessages(c, b) == r.GetOr([])
    ensures r.None? <==> forall d :: !BatchSays(c, b, d)
    ensures Carried(c, b) == if r.Some? then |r.value| else 1
  {
    var usable := ExtractSegmentBytes(b.blobBytes, b.startFE, b.endFE);
    if usable.Err? {
      return None;
    }
    var d := DecodeBatch(usable.value, c.decompress);
    if d.Err? {
      return None;
    }
    BatchMessagesAre(c, b, d.value);
    assert BatchSays(c, b, d.value);
    r := Some(d.value.messages);
  }

  lemma {:induction false} NoMessages(c: Codecs, b: BlobBatch)
    ensures MessageTweets(c, b, []) == []
  {
  }

  method AppendTweets(c: Codecs, batch: BlobBatch, messages: seq<Message>, before: seq<Tweet>)
    returns (decoded: seq<Tweet>, skipped: nat)
    ensures decoded == before + MessageTweets(c, batch, messages)
    ensures |messages| == |MessageTweets(c, batch, messages)| + skipped
  {
    decoded, skipped := before, 0;
    for msgIdx := 0 to |messages|
      invariant decoded == before + MessageTweets(c, batch, messages[..msgIdx])
      invariant msgIdx == |MessageTweets(c, batch, messages[..msgIdx])| + skipped
    {
      assert messages[..msgIdx + 1][..msgIdx] == messages[..msgIdx];
      var tweet := MessageTweet(c, batch, messages[msgIdx], msgIdx);
      hide MessageTweet;
      if tweet.Some? {
        decoded := decoded + [tweet.value];
      } else {
        skipped := skipped + 1;
      }
    }
    assert messages[..|messages|] == messages;
  }

  method BuildTimelineFromBlobs(c: Codecs, batches: seq<BlobBatch>) returns (r: Built)
    ensures r.timeline == Timeline.Timeline(BlobTweets(c, SortBatches(batches)))
    ensures |BlobTweets(c, SortBatches(batches))| == |r.timeline| + r.skippedDedup
    ensures AllCarried(c, SortBatches(batches)) == |r.timeline| + r.skippedDecode + r.skippedDedup
  {
    hide BatchMessages, MessageTweets, BatchSays, Carried;
    var skippedDecode: nat := 0;
    var sorted := SortBatches(batches);
    var decoded: seq<Tweet> := [];
    for k := 0 to |sorted|
      invariant decoded == BlobTweets(c, sorted[..k])
      invariant AllCarried(c, sorted[..k]) == |decoded| + skippedDecode
    {
      var batch := sorted[k];
      assert sorted[..k + 1][..k] == sorted[..k];
      var messages := ReadBatch(c, batch);
      if messages.None? {
        skippedDecode := skippedDecode + 1;
        NoMessages(c, batch);
      } else {
        var skipped;
        decoded, skipped := AppendTweets(c, batch, messages.value, decoded);
        skippedDecode := skippedDecode + skipped;
      }
    }
    assert sorted[..|sorted|] == sorted;
    var ordered := ChainSort(decoded);
    SameSize(decoded, ordered);
    var timeline, skippedDedup := DropRepeats(ordered);
    r := Built(timeline, skippedDecode, skippedDedup);
  }
}
