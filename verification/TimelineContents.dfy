// What stands in a timeline, field by field, against the rows of the Reader or the messages of the blobs.
module TimelineContents {
  import opened Wrappers
  import opened Bytes
  import opened Text
  import opened BatchCodec
  import opened Timeline
  import opened TimelinePaths

  /** The tweet is what the row says: nothing is missing in the row, and each field is that of the row. */
  ghost predicate ShowsRow(c: Codecs, row: Row, t: Tweet) {
    && t.author == row.author && t.messageHash == row.messageHash
    && row.nonce == Some(t.nonce)
    && row.contents.Some? && c.decodeApp(row.contents.value) == Some(t.app)
    && row.blockNumber == Some(t.coord.blockNumber) && row.txIndex == Some(t.coord.txIndex)
    && row.messageIndex == Some(t.coord.messageIndex)
    && t.txHash == (match row.batchRef case Some(ref) => ref case None => "")
  }

  /** The tweet is what message `i` of the batch says, at the place of the batch. */
  ghost predicate ShowsMessage(c: Codecs, b: BlobBatch, i: nat, t: Tweet) {
    && i < |BatchMessages(c, b)|
    && var m := BatchMessages(c, b)[i];
    && t.author == Hex(m.sender) && t.nonce == m.nonce && t.messageHash == ""
    && c.decodeApp(m.contents) == Some(t.app)
    && t.coord.blockNumber == b.blockNumber && t.coord.txIndex == b.txIndex && t.coord.messageIndex == i
    && t.txHash == b.txHash
  }

  /** Two lower-case hex digits a byte. */
  lemma {:induction false} HexAt(b: bytes, i: nat)
    requires i < |b|
    ensures |Hex(b)| == 2 + 2 * |b| && Hex(b)[..2] == "0x"
    ensures Hex(b)[2 + 2 * i] == "0123456789abcdef"[b[i] / 16] && Hex(b)[3 + 2 * i] == "0123456789abcdef"[b[i] % 16]
    decreases |b|
  {
    var n := |b| - 1;
    Nibbles(High(b[n]));
    Nibbles(Low(b[n]));
    if n == 0 {
      assert Hex(b[..0]) == "0x";
    } else {
      HexAt(b[..n], if i < n then i else 0);
    }
  }

  lemma {:induction false} Nibbles(n: nat)
    requires n < 16
    ensures Nibble(n) == "0123456789abcdef"[n]
  {
  }

  lemma {:induction false} RowsShown(c: Codecs, rows: seq<Row>, t: Tweet)
    ensures t in DecodeRows(c, rows) <==> exists row :: row in rows && ShowsRow(c, row, t)
    decreases |rows|
  {
    if rows != [] {
      var init, last := rows[..|rows| - 1], rows[|rows| - 1];
      RowsShown(c, init, t);
      assert DecodeRow(c, last) == Some(t) <==> ShowsRow(c, last, t);
      assert forall row :: row in rows <==> row in init || row == last;
      hide ShowsRow, DecodeRow;
    }
  }

  /** The first `n` messages and the next. */
  lemma {:induction false} MessagesAppend(c: Codecs, b: BlobBatch, n: nat)
    requires n < |BatchMessages(c, b)|
    ensures var ms := BatchMessages(c, b);
      MessageTweets(c, b, ms[..n + 1]) == MessageTweets(c, b, ms[..n]) + match MessageTweet(c, b, ms[n], n)
                                                                         case Some(t) => [t]
                                                                         case None => []
  {
    hide MessageTweet;
    assert BatchMessages(c, b)[..n + 1][..n] == BatchMessages(c, b)[..n];
  }

  lemma {:induction false} MessageShown(c: Codecs, b: BlobBatch, i: nat, t: Tweet)
    requires i < |BatchMessages(c, b)|
    ensures MessageTweet(c, b, BatchMessages(c, b)[i], i) == Some(t) <==> ShowsMessage(c, b, i, t)
  {
    hide BatchMessages;
  }

  lemma {:induction false} MessagesShown(c: Codecs, b: BlobBatch, n: nat, t: Tweet)
    requires n <= |BatchMessages(c, b)|
    ensures t in MessageTweets(c, b, BatchMessages(c, b)[..n]) <==> exists i: nat :: i < n && ShowsMessage(c, b, i, t)
  {
    hide ShowsMessage, MessageTweet, BatchMessages;
    if n > 0 {
      hide MessageTweets;
      MessagesShown(c, b, n - 1, t);
      MessagesAppend(c, b, n - 1);
      MessageShown(c, b, n - 1, t);
    }
  }

  ghost predicate InBatch(c: Codecs, b: BlobBatch, t: Tweet) {
    exists i: nat :: ShowsMessage(c, b, i, t)
  }

  lemma {:induction false} BatchShown(c: Codecs, b: BlobBatch, t: Tweet)
    ensures t in MessageTweets(c, b, BatchMessages(c, b)) <==> InBatch(c, b, t)
  {
    hide MessageTweets, BatchMessages;
    var ms := BatchMessages(c, b);
    MessagesShown(c, b, |ms|, t);
    assert ms[..|ms|] == ms;
    assert forall i: nat :: ShowsMessage(c, b, i, t) ==> i < |ms|;
    hide ShowsMessage;
  }

  lemma {:induction false} BlobsShown(c: Codecs, batches: seq<BlobBatch>, t: Tweet)
    ensures t in BlobTweets(c, batches) <==> exists b :: b in batches && InBatch(c, b, t)
    decreases |batches|
  {
    hide InBatch, MessageTweets, BatchMessages;
    if batches != [] {
      var init, b := batches[..|batches| - 1], batches[|batches| - 1];
      BlobsShown(c, init, t);
      BatchShown(c, b, t);
      assert forall x :: x in batches <==> x in init || x == b;
    }
  }

  /** The author, however cased, and the nonce. */
  predicate SameSlot(t: Tweet, u: Tweet) {
    ToLower(t.author) == ToLower(u.author) && t.nonce == u.nonce
  }

  /** Block first, then transaction, then message. */
  predicate NotAfter(a: Coord, b: Coord) {
    || a.blockNumber < b.blockNumber
    || (a.blockNumber == b.blockNumber && a.txIndex < b.txIndex)
    || (a.blockNumber == b.blockNumber && a.txIndex == b.txIndex && a.messageIndex <= b.messageIndex)
  }

  /** In chain order, one tweet a slot. */
  ghost predicate OnePerSlotInOrder(timeline: seq<Tweet>) {
    forall i, j :: 0 <= i < j < |timeline| ==>
      NotAfter(timeline[i].coord, timeline[j].coord) && !SameSlot(timeline[i], timeline[j])
  }

  /** `u` or an earlier tweet of its slot is there. */
  ghost predicate Covered(timeline: seq<Tweet>, u: Tweet) {
    exists t :: t in timeline && SameSlot(t, u) && NotAfter(t.coord, u.coord)
  }

  lemma {:induction false} TimelineCovers(decoded: seq<Tweet>)
    ensures OnePerSlotInOrder(Timeline.Timeline(decoded))
    ensures forall t :: t in Timeline.Timeline(decoded) ==> t in decoded
    ensures forall u :: u in decoded ==> Covered(Timeline.Timeline(decoded), u)
  {
    TimelineKeepsEarliest(decoded);
    var r := Timeline.Timeline(decoded);
    assert forall t, u :: SameSlot(t, u) <==> Key(t) == Key(u);
    assert forall a, b :: NotAfter(a, b) <==> AtMost(a, b);
    hide ChainSort, Firsts, Timeline.Timeline;
    forall u | u in decoded ensures Covered(r, u) {
      var i :| 0 <= i < |r| && Key(r[i]) == Key(u);
      assert r[i] in r && SameSlot(r[i], u);
    }
  }

  /** The Reader's rows give: one tweet a slot in chain order, each what some row says, and for whatever a row says that
      tweet or an earlier one of its slot. */
  lemma {:induction false} RowTimelineShows(c: Codecs, rows: seq<Row>)
    ensures var timeline := Timeline.Timeline(DecodeRows(c, rows));
      && OnePerSlotInOrder(timeline)
      && (forall t :: t in timeline ==> exists row :: row in rows && ShowsRow(c, row, t))
      && (forall row, u :: row in rows && ShowsRow(c, row, u) ==> Covered(timeline, u))
  {
    var decoded := DecodeRows(c, rows);
    TimelineCovers(decoded);
    forall t ensures t in decoded <==> exists row :: row in rows && ShowsRow(c, row, t) {
      RowsShown(c, rows, t);
    }
    hide ShowsRow, DecodeRows, Covered, OnePerSlotInOrder, Timeline.Timeline;
  }

  /** And so do the blobs, with the messages of their batches. */
  lemma {:induction false} BlobTimelineShows(c: Codecs, batches: seq<BlobBatch>)
    ensures var timeline := Timeline.Timeline(BlobTweets(c, SortBatches(batches)));
      && OnePerSlotInOrder(timeline)
      && (forall t :: t in timeline ==> exists b :: b in batches && InBatch(c, b, t))
      && (forall b, u :: b in batches && InBatch(c, b, u) ==> Covered(timeline, u))
  {
    var sorted := SortBatches(batches);
    var decoded := BlobTweets(c, sorted);
    TimelineCovers(decoded);
    assert forall b :: b in sorted <==> b in multiset(sorted);
    assert forall b :: b in batches <==> b in multiset(batches);
    hide InBatch, BlobTweets, Covered, OnePerSlotInOrder, Timeline.Timeline, SortBatches;
    forall t ensures t in decoded <==> exists b :: b in batches && InBatch(c, b, t) {
      BlobsShown(c, sorted, t);
    }
  }
}
