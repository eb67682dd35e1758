// The two timeline paths of apps/bam-indexer/src/pipeline.ts give the same tweets in the same order.
module TimelineAgreement {
  import opened Wrappers
  import opened Sequences
  import opened BatchCodec
  import opened Timeline
  import opened TimelinePaths

  /** A tweet without the two fields only one path knows. */
  function Bare(t: Tweet): Tweet {
    t.(messageHash := "", txHash := "")
  }

  function BareAll(s: seq<Tweet>): (r: seq<Tweet>)
    ensures |r| == |s| && forall i :: 0 <= i < |s| ==> r[i] == Bare(s[i])
  {
    if s == [] then [] else BareAll(s[..|s| - 1]) + [Bare(s[|s| - 1])]
  }

  lemma {:induction false} BareSplit(s: seq<Tweet>)
    requires s != []
    ensures BareAll(s)[..|s| - 1] == BareAll(s[..|s| - 1]) && BareAll(s)[|s| - 1] == Bare(s[|s| - 1])
  {
  }

  lemma {:induction false} BareAppend(s: seq<Tweet>, t: Tweet)
    ensures BareAll(s + [t]) == BareAll(s) + [Bare(t)]
  {
  }

  lemma {:induction false} PlaceBare(s: seq<Tweet>, t: Tweet)
    ensures Place(BareAll(s), Bare(t)) == BareAll(Place(s, t))
  {
    var n := |s| - 1;
    if s == [] || AtMost(s[n].coord, t.coord) {
      BareAppend(s, t);
    } else {
      BareSplit(s);
      PlaceBare(s[..n], t);
      BareAppend(Place(s[..n], t), s[n]);
    }
  }

  lemma {:induction false} SortBare(s: seq<Tweet>)
    ensures ChainSort(BareAll(s)) == BareAll(ChainSort(s))
  {
    if s != [] {
      BareSplit(s);
      SortBare(s[..|s| - 1]);
      PlaceBare(ChainSort(s[..|s| - 1]), s[|s| - 1]);
    }
  }

  lemma {:induction false} SeenBare(s: seq<Tweet>, key: (string, int))
    ensures Seen(BareAll(s), key) <==> Seen(s, key)
  {
    assert forall i :: 0 <= i < |s| ==> Key(BareAll(s)[i]) == Key(s[i]);
    if Seen(s, key) {
      var i :| 0 <= i < |s| && Key(s[i]) == key;
      assert Key(BareAll(s)[i]) == key;
    }
  }

  lemma {:induction false} FirstsBare(s: seq<Tweet>)
    ensures Firsts(BareAll(s)) == BareAll(Firsts(s))
  {
    if s != [] {
      var n := |s| - 1;
      BareSplit(s);
      FirstsBare(s[..n]);
      SeenBare(s[..n], Key(s[n]));
      BareAppend(Firsts(s[..n]), s[n]);
    }
  }

  lemma {:induction false} TimelineBare(s: seq<Tweet>)
    ensures Timeline.Timeline(BareAll(s)) == BareAll(Timeline.Timeline(s))
  {
    SortBare(s);
    FirstsBare(ChainSort(s));
  }

  // ----- the rows of the batches -----

  function MessageRow(b: BlobBatch, m: Message, index: nat): Row {
    Row(Hex(m.sender), Some(m.nonce), Some(m.contents), "", None, Some(b.blockNumber), Some(b.txIndex), Some(index))
  }

  function MessageRows(b: BlobBatch, ms: seq<Message>): seq<Row> {
    if ms == [] then [] else MessageRows(b, ms[..|ms| - 1]) + [MessageRow(b, ms[|ms| - 1], |ms| - 1)]
  }

  /** The Reader's row for each message of each batch. */
  ghost function RowsOf(c: Codecs, batches: seq<BlobBatch>): seq<Row> {
    if batches == [] then []
    else
      var b := batches[|batches| - 1];
      RowsOf(c, batches[..|batches| - 1]) + MessageRows(b, BatchMessages(c, b))
  }

  function BareRow(r: Row): Row {
    r.(messageHash := "", batchRef := None)
  }

  function BareRows(rows: seq<Row>): seq<Row> {
    if rows == [] then [] else BareRows(rows[..|rows| - 1]) + [BareRow(rows[|rows| - 1])]
  }

  lemma {:induction false} DecodeBareRows(c: Codecs, rows: seq<Row>)
    ensures DecodeRows(c, BareRows(rows)) == BareAll(DecodeRows(c, rows))
  {
    if rows != [] {
      var n := |rows| - 1;
      DecodeBareRows(c, rows[..n]);
      assert BareRows(rows)[..|BareRows(rows)| - 1] == BareRows(rows[..n]);
      var t := DecodeRow(c, rows[n]);
      assert DecodeRow(c, BareRow(rows[n])) == if t.Some? then Some(Bare(t.value)) else None;
      if t.Some? {
        BareAppend(DecodeRows(c, rows[..n]), t.value);
      }
    }
  }

  lemma {:induction false} DecodeConcat(c: Codecs, a: seq<Row>, b: seq<Row>)
    ensures DecodeRows(c, a + b) == DecodeRows(c, a) + DecodeRows(c, b)
  {
    if b == [] {
      assert a + b == a;
    } else {
      var n := |b| - 1;
      DecodeConcat(c, a, b[..n]);
      hide DecodeRow;
      assert (a + b)[..|a + b| - 1] == a + b[..n];
    }
  }

  /** Rows in another order decode to the same tweets. */
  lemma {:induction false} DecodeShuffled(c: Codecs, a: seq<Row>, b: seq<Row>)
    requires multiset(a) == multiset(b)
    ensures multiset(DecodeRows(c, a)) == multiset(DecodeRows(c, b))
    decreases |a|
  {
    if a == [] {
      SameMembers(a, b);
    } else {
      hide DecodeRow, DecodeRows;
      var n := |a| - 1;
      var i := RemoveLast(a, b);
      assert a == a[..n] + [a[n]];
      assert b == b[..i] + [b[i]] + b[i + 1..];
      DecodeShuffled(c, a[..n], b[..i] + b[i + 1..]);
      DecodeConcat(c, a[..n], [a[n]]);
      DecodeConcat(c, b[..i], b[i + 1..]);
      DecodeConcat(c, b[..i] + [b[i]], b[i + 1..]);
      DecodeConcat(c, b[..i], [b[i]]);
    }
  }

  lemma {:induction false} RowsConcat(c: Codecs, a: seq<BlobBatch>, b: seq<BlobBatch>)
    ensures RowsOf(c, a + b) == RowsOf(c, a) + RowsOf(c, b)
  {
    hide BatchMessages, MessageRows;
    if b == [] {
      assert a + b == a;
    } else {
      var n := |b| - 1;
      RowsConcat(c, a, b[..n]);
      assert (a + b)[..|a + b| - 1] == a + b[..n];
    }
  }

  lemma {:induction false} RowsShuffled(c: Codecs, a: seq<BlobBatch>, b: seq<BlobBatch>)
    requires multiset(a) == multiset(b)
    ensures multiset(RowsOf(c, a)) == multiset(RowsOf(c, b))
    decreases |a|
  {
    if a == [] {
      SameMembers(a, b);
    } else {
      hide RowsOf;
      var n := |a| - 1;
      var i := RemoveLast(a, b);
      assert a == a[..n] + [a[n]];
      assert b == b[..i] + [b[i]] + b[i + 1..];
      RowsShuffled(c, a[..n], b[..i] + b[i + 1..]);
      RowsConcat(c, a[..n], [a[n]]);
      RowsConcat(c, b[..i], b[i + 1..]);
      RowsConcat(c, b[..i] + [b[i]], b[i + 1..]);
      RowsConcat(c, b[..i], [b[i]]);
    }
  }

  lemma {:induction false} DecodeMessageRows(c: Codecs, b: BlobBatch, ms: seq<Message>)
    ensures DecodeRows(c, MessageRows(b, ms)) == BareAll(MessageTweets(c, b, ms))
  {
    if ms != [] {
      var n := |ms| - 1;
      DecodeMessageRows(c, b, ms[..n]);
      var rows := MessageRows(b, ms);
      assert rows[..|rows| - 1] == MessageRows(b, ms[..n]);
      var t := MessageTweet(c, b, ms[n], n);
      assert DecodeRow(c, MessageRow(b, ms[n], n)) == if t.Some? then Some(Bare(t.value)) else None;
      if t.Some? {
        BareAppend(MessageTweets(c, b, ms[..n]), t.value);
      }
    }
  }

  lemma {:induction false} BareConcat(a: seq<Tweet>, b: seq<Tweet>)
    ensures BareAll(a + b) == BareAll(a) + BareAll(b)
  {
  }

  /** The rows of the batches decode to the tweets of the batches. */
  lemma {:induction false} DecodeRowsOf(c: Codecs, batches: seq<BlobBatch>)
    ensures DecodeRows(c, RowsOf(c, batches)) == BareAll(BlobTweets(c, batches))
  {
    hide BatchMessages, MessageRows, MessageTweets;
    if batches != [] {
      var n := |batches| - 1;
      var b := batches[n];
      DecodeRowsOf(c, batches[..n]);
      DecodeMessageRows(c, b, BatchMessages(c, b));
      DecodeConcat(c, RowsOf(c, batches[..n]), MessageRows(b, BatchMessages(c, b)));
      BareConcat(BlobTweets(c, batches[..n]), MessageTweets(c, b, BatchMessages(c, b)));
    }
  }

  // ----- coordinates -----

  ghost predicate OneBatchPerTx(batches: seq<BlobBatch>) {
    forall i, j :: 0 <= i < j < |batches| ==>
      (batches[i].blockNumber, batches[i].txIndex) != (batches[j].blockNumber, batches[j].txIndex)
  }

  lemma {:induction false} BatchCoords(c: Codecs, b: BlobBatch, ms: seq<Message>)
    ensures DistinctCoords(MessageTweets(c, b, ms))
    ensures forall t :: t in MessageTweets(c, b, ms) ==>
              t.coord.blockNumber == b.blockNumber && t.coord.txIndex == b.txIndex && t.coord.messageIndex < |ms|
  {
    if ms != [] {
      BatchCoords(c, b, ms[..|ms| - 1]);
    }
  }

  lemma {:induction false} BlobCoords(c: Codecs, batches: seq<BlobBatch>)
    requires OneBatchPerTx(batches)
    ensures DistinctCoords(BlobTweets(c, batches))
    ensures forall t :: t in BlobTweets(c, batches) ==> exists i ::
              0 <= i < |batches| && t.coord.blockNumber == batches[i].blockNumber && t.coord.txIndex == batches[i].txIndex
  {
    if batches != [] {
      var n := |batches| - 1;
      var b := batches[n];
      var init, last := BlobTweets(c, batches[..n]), MessageTweets(c, b, BatchMessages(c, b));
      BlobCoords(c, batches[..n]);
      BatchCoords(c, b, BatchMessages(c, b));
      hide BatchMessages, MessageTweets;
      forall t, u | t in init && u in last ensures t.coord != u.coord {
        var i :| 0 <= i < n && t.coord.blockNumber == batches[i].blockNumber && t.coord.txIndex == batches[i].txIndex;
      }
      var r := BlobTweets(c, batches);
      assert r == init + last;
      forall i, j | 0 <= i < j < |r| ensures r[i].coord != r[j].coord {
        assert i < |init| ==> r[i] in init;
        assert j >= |init| ==> r[j] in last;
      }
    }
  }

  // ----- both paths -----

  /** The rows of the batches, in any order and with the fields only the Reader knows. */
  ghost predicate AreRowsOf(c: Codecs, batches: seq<BlobBatch>, rows: seq<Row>) {
    multiset(BareRows(rows)) == multiset(RowsOf(c, batches))
  }

  ghost predicate SameTimeline(c: Codecs, batches: seq<BlobBatch>, rows: seq<Row>) {
    BareAll(Timeline.Timeline(DecodeRows(c, rows))) == BareAll(Timeline.Timeline(BlobTweets(c, SortBatches(batches))))
  }

  /** The rows decode to the tweets of the sorted batches, in some order. */
  lemma {:induction false} RowsDecodeToBatches(c: Codecs, batches: seq<BlobBatch>, rows: seq<Row>)
    requires AreRowsOf(c, batches, rows)
    ensures multiset(BareAll(DecodeRows(c, rows))) == multiset(BareAll(BlobTweets(c, batches)))
            == multiset(BareAll(BlobTweets(c, SortBatches(batches))))
  {
    var sorted := SortBatches(batches);
    RowsShuffled(c, batches, sorted);
    DecodeShuffled(c, BareRows(rows), RowsOf(c, batches));
    DecodeShuffled(c, RowsOf(c, batches), RowsOf(c, sorted));
    DecodeBareRows(c, rows);
    DecodeRowsOf(c, batches);
    DecodeRowsOf(c, sorted);
  }

  lemma {:induction false} SettledTiesAgree(c: Codecs, batches: seq<BlobBatch>, rows: seq<Row>)
    requires AreRowsOf(c, batches, rows) && TiesSettled(BareAll(BlobTweets(c, batches)))
    ensures SameTimeline(c, batches, rows)
  {
    RowsDecodeToBatches(c, batches, rows);
    var fromRows, fromBlobs := DecodeRows(c, rows), BlobTweets(c, SortBatches(batches));
    hide TiesSettled, DecodeRows, BlobTweets, AreRowsOf;
    SettledTiesAreHarmless(BareAll(BlobTweets(c, batches)), BareAll(fromRows));
    SettledTiesAreHarmless(BareAll(BlobTweets(c, batches)), BareAll(fromBlobs));
    TimelineBare(fromRows);
    TimelineBare(fromBlobs);
  }

  /**
   * With at most one batch in a transaction, the blob path and the Reader path, given the same messages as rows in any
   * order, keep the same tweets in the same order and drop as many repeats.
   */
  lemma {:induction false} PathsAgree(c: Codecs, batches: seq<BlobBatch>, rows: seq<Row>)
    requires OneBatchPerTx(batches) && AreRowsOf(c, batches, rows)
    ensures SameTimeline(c, batches, rows) && |DecodeRows(c, rows)| == |BlobTweets(c, SortBatches(batches))|
  {
    BlobCoords(c, batches);
    NoTies(BlobTweets(c, batches));
    RowsDecodeToBatches(c, batches, rows);
    SettledTiesAgree(c, batches, rows);
    hide OneBatchPerTx, DecodeRows, BlobTweets, SortBatches, AreRowsOf, SameTimeline, TiesSettled, DistinctCoords;
    SameMembers(BareAll(DecodeRows(c, rows)), BareAll(BlobTweets(c, SortBatches(batches))));
  }

  lemma {:induction false} NoTies(s: seq<Tweet>)
    requires DistinctCoords(s)
    ensures TiesSettled(BareAll(s))
  {
    hide Beaten;
  }

  /** The batches' own rows lack the fields only the Reader knows. */
  lemma {:induction false} RowsOfAreBare(c: Codecs, batches: seq<BlobBatch>)
    ensures forall r :: r in RowsOf(c, batches) ==> BareRow(r) == r
  {
    if batches != [] {
      RowsOfAreBare(c, batches[..|batches| - 1]);
      var b := batches[|batches| - 1];
      MessageRowsAreBare(b, BatchMessages(c, b));
    }
  }

  lemma {:induction false} MessageRowsAreBare(b: BlobBatch, ms: seq<Message>)
    ensures forall r :: r in MessageRows(b, ms) ==> BareRow(r) == r
  {
    if ms != [] {
      MessageRowsAreBare(b, ms[..|ms| - 1]);
    }
  }

  lemma {:induction false} BareRowsAre(rows: seq<Row>)
    requires forall r :: r in rows ==> BareRow(r) == r
    ensures BareRows(rows) == rows
  {
    if rows != [] {
      BareRowsAre(rows[..|rows| - 1]);
      assert rows == rows[..|rows| - 1] + [rows[|rows| - 1]];
    }
  }

  /** The row a tweet was decoded from. */
  lemma {:induction false} DecodedFrom(c: Codecs, rows: seq<Row>, t: Tweet) returns (p: Row)
    requires t in DecodeRows(c, rows)
    ensures p in rows && DecodeRow(c, p) == Some(t)
  {
    var n := |rows| - 1;
    hide DecodeRow;
    if t in DecodeRows(c, rows[..n]) {
      p := DecodedFrom(c, rows[..n], t);
    } else {
      p := rows[n];
    }
  }

  lemma {:induction false} DecodeTwo(c: Codecs, p: Row, q: Row, rest: seq<Row>, t: Tweet, u: Tweet)
    requires DecodeRow(c, p) == Some(t) && DecodeRow(c, q) == Some(u)
    ensures DecodeRows(c, [p, q] + rest) == [t, u] + DecodeRows(c, rest)
  {
    hide DecodeRow;
    DecodeConcat(c, [p, q], rest);
    DecodeConcat(c, [p], [q]);
    assert [p] + [q] == [p, q];
    assert DecodeRows(c, [p]) == DecodeRows(c, []) + [t] && DecodeRows(c, [q]) == DecodeRows(c, []) + [u];
  }

  /** Two tweets of the batches at one coordinate, neither beaten: two orders of the rows give two timelines. */
  lemma {:induction false} OpenTieParts(c: Codecs, batches: seq<BlobBatch>, t: Tweet, u: Tweet) returns (a: seq<Row>, b: seq<Row>)
    requires var all := DecodeRows(c, RowsOf(c, batches));
      t in all && u in all && t.coord == u.coord && t != u && !Beaten(all, t) && !Beaten(all, u)
    ensures BareRows(a) == a && BareRows(b) == b && AreRowsOf(c, batches, a) && AreRowsOf(c, batches, b)
    ensures Timeline.Timeline(DecodeRows(c, a)) != Timeline.Timeline(DecodeRows(c, b))
  {
    var rows := RowsOf(c, batches);
    hide Beaten, RowsOf;
    var p := DecodedFrom(c, rows, t);
    var q := DecodedFrom(c, rows, u);
    var rest := PullOutTwo(rows, p, q);
    a, b := [p, q] + rest, [q, p] + rest;
    assert multiset(a) == multiset(b);
    RowsOfAreBare(c, batches);
    SameMembers(rows, a);
    SameMembers(rows, b);
    BareRowsAre(a);
    BareRowsAre(b);
    DecodeTwo(c, p, q, rest, t, u);
    DecodeTwo(c, q, p, rest, u, t);
    DecodeShuffled(c, rows, a);
    hide DecodeRows, DecodeRow;
    SameBeaten(DecodeRows(c, rows), DecodeRows(c, a), t);
    SameBeaten(DecodeRows(c, rows), DecodeRows(c, a), u);
    OpenTieShows(t, u, DecodeRows(c, rest));
  }

  lemma {:induction false} BareTimeline(c: Codecs, rows: seq<Row>)
    requires BareRows(rows) == rows
    ensures BareAll(Timeline.Timeline(DecodeRows(c, rows))) == Timeline.Timeline(DecodeRows(c, rows))
  {
    DecodeBareRows(c, rows);
    TimelineBare(DecodeRows(c, rows));
  }

  /**
   * Whatever batches share a transaction, the Reader path gives the blob path's timeline for every order of the rows
   * exactly when of any two different tweets at one coordinate one is beaten.
   */
  lemma {:induction false} PathsAgreeIff(c: Codecs, batches: seq<BlobBatch>)
    ensures (forall rows | AreRowsOf(c, batches, rows) :: SameTimeline(c, batches, rows))
            <==> TiesSettled(BareAll(BlobTweets(c, batches)))
  {
    DecodeRowsOf(c, batches);
    var all := BareAll(BlobTweets(c, batches));
    hide AreRowsOf, BareAll, BlobTweets, RowsOf, DecodeRows, Beaten;
    if TiesSettled(all) {
      forall rows | AreRowsOf(c, batches, rows) ensures SameTimeline(c, batches, rows) {
        SettledTiesAgree(c, batches, rows);
      }
    } else {
      var t, u :| t in all && u in all && t.coord == u.coord && t != u && !Beaten(all, t) && !Beaten(all, u);
      var a, b := OpenTieParts(c, batches, t, u);
      BareTimeline(c, a);
      BareTimeline(c, b);
      assert SameTimeline(c, batches, a) ==> !SameTimeline(c, batches, b);
    }
  }
}
