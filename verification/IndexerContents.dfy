// What stands in the posts of a generation, column by column, against the rows of the source.
module IndexerContents {
  import opened Wrappers
  import opened Store
  import opened Indexer
  import opened IndexerInvariant
  import opened IndexerTheorems

  /** A row the queries show: confirmed on this chain under this tag, with all three coordinates. */
  ghost predicate Shown(h: Handler, row: MessageRow) {
    && row.status == Confirmed && row.contentTag == h.contentTag && row.chainId == Some(h.chainId)
    && row.blockNumber.Some? && row.txIndex.Some? && row.messageIndexWithinBatch.Some?
  }

  /** Block first, then transaction, then message: the row is not past the coordinate. */
  ghost predicate NotPast(row: MessageRow, at: Coord)
    requires row.blockNumber.Some? && row.txIndex.Some? && row.messageIndexWithinBatch.Some?
  {
    var block, tx, msg := row.blockNumber.value, row.txIndex.value, row.messageIndexWithinBatch.value;
    || block < at.block
    || (block == at.block && tx < at.tx)
    || (block == at.block && tx == at.tx && msg <= at.msg)
  }

  /** The post says of the row, column by column, what the row and its decoded contents say. */
  ghost predicate Shows(h: Handler, code: nat, post: Post, key: MessageKey, row: MessageRow) {
    && post.key.sender == key.sender && post.key.nonce == key.nonce
    && post.messageHash == row.messageHash
    && Some(post.batchRef) == row.batchRef
    && Some(post.at.block) == row.blockNumber
    && Some(post.at.tx) == row.txIndex
    && Some(post.at.msg) == row.messageIndexWithinBatch
    && match h.decode(code, row.contents)
       case None => false
       case Some(event) =>
         && post.event.kind == event.kind && post.event.timestamp == event.timestamp
         && post.event.content == event.content && post.event.parent == event.parent
  }

  /** In every reachable state, each shown row that decodes and is not past the cursor has its post. */
  lemma {:induction false} EveryRowHasItsPost(h: Handler, states: seq<Sys>, actions: seq<Action>, i: nat, c: Cursor,
                                              key: MessageKey)
    requires IsRun(h, states, actions) && Initial(h, states[0]) && i < |states| && IsCurrent(states[i].db.cursors, c)
    requires var s := states[i];
      && key in s.source.messages && Shown(h, s.source.messages[key]) && NotPast(s.source.messages[key], c.at)
      && h.decode(s.code, s.source.messages[key].contents).Some?
    ensures var s, row := states[i], states[i].source.messages[key];
      && row.messageId.Some? && PostKey(c.versionId, row.messageId.value) in s.db.posts
      && Shows(h, s.code, s.db.posts[PostKey(c.versionId, row.messageId.value)], key, row)
  {
    RunKeepsInv(h, states, actions, i);
    var s, row := states[i], states[i].source.messages[key];
    assert AtOrBefore(CoordOf(row), c.at);
    assert Stored(h, s, c, Listed(key, row));
  }

  /** And when the reorg cursor has caught up, every post, of whichever generation, is that of such a row. */
  lemma {:induction false} EveryPostHasItsRow(h: Handler, states: seq<Sys>, actions: seq<Action>, i: nat, c: Cursor, k: PostKey)
    requires IsRun(h, states, actions) && Initial(h, states[0]) && i < |states| && ReorgsDrained(h, states[i], c)
    requires k in states[i].db.posts
    ensures k.versionId in states[i].db.cursors
    ensures k.versionId == c.versionId ==> states[i].db.cursors[k.versionId].handlerVersion == states[i].code
    ensures var s, g, key := states[i], states[i].db.cursors[k.versionId], h.owner(k.messageId);
      && key in s.source.messages && Shown(h, s.source.messages[key]) && NotPast(s.source.messages[key], g.at)
      && s.source.messages[key].messageId == Some(k.messageId)
      && Shows(h, g.handlerVersion, s.db.posts[k], key, s.source.messages[key])
  {
    RunKeepsInv(h, states, actions, i);
    IndexAgreesUpToCursor(h, states[i], c);
    assert BackedByLive(h, states[i], k);
  }
}
