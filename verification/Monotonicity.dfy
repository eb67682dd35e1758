// packages/bam-poster/src/ingest/monotonicity.ts: nonce monotonicity (ERC-8180, "Nonce Semantics")
// with the tracker seeded lazily from the message table.
module Monotonicity {
  import opened Wrappers
  import opened Text
  import opened NonceCodec
  import opened Store

  datatype Outcome = Accept | NoOp(existingMessageHash: string) | RejectStale

  /** A row of `sender` that must not be overwritten. */
  predicate Occupies(t: Tables, sender: string, key: MessageKey) {
    key in t.messages && key.sender == ToLower(sender) && t.messages[key].status != Reorged
  }

  predicate Taken(t: Tables, sender: string, nonce: int) {
    0 <= nonce <= MAX_NONCE && Occupies(t, sender, KeyOf(sender, nonce))
  }

  /** `seed` is the row `getMaxNonReorgedNonce` selects: the greatest nonce text of the sender. */
  ghost predicate IsSeed(t: Tables, sender: string, seed: Option<Tracker>) {
    match seed
    case None => forall key :: !Occupies(t, sender, key)
    case Some(row) =>
      && Taken(t, sender, row.lastNonce)
      && row.lastMessageHash == t.messages[KeyOf(sender, row.lastNonce)].messageHash
      && forall key :: Occupies(t, sender, key) ==> !LexLess(NonceText(row.lastNonce), key.nonce)
  }

  /** The tracker row the decision is made on. */
  ghost predicate IsEffective(t: Tables, sender: string, row: Option<Tracker>) {
    if ToLower(sender) in t.nonces then row == Some(t.nonces[ToLower(sender)]) else IsSeed(t, sender, row)
  }

  function Decide(row: Option<Tracker>, nonce: int, messageHash: string): Outcome {
    match row
    case None => Accept
    case Some(last) =>
      if nonce > last.lastNonce then Accept
      else if nonce == last.lastNonce && ToLower(messageHash) == ToLower(last.lastMessageHash)
      then NoOp(last.lastMessageHash)
      else RejectStale
  }

  /** Tables after the check: the seed is cached, nothing else moves. */
  function Seeded(t: Tables, sender: string, row: Option<Tracker>): Tables {
    if row.Some? then t.(nonces := t.nonces[ToLower(sender) := row.value]) else t
  }

  lemma {:induction false} TextOrderTransitive(a: string, b: string, c: string)
    requires DecodeNonce(a).Ok? && DecodeNonce(b).Ok? && DecodeNonce(c).Ok?
    ensures !LexLess(a, a)
    ensures LexLess(a, b) && LexLess(b, c) ==> LexLess(a, c)
  {
    TextOrderIsNumeric(a, a);
    TextOrderIsNumeric(a, b);
    TextOrderIsNumeric(b, c);
    TextOrderIsNumeric(a, c);
  }

  method GetMaxNonReorgedNonce(store: BamStore, sender: string) returns (seed: Option<Tracker>)
    requires store.Valid()
    ensures IsSeed(store.Now(), sender, seed)
  {
    hide LexLess, Value;
    var senderKey := ToLower(sender);
    var left := set key | key in store.messages && key.sender == senderKey && store.messages[key].status != Reorged;
    if left == {} {
      assert forall key :: Occupies(store.Now(), sender, key) ==> key in left;
      return None;
    }
    var top :| top in left;
    ghost var all := left;
    left := left - {top};
    TextOrderTransitive(top.nonce, top.nonce, top.nonce);
    while left != {}
      invariant top in all && left <= all
      invariant forall key :: key in all - left ==> !LexLess(top.nonce, key.nonce)
      decreases |left|
    {
      var key :| key in left;
      if LexLess(top.nonce, key.nonce) {
        forall k | k in all - left ensures !LexLess(key.nonce, k.nonce) {
          TextOrderTransitive(top.nonce, key.nonce, k.nonce);
        }
        top := key;
      }
      TextOrderTransitive(top.nonce, top.nonce, top.nonce);
      left := left - {key};
    }
    var nonce := DecodeNonce(top.nonce).value;
    NonceRoundTrip(nonce, top.nonce);
    assert top == KeyOf(sender, nonce);
    assert forall key :: Occupies(store.Now(), sender, key) ==> key in all;
    return Some(Tracker(nonce, store.messages[top].messageHash));
  }

  method CheckMonotonicity(store: BamStore, sender: string, nonce: int, messageHash: string)
    returns (outcome: Outcome, ghost row: Option<Tracker>)
    requires store.Valid()
    modifies store
    ensures store.Valid()
    ensures IsEffective(old(store.Now()), sender, row)
    ensures store.Now() == Seeded(old(store.Now()), sender, row)
    ensures outcome == Decide(row, nonce, messageHash)
    ensures outcome.Accept? <==> row.None? || row.value.lastNonce < nonce
    ensures outcome.NoOp? <==>
              row.Some? && row.value.lastNonce == nonce && ToLower(row.value.lastMessageHash) == ToLower(messageHash)
    ensures outcome.NoOp? ==> outcome.existingMessageHash == row.value.lastMessageHash
    ensures store.messages == old(store.messages) && store.batches == old(store.batches)
    ensures forall s :: s in store.nonces <==> s in old(store.nonces) || (s == ToLower(sender) && row.Some?)
    ensures forall s :: s in store.nonces ==> store.nonces[s] == if s == ToLower(sender) then row.value else old(store.nonces)[s]
  {
    var last: Option<Tracker> := if ToLower(sender) in store.nonces then Some(store.nonces[ToLower(sender)]) else None;
    if last == None {
      var seed := GetMaxNonReorgedNonce(store, sender);
      if seed.Some? {
        var written := store.WriteNonce(sender, seed.value.lastNonce, seed.value.lastMessageHash);
        last := seed;
      }
    }
    row := last;
    assert store.Now() == Seeded(old(store.Now()), sender, row);
    if last == None {
      return Accept, row;
    }
    if nonce > last.value.lastNonce {
      return Accept, row;
    }
    if nonce == last.value.lastNonce {
      if ToLower(messageHash) == ToLower(last.value.lastMessageHash) {
        return NoOp(last.value.lastMessageHash), row;
      }
      return RejectStale, row;
    }
    return RejectStale, row;
  }

  /** The seed is cached: a second check decides on the same row. */
  lemma {:induction false} SecondCheckAgrees(t: Tables, sender: string, row: Option<Tracker>, again: Option<Tracker>)
    requires IsEffective(t, sender, row) && IsEffective(Seeded(t, sender, row), sender, again)
    ensures again == row
    ensures row.Some? ==> ToLower(sender) in Seeded(t, sender, row).nonces
  {
  }

  // ----- what an accept is worth -----

  /** The tracker is at or above every row that must not be overwritten. */
  ghost predicate Covers(t: Tables, sender: string)
    requires Canonical(t)
  {
    ToLower(sender) in t.nonces ==>
      forall key :: Occupies(t, sender, key) ==> NonceOf(key) <= t.nonces[ToLower(sender)].lastNonce
  }

  /** `insertPending` raises a duplicate exactly on a taken slot. */
  lemma {:induction false} DuplicateIffTaken(t: Tables, row: PendingRow)
    ensures InsertPending(t, row) == Err(DuplicateMessage) <==> Taken(t, row.sender, row.nonce)
  {
  }

  lemma {:induction false} KeyAtNonce(t: Tables, sender: string, key: MessageKey)
    requires Canonical(t) && Occupies(t, sender, key)
    ensures key == KeyOf(sender, NonceOf(key)) && Taken(t, sender, NonceOf(key))
  {
    NonceRoundTrip(0, key.nonce);
  }

  /** The seed is the numeric maximum although the table is ordered as text. */
  lemma {:induction false} SeedIsNumericMaximum(t: Tables, sender: string, seed: Option<Tracker>)
    requires Canonical(t) && IsSeed(t, sender, seed)
    ensures seed == None ==> forall nonce :: !Taken(t, sender, nonce)
    ensures seed.Some? ==> Taken(t, sender, seed.value.lastNonce)
    ensures seed.Some? ==> forall nonce :: Taken(t, sender, nonce) ==> nonce <= seed.value.lastNonce
  {
    if seed.Some? {
      forall nonce | Taken(t, sender, nonce) ensures nonce <= seed.value.lastNonce {
        NonceOrder(seed.value.lastNonce, nonce);
      }
    }
  }

  /** Every accept is insertable, in exactly the states where the tracker is absent or covers the rows. */
  lemma {:induction false} AcceptMeansInsertable(t: Tables, sender: string, row: Option<Tracker>)
    requires Canonical(t) && IsEffective(t, sender, row)
    ensures (forall nonce, hash :: Decide(row, nonce, hash) == Accept ==> !Taken(Seeded(t, sender, row), sender, nonce))
            <==> Covers(t, sender)
  {
    var seeded := Seeded(t, sender, row);
    assert forall nonce :: Taken(seeded, sender, nonce) == Taken(t, sender, nonce);
    if Covers(t, sender) {
      forall nonce, hash | Decide(row, nonce, hash) == Accept ensures !Taken(seeded, sender, nonce) {
        if ToLower(sender) !in t.nonces {
          SeedIsNumericMaximum(t, sender, row);
        } else if 0 <= nonce <= MAX_NONCE {
          NonceRoundTrip(nonce, "");
          assert NonceOf(KeyOf(sender, nonce)) == nonce by { ToLowerIdempotent(sender); }
        }
      }
    } else {
      var key :| Occupies(t, sender, key) && NonceOf(key) > t.nonces[ToLower(sender)].lastNonce;
      KeyAtNonce(t, sender, key);
      assert Decide(row, NonceOf(key), "") == Accept;
    }
  }

  // ----- who keeps the tracker covering -----

  /** The Poster's accepting ingest: track the nonce, insert the row, both or neither. */
  function Ingest(t: Tables, row: PendingRow): Result<Tables, StoreError> {
    match SetNonce(t, row.sender, row.nonce, row.messageHash)
    case Err(e) => Err(e)
    case Ok(tracked) => InsertPending(tracked, row)
  }

  lemma {:induction false} IngestKeepsCoverage(t: Tables, seen: Option<Tracker>, row: PendingRow, other: string)
    requires Canonical(t) && Covers(t, row.sender) && Covers(t, other)
    requires IsEffective(t, row.sender, seen) && Decide(seen, row.nonce, row.messageHash) == Accept
    ensures EncodeNonce(row.nonce).Ok? <==> Ingest(Seeded(t, row.sender, seen), row).Ok?
    ensures EncodeNonce(row.nonce).Ok? ==>
              && Canonical(Ingest(Seeded(t, row.sender, seen), row).value)
              && Covers(Ingest(Seeded(t, row.sender, seen), row).value, row.sender)
              && Covers(Ingest(Seeded(t, row.sender, seen), row).value, other)
  {
    AcceptMeansInsertable(t, row.sender, seen);
    var seeded := Seeded(t, row.sender, seen);
    ToLowerIdempotent(row.sender);
    if EncodeNonce(row.nonce).Ok? {
      NonceRoundTrip(row.nonce, "");
      var tracked := SetNonce(seeded, row.sender, row.nonce, row.messageHash).value;
      assert Taken(tracked, row.sender, row.nonce) == Taken(seeded, row.sender, row.nonce);
      var next := Ingest(seeded, row).value;
      forall key | Occupies(next, row.sender, key) ensures NonceOf(key) <= row.nonce {
        if key != KeyOf(row.sender, row.nonce) {
          assert Occupies(t, row.sender, key);
          KeyAtNonce(t, row.sender, key);
          if ToLower(row.sender) !in t.nonces {
            SeedIsNumericMaximum(t, row.sender, seen);
          }
        }
      }
    }
  }

  /** A Reader's observation does not touch the tracker: coverage survives it exactly when the
      observed nonce is not above the tracker, or the write leaves the slot reclaimable or alone. */
  lemma {:induction false} ObservationKeepsCoverageIff(t: Tables, sender: string, nonce: int, row: MessageRow)
    requires Canonical(t) && Covers(t, sender) && UpsertObserved(t, sender, nonce, row).Ok?
    ensures Canonical(UpsertObserved(t, sender, nonce, row).value)
    ensures Covers(UpsertObserved(t, sender, nonce, row).value, sender) <==>
              || ToLower(sender) !in t.nonces
              || nonce <= t.nonces[ToLower(sender)].lastNonce
              || row.status == Reorged
  {
    NonceRoundTrip(nonce, "");
    ToLowerIdempotent(sender);
    var next := UpsertObserved(t, sender, nonce, row).value;
    var key := KeyOf(sender, nonce);
    assert NonceOf(key) == nonce;
    if ToLower(sender) in t.nonces && nonce > t.nonces[ToLower(sender)].lastNonce {
      assert !Occupies(t, sender, key);
      assert next.messages[key] == row;
      if row.status != Reorged {
        assert Occupies(next, sender, key);
      }
    }
  }

  // ----- what a no_op is worth -----

  /** A row that is not reorged stands at the nonce, under this hash. */
  predicate Stored(t: Tables, sender: string, nonce: int, messageHash: string) {
    Taken(t, sender, nonce) && t.messages[KeyOf(sender, nonce)].messageHash == messageHash
  }

  /** The tracker, if there is one, names a row that is there. */
  predicate TrackerStored(t: Tables, sender: string) {
    ToLower(sender) in t.nonces ==>
      Stored(t, sender, t.nonces[ToLower(sender)].lastNonce, t.nonces[ToLower(sender)].lastMessageHash)
  }

  /** Every no_op names a row that is there, in exactly the states whose tracker does. */
  lemma {:induction false} NoOpIsTrueIff(t: Tables, sender: string, row: Option<Tracker>)
    requires IsEffective(t, sender, row)
    ensures (forall nonce, hash :: Decide(row, nonce, hash).NoOp? ==>
               Stored(Seeded(t, sender, row), sender, nonce, Decide(row, nonce, hash).existingMessageHash))
            <==> TrackerStored(t, sender)
  {
    if ToLower(sender) in t.nonces {
      var last := t.nonces[ToLower(sender)];
      assert Decide(row, last.lastNonce, last.lastMessageHash) == NoOp(last.lastMessageHash);
    }
  }

  // ----- the decision, told from the message table -----

  /** The tracker names a row that is there, and no higher nonce is taken: then an answer depends on the message table
      alone. Above every taken nonce is accepted; the highest one, under its own hash up to case, is acknowledged with the
      stored hash; all else is stale, so a different message at a taken nonce is always rejected. */
  lemma {:induction false} DecisionFromTable(t: Tables, sender: string, row: Option<Tracker>, nonce: int, messageHash: string)
    requires Canonical(t) && Covers(t, sender) && TrackerStored(t, sender) && IsEffective(t, sender, row)
    ensures var outcome := Decide(row, nonce, messageHash);
      && (outcome.Accept? <==> forall n :: Taken(t, sender, n) ==> n < nonce)
      && (outcome.NoOp? <==>
            && Taken(t, sender, nonce) && (forall n :: Taken(t, sender, n) ==> n <= nonce)
            && ToLower(t.messages[KeyOf(sender, nonce)].messageHash) == ToLower(messageHash))
      && (outcome.NoOp? ==> outcome.existingMessageHash == t.messages[KeyOf(sender, nonce)].messageHash)
      && (Taken(t, sender, nonce) && ToLower(t.messages[KeyOf(sender, nonce)].messageHash) != ToLower(messageHash) ==>
            outcome.RejectStale?)
  {
    if row.None? {
      SeedIsNumericMaximum(t, sender, row);
    } else {
      var last := row.value.lastNonce;
      EffectiveIsHighest(t, sender, row);
      assert Taken(t, sender, last);
    }
  }

  /** Then the row decided on is the highest taken one. */
  lemma {:induction false} EffectiveIsHighest(t: Tables, sender: string, row: Option<Tracker>)
    requires Canonical(t) && Covers(t, sender) && TrackerStored(t, sender) && IsEffective(t, sender, row) && row.Some?
    ensures Stored(t, sender, row.value.lastNonce, row.value.lastMessageHash)
    ensures forall n :: Taken(t, sender, n) ==> n <= row.value.lastNonce
  {
    if ToLower(sender) in t.nonces {
      forall n | Taken(t, sender, n) ensures n <= row.value.lastNonce {
        NonceRoundTrip(n, "");
        assert NonceOf(KeyOf(sender, n)) == n by { ToLowerIdempotent(sender); }
      }
    } else {
      SeedIsNumericMaximum(t, sender, row);
    }
  }

  /** An accepted ingest leaves its sender's tracker naming the row it inserts, and no other tracker astray. */
  lemma {:induction false} IngestKeepsTrackerStored(t: Tables, row: PendingRow, other: string)
    requires TrackerStored(t, other) && Ingest(t, row).Ok?
    ensures TrackerStored(Ingest(t, row).value, row.sender) && TrackerStored(Ingest(t, row).value, other)
  {
    NonceRoundTrip(row.nonce, "");
    assert ToLower(other) == ToLower(row.sender) ==> KeyOf(other, row.nonce) == KeyOf(row.sender, row.nonce);
  }

  /** A reorg leaves the tracker naming a row that is there unless that very row was confirmed in the reorged transaction. */
  lemma {:induction false} ReorgVacatesIff(t: Tables, sender: string, chainId: nat, txHash: string, at: nat)
    requires TrackerStored(t, sender) && ToLower(sender) in t.nonces && MarkReorged(t, chainId, txHash, at).Ok?
    ensures var row := t.messages[KeyOf(sender, t.nonces[ToLower(sender)].lastNonce)];
      TrackerStored(MarkReorged(t, chainId, txHash, at).value, sender)
      <==> !(AttachedTo(row, chainId, txHash) && row.status == Confirmed)
  {
  }

  /** Then a retry of that message is acknowledged and nothing is stored, although insertPending would take it. */
  lemma {:induction false} RetryAfterReorgIsSwallowed(t: Tables, row: PendingRow, seen: Option<Tracker>)
    requires ToLower(row.sender) in t.nonces && 0 <= row.nonce <= MAX_NONCE && IsEffective(t, row.sender, seen)
    requires t.nonces[ToLower(row.sender)] == Tracker(row.nonce, row.messageHash)
    requires KeyOf(row.sender, row.nonce) in t.messages && t.messages[KeyOf(row.sender, row.nonce)].status == Reorged
    ensures Decide(seen, row.nonce, row.messageHash) == NoOp(row.messageHash)
    ensures Seeded(t, row.sender, seen) == t && !Taken(t, row.sender, row.nonce)
    ensures InsertPending(t, row).Ok?
  {
    NonceRoundTrip(row.nonce, "");
    assert t.nonces[ToLower(row.sender) := t.nonces[ToLower(row.sender)]] == t.nonces;
  }

  /** One such state: a message is ingested, confirmed and reorged. */
  lemma {:induction false} ReorgedMessage() returns (t: Tables, row: PendingRow)
    ensures ToLower(row.sender) in t.nonces && 0 <= row.nonce <= MAX_NONCE
    ensures t.nonces[ToLower(row.sender)] == Tracker(row.nonce, row.messageHash)
    ensures KeyOf(row.sender, row.nonce) in t.messages && t.messages[KeyOf(row.sender, row.nonce)].status == Reorged
  {
    row := PendingRow("t", "a", 0, [], [], "h", 1, 0, 0);
    NonceRoundTrip(0, "");
    var ingested := Ingest(Tables(map[], map[], map[]), row).value;
    var confirmed := PendingMessage(row).(status := Confirmed, batchRef := Some("x"));
    var observed := UpsertObserved(ingested, "a", 0, confirmed).value;
    var batch := BatchRow("", "", None, None, BatchConfirmed, None, None, None, None, None, []);
    var settled := UpsertBatch(observed, BatchKey(1, "x", "t"), batch);
    assert InTx(BatchKey(1, "x", "t"), 1, "x");
    t := MarkReorged(settled, 1, "x", 0).value;
  }
}
