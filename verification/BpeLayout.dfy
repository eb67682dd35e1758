// packages/bam-sdk/src/bpe.ts: where a trained dictionary puts its tokens, and the two ways back
// from bytes to a dictionary.
module BpeLayout {
  import opened Wrappers
  import opened Bytes
  import opened Sequences
  import opened Bpe
  import opened BpeTraining

  /** Tier boundaries in the token bytes: 0 / 4096 / 7168 / 9216 / 10240. */
  function TierStart(length: nat): (p: nat)
    requires 1 <= length <= 4
    ensures p + length * CODES_PER_TIER == if length == 1 then DICT_BYTES_SIZE else TierStart(length - 1)
    decreases length
  {
    if length == 4 then 0 else if length == 3 then 4096 else if length == 2 then 7168 else 9216
  }

  /** Where `bpeDictionaryFromBytes` and the on-chain decoder look for a code's token. */
  function CanonicalOffset(c: Code): (p: nat)
    ensures p + TierOf(c) <= DICT_BYTES_SIZE
  {
    TierStart(TierOf(c)) + TierOf(c) * (c - CodeBase(TierOf(c)))
  }

  /** Where `makeDictBlobs` puts it: tokens of a tier are packed from the tier's start in code order. */
  function OffsetOf(ch: Chosen, c: Code): int {
    TierStart(TierOf(c)) + TierOf(c) * (c - FirstCode(ch, TierOf(c)))
  }

  function TierAt(p: nat): (length: nat)
    requires p < DICT_BYTES_SIZE
    ensures 1 <= length <= 4 && TierStart(length) <= p < TierStart(length) + length * CODES_PER_TIER
  {
    if p < 4096 then 4 else if p < 7168 then 3 else if p < 9216 then 2 else 1
  }

  /** Byte `p` of the packed tiers; the gap after a tier's last token is zero. */
  function CellByte(ch: Chosen, p: nat): byte
    requires Valid(ch) && p < DICT_BYTES_SIZE
  {
    var length := TierAt(p);
    var k, j := (p - TierStart(length)) / length, (p - TierStart(length)) % length;
    TierShape(ch, length);
    if k < |Tier(ch, length)| then Tier(ch, length)[k][j] else 0
  }

  ghost predicate Placed(ch: Chosen, c: Code, offset: nat, length: nat) {
    match Assigned(ch, c)
    case None => offset == 0 && length == 0
    case Some(t) => offset == OffsetOf(ch, c) && length == |t|
  }

  /** The blobs of the chosen tokens, byte for byte. */
  ghost predicate Laid(ch: Chosen, d: Dictionary)
    requires Valid(ch)
  {
    && d.Shaped()
    && (forall c: Code :: Placed(ch, c, d.dictOffsets[c], d.dictLengths[c]))
    && (forall p: nat :: p < DICT_BYTES_SIZE ==> d.dictBytes[p] == CellByte(ch, p))
  }

  // ----- makeDictBlobs -----

  datatype Entry = Entry(token: Token, code: Code)

  /** Sorting a tier by code, one entry at a time. */
  function InsertByCode(s: seq<Entry>, e: Entry): seq<Entry> {
    if s == [] || e.code < s[0].code then [e] + s else [s[0]] + InsertByCode(s[1..], e)
  }

  ghost predicate Ascending(s: seq<Entry>) {
    forall i, j :: 0 <= i < j < |s| ==> s[i].code < s[j].code
  }

  lemma {:induction false} InsertAscends(s: seq<Entry>, e: Entry)
    requires Ascending(s) && forall x :: x in s ==> x.code != e.code
    ensures Ascending(InsertByCode(s, e))
    ensures Elements(InsertByCode(s, e)) == Elements(s) + {e}
  {
    var r := InsertByCode(s, e);
    if s == [] || e.code < s[0].code {
      assert r == [e] + s;
    } else {
      InsertAscends(s[1..], e);
      var u := InsertByCode(s[1..], e);
      assert s == [s[0]] + s[1..] && r == [s[0]] + u;
      hide InsertByCode;
      assert Elements(s) == {s[0]} + Elements(s[1..]) && Elements(r) == {s[0]} + Elements(u);
      forall j | 0 <= j < |u| ensures s[0].code < u[j].code {
        assert u[j] in Elements(u);
      }
    }
  }

  method SortedGroup(m: TokenMap, length: nat, ghost ch: Chosen) returns (group: seq<Entry>)
    requires Valid(ch) && IsTrained(ch, m)
    ensures Ascending(group)
    ensures forall e :: e in group <==> e.token in m && m[e.token] == e.code && |e.token| == length
  {
    group := [];
    var left := m.Keys;
    while left != {}
      invariant left <= m.Keys && Ascending(group)
      invariant forall e :: e in group <==> e.token in m && e.token !in left && m[e.token] == e.code && |e.token| == length
      decreases |left|
    {
      var t :| t in left;
      left := left - {t};
      if |t| == length {
        var e := Entry(t, m[t]);
        forall x | x in group ensures x.code != e.code {
          assert Assigned(ch, m[x.token]) == Some(x.token);
        }
        InsertAscends(group, e);
        var next := InsertByCode(group, e);
        assert forall x :: x in next <==> x in Elements(next);
        group := next;
      }
    }
  }

  /** The tier as `makeDictBlobs` lists it. */
  function GroupOf(ch: Chosen, length: nat): (r: seq<Entry>)
    requires Valid(ch) && 1 <= length <= 4
    ensures |r| == |Tier(ch, length)|
    ensures forall k :: 0 <= k < |r| ==> r[k] == Entry(Tier(ch, length)[k], FirstCode(ch, length) + k)
  {
    TierShape(ch, length);
    seq<Entry>(|Tier(ch, length)|, k requires 0 <= k < |Tier(ch, length)| => EntryOf(ch, length, k))
  }

  function EntryOf(ch: Chosen, length: nat, k: nat): Entry
    requires Valid(ch) && 1 <= length <= 4 && k < |Tier(ch, length)|
  {
    TierShape(ch, length);
    Entry(Tier(ch, length)[k], FirstCode(ch, length) + k)
  }

  lemma {:induction false} AscendingUnique(a: seq<Entry>, b: seq<Entry>)
    requires Ascending(a) && Ascending(b) && Elements(a) == Elements(b)
    ensures a == b
    decreases |a|
  {
    if a == [] {
      assert forall i :: 0 <= i < |b| ==> b[i] in Elements(b);
    } else {
      assert a[0] in Elements(b) && b != [];
      assert b[0] in Elements(a);
      var i :| 0 <= i < |b| && b[i] == a[0];
      var j :| 0 <= j < |a| && a[j] == b[0];
      assert a[0] == b[0];
      var ra, rb := a[1..], b[1..];
      assert a == [a[0]] + ra && b == [b[0]] + rb;
      assert Elements(ra) == Elements(a) - {a[0]} by { assert a[0] !in ra; }
      assert Elements(rb) == Elements(b) - {b[0]} by { assert b[0] !in rb; }
      AscendingUnique(ra, rb);
    }
  }

  lemma {:induction false} GroupIsTier(ch: Chosen, m: TokenMap, length: nat, group: seq<Entry>)
    requires Valid(ch) && IsTrained(ch, m) && 1 <= length <= 4
    requires Ascending(group)
    requires forall e :: e in group <==> e.token in m && m[e.token] == e.code && |e.token| == length
    ensures group == GroupOf(ch, length)
  {
    hide Singles, Valid, Assigned, TierOf, Tier;
    var g := GroupOf(ch, length);
    forall e | e in g ensures e in group {
      var k :| 0 <= k < |g| && g[k] == e;
      CodeOfTier(ch, length, k);
      AssignedIs(ch, e.code);
    }
    forall e | e in group ensures e in g {
      AssignedIs(ch, e.code);
      assert g[e.code - FirstCode(ch, length)] == e;
    }
    assert Elements(g) == Elements(group);
    AscendingUnique(group, g);
  }

  /** One round of the layout loop: the tokens of a length, from the start of their tier. */
  method WriteTier(length: nat, group: seq<Entry>, ghost ch: Chosen,
                   dictBytes: array<byte>, dictOffsets: array<u16>, dictLengths: array<byte>)
    requires Valid(ch) && 1 <= length <= 4 && group == GroupOf(ch, length)
    requires dictBytes.Length == DICT_BYTES_SIZE && dictOffsets.Length == dictLengths.Length == TOTAL_CODES
    requires dictBytes != dictLengths
    modifies dictBytes, dictOffsets, dictLengths
    ensures forall c: Code ::
      if FirstCode(ch, length) <= c < FirstCode(ch, length) + |group|
      then dictOffsets[c] == OffsetOf(ch, c) && dictLengths[c] == length
      else dictOffsets[c] == old(dictOffsets[c]) && dictLengths[c] == old(dictLengths[c])
    ensures forall p :: 0 <= p < DICT_BYTES_SIZE ==>
      dictBytes[p] == if TierStart(length) <= p < TierStart(length) + length * |group|
                      then CellByte(ch, p) else old(dictBytes[p])
  {
    hide Singles, Valid, ValidTier, Assigned, TierOf, Tier, CellByte, IsTrained, Distinct, OffsetOf;
    TierShape(ch, length);
    var pos := TierStart(length);
    var g := 0;
    while g < |group|
      invariant 0 <= g <= |group| && pos == TierStart(length) + length * g
      invariant forall c: Code ::
        if FirstCode(ch, length) <= c < FirstCode(ch, length) + g
        then dictOffsets[c] == OffsetOf(ch, c) && dictLengths[c] == length
        else dictOffsets[c] == old(dictOffsets[c]) && dictLengths[c] == old(dictLengths[c])
      invariant forall p :: 0 <= p < DICT_BYTES_SIZE ==>
        dictBytes[p] == if TierStart(length) <= p < pos then CellByte(ch, p) else old(dictBytes[p])
    {
      PositionInTier(ch, length, g);
      dictOffsets[group[g].code] := pos;
      dictLengths[group[g].code] := length;
      WriteCell(group[g].token, dictBytes, pos);
      forall i | 0 <= i < length ensures CellByte(ch, pos + i) == group[g].token[i] {
        CellOf(ch, length, g, i, pos + i);
      }
      pos := pos + length;
      g := g + 1;
    }
  }

  /** What a written tier means: its codes are placed, its gap is zero, the other tiers are not touched. */
  lemma {:induction false} TierWritten(ch: Chosen, length: nat, offsets: seq<u16>, lengths: seq<byte>)
    requires Valid(ch) && 1 <= length <= 4 && |offsets| == |lengths| == TOTAL_CODES
    requires forall c: Code | TierOf(c) == length ::
      if FirstCode(ch, length) <= c < FirstCode(ch, length) + |Tier(ch, length)|
      then offsets[c] == OffsetOf(ch, c) && lengths[c] == length
      else offsets[c] == 0 && lengths[c] == 0
    ensures forall c: Code | TierOf(c) == length :: Placed(ch, c, offsets[c], lengths[c])
    ensures forall c: Code | FirstCode(ch, length) <= c < FirstCode(ch, length) + |Tier(ch, length)| :: TierOf(c) == length
    ensures forall p: nat | p < DICT_BYTES_SIZE ::
      TierStart(length) <= p < TierStart(length) + length * |Tier(ch, length)| ==> TierAt(p) == length
    ensures forall p: nat | p < DICT_BYTES_SIZE && TierAt(p) == length ::
      p >= TierStart(length) + length * |Tier(ch, length)| ==> CellByte(ch, p) == 0
  {
    hide Singles, Valid, ValidTier, Assigned, TierOf, Tier, CellByte, OffsetOf;
    TierShape(ch, length);
    forall c: Code | FirstCode(ch, length) <= c < FirstCode(ch, length) + |Tier(ch, length)|
      ensures TierOf(c) == length
    {
      CodeOfTier(ch, length, c - FirstCode(ch, length));
    }
    forall c: Code | TierOf(c) == length ensures Placed(ch, c, offsets[c], lengths[c]) {
      if Assigned(ch, c).Some? {
        AssignedIs(ch, c);
      } else if FirstCode(ch, length) <= c < FirstCode(ch, length) + |Tier(ch, length)| {
        CodeOfTier(ch, length, c - FirstCode(ch, length));
      }
    }
    forall p: nat | p < DICT_BYTES_SIZE && TierAt(p) == length && p >= TierStart(length) + length * |Tier(ch, length)|
      ensures CellByte(ch, p) == 0
    {
      GapIsZero(ch, length, p);
    }
    assert length * |Tier(ch, length)| <= length * CODES_PER_TIER;
  }

  method WriteCell(token: Token, dictBytes: array<byte>, pos: nat)
    requires pos + |token| <= dictBytes.Length
    modifies dictBytes
    ensures forall p :: 0 <= p < dictBytes.Length ==>
              dictBytes[p] == if pos <= p < pos + |token| then token[p - pos] else old(dictBytes[p])
  {
    var i := 0;
    while i < |token|
      invariant 0 <= i <= |token|
      invariant forall p :: 0 <= p < dictBytes.Length ==>
        dictBytes[p] == if pos <= p < pos + i then token[p - pos] else old(dictBytes[p])
    {
      dictBytes[pos + i] := token[i];
      i := i + 1;
    }
  }

  lemma {:induction false} PositionInTier(ch: Chosen, length: nat, g: nat)
    requires Valid(ch) && 1 <= length <= 4 && g < |Tier(ch, length)|
    ensures TierStart(length) + length * g + length <= TierStart(length) + length * CODES_PER_TIER <= DICT_BYTES_SIZE
    ensures |Tier(ch, length)[g]| == length && Tier(ch, length)[g] == GroupOf(ch, length)[g].token
    ensures OffsetOf(ch, GroupOf(ch, length)[g].code) == TierStart(length) + length * g
  {
    hide Singles, Valid, Tier, Distinct;
    TierShape(ch, length);
    CodeOfTier(ch, length, g);
  }

  lemma {:induction false} DivideCell(length: nat, g: nat, i: nat)
    requires 1 <= length <= 4 && i < length
    ensures (length * g + i) / length == g && (length * g + i) % length == i
  {
    if length == 4 {
      assert (4 * g + i) / 4 == g;
    } else if length == 3 {
      assert (3 * g + i) / 3 == g;
    } else if length == 2 {
      assert (2 * g + i) / 2 == g;
    }
  }

  lemma {:induction false} TierAtCell(length: nat, p: nat)
    requires 1 <= length <= 4 && TierStart(length) <= p < TierStart(length) + length * CODES_PER_TIER
    ensures p < DICT_BYTES_SIZE && TierAt(p) == length
  {
  }

  lemma {:induction false} CellOf(ch: Chosen, length: nat, g: nat, i: nat, p: nat)
    requires Valid(ch) && 1 <= length <= 4 && g < |Tier(ch, length)| && i < length == |Tier(ch, length)[g]|
    requires p == TierStart(length) + length * g + i < TierStart(length) + length * CODES_PER_TIER
    ensures CellByte(ch, p) == Tier(ch, length)[g][i]
  {
    hide Singles, Valid, Tier, Distinct;
    TierShape(ch, length);
    DivideCell(length, g, i);
    TierAtCell(length, p);
  }

  lemma {:induction false} GapIsZero(ch: Chosen, length: nat, p: nat)
    requires Valid(ch) && p < DICT_BYTES_SIZE && TierAt(p) == length
    requires p >= TierStart(length) + length * |Tier(ch, length)|
    ensures CellByte(ch, p) == 0
  {
    hide Singles, Valid, Tier, Distinct;
    var x := p - TierStart(length);
    assert x / length >= |Tier(ch, length)|;
  }

  method MakeDictBlobs(m: TokenMap, ghost ch: Chosen) returns (d: Dictionary)
    requires Valid(ch) && IsTrained(ch, m)
    ensures Laid(ch, d) && d.tokenToCode == m
  {
    hide Valid, IsTrained, Placed, CellByte, TierOf;
    var dictBytes := new byte[DICT_BYTES_SIZE](_ => 0);
    var dictOffsets := new u16[TOTAL_CODES](_ => 0);
    var dictLengths := new byte[TOTAL_CODES](_ => 0);
    var length: nat := 4;
    while length > 0
      invariant length <= 4
      invariant forall c: Code :: if TierOf(c) > length then Placed(ch, c, dictOffsets[c], dictLengths[c])
                                  else dictOffsets[c] == 0 && dictLengths[c] == 0
      invariant forall p :: 0 <= p < DICT_BYTES_SIZE ==>
        dictBytes[p] == if TierAt(p) > length then CellByte(ch, p) else 0
    {
      var group := SortedGroup(m, length, ch);
      GroupIsTier(ch, m, length, group);
      WriteTier(length, group, ch, dictBytes, dictOffsets, dictLengths);
      TierWritten(ch, length, dictOffsets[..], dictLengths[..]);
      length := length - 1;
    }
    d := Dictionary(m, dictBytes[..], dictOffsets[..], dictLengths[..]);
    forall c: Code ensures Placed(ch, c, d.dictOffsets[c], d.dictLengths[c]) {
      assert TierOf(c) > 0;
    }
  }

  /** Training end to end. */
  method BuildDictionary(corpus: bytes) returns (d: Dictionary)
    ensures Valid(ChosenFrom(corpus)) && IsTrained(ChosenFrom(corpus), d.tokenToCode) && Laid(ChosenFrom(corpus), d)
  {
    var counts := CountWindows(corpus);
    ChosenFromIsValid(corpus);
    TrainedMapIsTrained(ChosenFrom(corpus));
    var m := TopTokens(counts);
    assert ChosenIn(counts) == ChosenFrom(corpus);
    d := MakeDictBlobs(m, ChosenFrom(corpus));
  }
}
