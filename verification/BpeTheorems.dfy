// packages/bam-sdk/src/bpe.ts: trained dictionaries are lossless; serialization is the identity; and
// exactly when a dictionary rebuilt from the 10240 token bytes stands in for the trained one.
module BpeTheorems {
  import opened Wrappers
  import opened Bytes
  import opened Sequences
  import opened Bpe
  import opened BpeTraining
  import opened BpeLayout

  // ----- trained dictionaries -----

  ghost predicate Trained(ch: Chosen, d: Dictionary) {
    Valid(ch) && IsTrained(ch, d.tokenToCode) && Laid(ch, d)
  }

  /** The bytes at an assigned code's own offset spell its token. */
  lemma {:induction false} LaidToken(ch: Chosen, d: Dictionary, c: Code)
    requires Valid(ch) && Laid(ch, d) && Assigned(ch, c).Some?
    ensures TokenAt(d, c) == Assigned(ch, c).value
  {
    hide Singles, Valid, ValidTier, Tier, Distinct, CellByte;
    var length := TierOf(c);
    var g := c - FirstCode(ch, length);
    AssignedIs(ch, c);
    PositionInTier(ch, length, g);
    assert Placed(ch, c, d.dictOffsets[c], d.dictLengths[c]);
    var t, off := Assigned(ch, c).value, d.dictOffsets[c];
    forall i | 0 <= i < length ensures d.dictBytes[off + i] == t[i] {
      CellOf(ch, length, g, i, off + i);
    }
  }

  lemma {:induction false} TrainedReads(ch: Chosen, d: Dictionary)
    requires Trained(ch, d)
    ensures Reads(d.tokenToCode, d)
  {
    hide Singles, Valid, Laid, TierOf, Assigned, Tier, TokenAt;
    TrainedShape(ch, d);
    var m := d.tokenToCode;
    forall b: byte ensures [b] in m && m[[b]] != 0 {
      SingleAt(ch, b);
      CodeOfTier(ch, 1, b);
    }
    forall t | t in m ensures (m[t] == 0 ==> |t| == 4) && (m[t] != 0 ==> TokenAt(d, m[t]) == t) {
      AssignedIs(ch, m[t]);
      assert m[t] == 0 ==> TierOf(m[t]) == 4 by { CodeBaseTier(4, 0); }
      LaidToken(ch, d, m[t]);
    }
  }

  lemma {:induction false} TrainedShape(ch: Chosen, d: Dictionary)
    requires Trained(ch, d)
    ensures d.Shaped()
  {
  }

  lemma {:induction false} SingleAt(ch: Chosen, b: byte)
    ensures |Tier(ch, 1)| == 256 && Tier(ch, 1)[b] == [b]
  {
  }

  /** For every corpus and every text: decoding the encoding gives the text back, padding never stands
      for data, and the size lies between the all-quads and the all-singles encodings. */
  lemma {:induction false} TrainedRoundTrip(ch: Chosen, d: Dictionary, x: bytes)
    requires Trained(ch, d)
    ensures Decoded(d, Encoded(d.tokenToCode, x)) == Ok(x)
    ensures 0 !in Codes(d.tokenToCode, x)
    ensures 3 * CeilDiv(|x|, 8) <= |Encoded(d.tokenToCode, x)| <= 3 * CeilDiv(|x|, 2)
  {
    hide Trained, Encoded, Decoded;
    TrainedReads(ch, d);
    RoundTrip(d.tokenToCode, d, x);
    DataCodesAreNotPadding(d.tokenToCode, d, x);
    EncodedSize(d.tokenToCode, x);
  }

  /** The canonical layout holds exactly when the zero quad was not itself chosen. */
  lemma {:induction false} CanonicalLayoutIff(ch: Chosen, d: Dictionary)
    requires Trained(ch, d)
    ensures (forall c: Code :: Assigned(ch, c).Some? ==> d.dictOffsets[c] == CanonicalOffset(c))
            <==> ZERO4 !in ch.t4
  {
    hide Singles, Valid, IsTrained, Tier, Assigned, TierOf;
    forall c: Code | Assigned(ch, c).Some? ensures d.dictOffsets[c] == OffsetOf(ch, c) {
      assert Placed(ch, c, d.dictOffsets[c], d.dictLengths[c]);
    }
    if ZERO4 in ch.t4 {
      assert Tier(ch, 4) == ch.t4 by { QuadTier(ch); }
      CodeOfTier(ch, 4, 0);
      assert d.dictOffsets[1] == OffsetOf(ch, 1) == 0 && CanonicalOffset(1) == 4;
    }
  }

  lemma {:induction false} QuadTier(ch: Chosen)
    ensures Tier(ch, 4) == if ZERO4 in ch.t4 then ch.t4 else [ZERO4] + ch.t4
  {
  }

  // ----- bpeDictionaryFromBytes -----

  datatype LoadError = WrongSize | TooSmall

  /** The dictionary of the token bytes alone: canonical cells, and the first code of each token wins. */
  ghost predicate IsRebuilt(b: bytes, e: Dictionary) {
    && e.Shaped() && e.dictBytes == b
    && (forall c: Code :: e.dictOffsets[c] == CanonicalOffset(c) && e.dictLengths[c] == TierOf(c))
    && (forall c: Code :: TokenAt(e, c) in e.tokenToCode && e.tokenToCode[TokenAt(e, c)] <= c)
    && (forall t :: t in e.tokenToCode ==> TokenAt(e, e.tokenToCode[t]) == t)
  }

  function CanonicalToken(b: bytes, c: Code): Token {
    Slice(b, CanonicalOffset(c), TierOf(c))
  }

  /** Each token of the first `n` cells has its first code, and no other token has one. */
  ghost predicate FirstCodes(b: bytes, m: TokenMap, n: nat) {
    && (forall c: Code :: c < n ==> CanonicalToken(b, c) in m && m[CanonicalToken(b, c)] <= c)
    && (forall t :: t in m ==> m[t] < n && CanonicalToken(b, m[t]) == t)
  }

  lemma {:induction false} NoFirstCodes(b: bytes)
    ensures FirstCodes(b, map[], 0)
  {
  }

  lemma {:induction false} FirstCodesStep(b: bytes, m: TokenMap, c: Code)
    requires FirstCodes(b, m, c)
    ensures var key := CanonicalToken(b, c); FirstCodes(b, if key in m then m else m[key := c], c + 1)
  {
    hide CanonicalToken;
  }

  lemma {:induction false} CellsRebuild(b: bytes, e: Dictionary)
    requires e.Shaped() && e.dictBytes == b && FirstCodes(b, e.tokenToCode, TOTAL_CODES)
    requires forall c: Code :: e.dictOffsets[c] == CanonicalOffset(c) && e.dictLengths[c] == TierOf(c)
    ensures IsRebuilt(b, e)
  {
    hide Slice, CanonicalOffset, TierOf;
    forall c: Code ensures TokenAt(e, c) == CanonicalToken(b, c) {}
  }

  method BpeDictionaryFromBytes(b: bytes) returns (r: Result<Dictionary, LoadError>)
    ensures |b| != DICT_BYTES_SIZE ==> r == Err(WrongSize)
    ensures |b| == DICT_BYTES_SIZE ==> r.Ok? && IsRebuilt(b, r.value)
  {
    if |b| != DICT_BYTES_SIZE {
      return Err(WrongSize);
    }
    hide Slice, CanonicalOffset, TierOf, FirstCodes, IsRebuilt;
    var dictOffsets := new u16[TOTAL_CODES](_ => 0);
    var dictLengths := new byte[TOTAL_CODES](_ => 0);
    var m: TokenMap := map[];
    NoFirstCodes(b);
    var code := 0;
    while code < TOTAL_CODES
      invariant 0 <= code <= TOTAL_CODES
      invariant forall c: Code :: c < code ==> dictOffsets[c] == CanonicalOffset(c) && dictLengths[c] == TierOf(c)
      invariant FirstCodes(b, m, code)
    {
      var off, len := Cell(code);
      dictOffsets[code] := off;
      dictLengths[code] := len;
      var key := Slice(b, off, len);
      assert key == CanonicalToken(b, code);
      FirstCodesStep(b, m, code);
      if key !in m {
        m := m[key := code];
      }
      code := code + 1;
    }
    var e := Dictionary(m, b, dictOffsets[..], dictLengths[..]);
    CellsRebuild(b, e);
    return Ok(e);
  }

  method Cell(code: Code) returns (off: nat, len: byte)
    ensures off == CanonicalOffset(code) && len == TierOf(code) && off < DICT_BYTES_SIZE
  {
    if code < 1024 {
      off, len := code * 4, 4;
    } else if code < 2048 {
      off, len := 4096 + (code - 1024) * 3, 3;
    } else if code < 3072 {
      off, len := 7168 + (code - 2048) * 2, 2;
    } else {
      off, len := 9216 + (code - 3072), 1;
    }
  }

  /** What the canonical cell of a code holds in trained bytes: cell `k` of its tier, or zeros past it. */
  lemma {:induction false} RebuiltToken(ch: Chosen, d: Dictionary, e: Dictionary, c: Code)
    requires Valid(ch) && Laid(ch, d) && IsRebuilt(d.dictBytes, e)
    ensures var length := TierOf(c);
      var k := c - CodeBase(length);
      TokenAt(e, c) == if k < |Tier(ch, length)| then Tier(ch, length)[k] else Zeros(length)
  {
    hide Singles, Valid, IsTrained, Tier, Distinct, CellByte, ValidTier, TierOf, Placed, OffsetOf, Zeros;
    var length := TierOf(c);
    var k := c - CodeBase(length);
    var off := CanonicalOffset(c);
    assert TokenAt(e, c) == d.dictBytes[off..off + length];
    if k < |Tier(ch, length)| {
      CellIsToken(ch, d, length, k, off);
    } else {
      GapIsZeros(ch, d, length, k, off);
    }
  }

  lemma {:induction false} CellIsToken(ch: Chosen, d: Dictionary, length: nat, k: nat, off: nat)
    requires Valid(ch) && Laid(ch, d) && 1 <= length <= 4 && k < |Tier(ch, length)|
    requires off == TierStart(length) + length * k && off + length <= DICT_BYTES_SIZE
    ensures d.dictBytes[off..off + length] == Tier(ch, length)[k]
  {
    hide Singles, Valid, Tier, Distinct, CellByte, ValidTier, TierOf, Placed, OffsetOf;
    PositionInTier(ch, length, k);
    forall i | 0 <= i < length ensures d.dictBytes[off..off + length][i] == Tier(ch, length)[k][i] {
      CellOf(ch, length, k, i, off + i);
    }
  }

  lemma {:induction false} GapIsZeros(ch: Chosen, d: Dictionary, length: nat, k: nat, off: nat)
    requires Valid(ch) && Laid(ch, d) && 1 <= length <= 4 && |Tier(ch, length)| <= k < CODES_PER_TIER
    requires off == TierStart(length) + length * k && off + length <= DICT_BYTES_SIZE
    ensures d.dictBytes[off..off + length] == Zeros(length)
  {
    hide Singles, Valid, Tier, Distinct, CellByte, ValidTier, TierOf, Placed, OffsetOf;
    assert length * k >= length * |Tier(ch, length)| && length * k + length <= length * CODES_PER_TIER;
    var cell := d.dictBytes[off..off + length];
    forall i | 0 <= i < |cell| ensures cell[i] == 0 {
      TierAtCell(length, off + i);
      GapIsZero(ch, length, off + i);
    }
  }

  function Zeros(n: nat): (r: Token)
    ensures |r| == n && forall i :: 0 <= i < n ==> r[i] == 0
  {
    if n == 0 then [] else Zeros(n - 1) + [0]
  }

  lemma {:induction false} ZerosIsZero4()
    ensures Zeros(4) == ZERO4
  {
  }

  ghost predicate QuadsReadable(ch: Chosen) {
    ZERO4 !in ch.t4 || ch.t4 == [ZERO4]
  }

  /** A trained code of any tier but a shifted quad tier sits in its canonical cell. */
  lemma {:induction false} UnshiftedReads(ch: Chosen, d: Dictionary, e: Dictionary, c: Code)
    requires Trained(ch, d) && IsRebuilt(d.dictBytes, e) && Assigned(ch, c).Some?
    requires TierOf(c) != 4 || ZERO4 !in ch.t4
    ensures TokenAt(e, c) == Assigned(ch, c).value
  {
    hide Singles, Valid, IsTrained, Tier, Laid, IsRebuilt, TierOf, Assigned;
    AssignedIs(ch, c);
    RebuiltToken(ch, d, e, c);
  }

  /** In a shifted quad tier, code `c` reads the quad of code `c + 1`. */
  lemma {:induction false} ShiftedReads(ch: Chosen, d: Dictionary, e: Dictionary, k: nat)
    requires Trained(ch, d) && IsRebuilt(d.dictBytes, e) && ZERO4 in ch.t4 && k < |ch.t4|
    ensures Assigned(ch, k + 1) == Some(ch.t4[k])
    ensures TokenAt(e, k + 1) == if k + 1 < |ch.t4| then ch.t4[k + 1] else ZERO4
    ensures TokenAt(e, 0) == ch.t4[0]
  {
    hide Singles, Valid, IsTrained, Tier, Laid, IsRebuilt, Assigned;
    QuadTier(ch);
    ZerosIsZero4();
    CodeOfTier(ch, 4, k);
    RebuiltToken(ch, d, e, k + 1);
    RebuiltToken(ch, d, e, 0);
  }

  /** The rebuilt dictionary reads the trained codes exactly when the zero quad was not chosen, or was
      the only quad chosen. */
  lemma {:induction false} RebuiltReadsIff(ch: Chosen, d: Dictionary, e: Dictionary)
    requires Trained(ch, d) && IsRebuilt(d.dictBytes, e)
    ensures Reads(d.tokenToCode, e) <==> QuadsReadable(ch)
  {
    hide Singles, Valid, IsRebuilt, Laid, Assigned, TokenAt;
    var m := d.tokenToCode;
    RebuiltShape(d.dictBytes, e);
    TrainedReads(ch, d);
    if QuadsReadable(ch) {
      forall t | t in m && m[t] != 0 ensures TokenAt(e, m[t]) == t {
        if TierOf(m[t]) == 4 && ZERO4 in ch.t4 {
          AssignedIs(ch, m[t]);
          ShiftedReads(ch, d, e, 0);
        } else {
          UnshiftedReads(ch, d, e, m[t]);
        }
      }
    } else {
      ShiftedReads(ch, d, e, 0);
      DistinctQuads(ch);
      assert m[ch.t4[0]] == 1;
    }
  }

  lemma {:induction false} RebuiltShape(b: bytes, e: Dictionary)
    requires IsRebuilt(b, e)
    ensures e.Shaped()
  {
  }

  lemma {:induction false} DistinctQuads(ch: Chosen)
    requires Valid(ch) && !QuadsReadable(ch)
    ensures |ch.t4| >= 2 && ch.t4[0] != ch.t4[1] && |ch.t4[0]| == 4
  {
    assert ch.t4[..1] == [ch.t4[0]] && ch.t4[0] in ch.t4;
  }

  /** Text encoded with the trained dictionary decodes with the rebuilt one, for every text, exactly then. */
  lemma {:induction false} CrossDecodeIff(ch: Chosen, d: Dictionary, e: Dictionary)
    requires Trained(ch, d) && IsRebuilt(d.dictBytes, e)
    ensures e.Shaped()
    ensures (forall x :: Decoded(e, Encoded(d.tokenToCode, x)) == Ok(x)) <==> QuadsReadable(ch)
  {
    hide Singles, Valid, IsRebuilt, Laid, Assigned, TokenAt, Encoded, Decoded;
    var m := d.tokenToCode;
    RebuiltShape(d.dictBytes, e);
    if QuadsReadable(ch) {
      RebuiltReadsIff(ch, d, e);
      forall x ensures Decoded(e, Encoded(m, x)) == Ok(x) {
        RoundTrip(m, e, x);
      }
    } else {
      ShiftedReads(ch, d, e, 0);
      DistinctQuads(ch);
      OneQuad(m, e, ch.t4[0]);
      assert m[ch.t4[0]] == 1;
    }
  }

  /** A text that is a single match decodes to what its one code emits. */
  lemma {:induction false} OneCode(m: TokenMap, e: Dictionary, data: bytes, c: Code)
    requires e.Shaped() && data != [] && Greedy(m, data) == Match(c, |data|)
    ensures Decoded(e, Encoded(m, data)) == Ok(Emit(e, c))
  {
    hide Greedy, Emit, Packed, Unpacked;
    var codes: seq<Code> := [c];
    assert data[|data|..] == [] && codes[1..] == [];
    assert Codes(m, data) == codes;
    UnpackPacked(Padded(codes));
    PaddingIsSilent(e, codes);
    assert Expanded(e, codes) == Emit(e, c) + [] == Emit(e, c);
  }

  lemma {:induction false} OneQuad(m: TokenMap, e: Dictionary, t: Token)
    requires e.Shaped() && |t| == 4 && t in m && m[t] != 0
    ensures Decoded(e, Encoded(m, t)) == Ok(TokenAt(e, m[t]))
  {
    hide TokenAt, Encoded, Decoded;
    assert t[..4] == t;
    OneCode(m, e, t, m[t]);
  }

  // ----- when the rebuilt token map is the trained one -----

  /** No code of the tier is unassigned, or the zero token such a code would read is in the tier. */
  ghost predicate GapIsHarmless(tier: seq<Token>, length: nat) {
    |tier| == CODES_PER_TIER || Zeros(length) in tier
  }

  /** The rebuilt map equals the trained one exactly when the zero quad was not chosen and neither the
      triple nor the pair tier exposes a zero token through its gap. */
  lemma {:induction false} RebuiltMapIff(ch: Chosen, d: Dictionary, e: Dictionary)
    requires Trained(ch, d) && IsRebuilt(d.dictBytes, e)
    ensures e.tokenToCode == d.tokenToCode
            <==> ZERO4 !in ch.t4 && GapIsHarmless(ch.t3, 3) && GapIsHarmless(ch.t2, 2)
  {
    hide Singles, Valid, Laid, Assigned, TokenAt, GapIsHarmless;
    if ZERO4 in ch.t4 {
      ShiftedReads(ch, d, e, 0);
      assert d.tokenToCode[ch.t4[0]] == 1;
      assert e.tokenToCode[ch.t4[0]] <= 0;
    } else if !GapIsHarmless(ch.t3, 3) {
      GapExposesZero(ch, d, e, 3);
    } else if !GapIsHarmless(ch.t2, 2) {
      GapExposesZero(ch, d, e, 2);
    } else {
      forall c: Code ensures TokenAt(e, c) in d.tokenToCode && d.tokenToCode[TokenAt(e, c)] <= c {
        ReadsTrainedToken(ch, d, e, c);
      }
      forall t | t in d.tokenToCode ensures t in e.tokenToCode && e.tokenToCode[t] == d.tokenToCode[t] {
        var c := d.tokenToCode[t];
        UnshiftedReads(ch, d, e, c);
      }
      forall t | t in e.tokenToCode ensures t in d.tokenToCode {}
    }
  }

  lemma {:induction false} GapExposesZero(ch: Chosen, d: Dictionary, e: Dictionary, length: nat)
    requires Trained(ch, d) && IsRebuilt(d.dictBytes, e) && 2 <= length <= 3
    requires !GapIsHarmless(Tier(ch, length), length)
    ensures Zeros(length) in e.tokenToCode && Zeros(length) !in d.tokenToCode
  {
    hide Singles, Valid, Laid, Assigned, TokenAt, Tier, TierOf;
    TierShape(ch, length);
    var k := |Tier(ch, length)|;
    CodeBaseTier(length, k);
    RebuiltToken(ch, d, e, CodeBase(length) + k);
    if Zeros(length) in d.tokenToCode {
      AssignedIs(ch, d.tokenToCode[Zeros(length)]);
    }
  }

  /** In the harmless case every cell reads a trained token, and none before its trained code. */
  lemma {:induction false} ReadsTrainedToken(ch: Chosen, d: Dictionary, e: Dictionary, c: Code)
    requires Trained(ch, d) && IsRebuilt(d.dictBytes, e)
    requires ZERO4 !in ch.t4 && GapIsHarmless(ch.t3, 3) && GapIsHarmless(ch.t2, 2)
    ensures TokenAt(e, c) in d.tokenToCode && d.tokenToCode[TokenAt(e, c)] <= c
  {
    hide Singles, Valid, Laid, Assigned, TokenAt, TierOf, IsRebuilt;
    var length := TierOf(c);
    var k := c - CodeBase(length);
    TierShape(ch, length);
    RebuiltToken(ch, d, e, c);
    if k < |Tier(ch, length)| {
      CodeOfTier(ch, length, k);
    } else {
      var i := ZeroOfTier(ch, length);
      CodeOfTier(ch, length, i);
    }
  }

  /** Where a tier with a harmless gap holds its zero token. */
  lemma {:induction false} ZeroOfTier(ch: Chosen, length: nat) returns (i: nat)
    requires 1 <= length <= 4 && |Tier(ch, length)| < CODES_PER_TIER && (length == 4 ==> ZERO4 !in ch.t4)
    requires GapIsHarmless(ch.t3, 3) && GapIsHarmless(ch.t2, 2)
    ensures i < |Tier(ch, length)| && Tier(ch, length)[i] == Zeros(length)
  {
    if length == 4 {
      ZerosIsZero4();
      i := 0;
    } else if length == 1 {
      assert Zeros(1) == [0];
      i := 0;
    } else {
      assert Zeros(length) in Tier(ch, length);
      i :| 0 <= i < |Tier(ch, length)| && Tier(ch, length)[i] == Zeros(length);
    }
  }

  // ----- text encoded with the rebuilt dictionary -----

  /** A code the rebuilt map gives away reads the same token in the trained dictionary. */
  lemma {:induction false} RebuiltCodeReads(ch: Chosen, d: Dictionary, e: Dictionary, t: Token)
    requires Trained(ch, d) && IsRebuilt(d.dictBytes, e)
    requires QuadsReadable(ch) && GapIsHarmless(ch.t3, 3) && GapIsHarmless(ch.t2, 2)
    requires t in e.tokenToCode && e.tokenToCode[t] != 0
    ensures TokenAt(d, e.tokenToCode[t]) == t
  {
    hide Singles, Valid, Laid, Assigned, TokenAt, TierOf, IsTrained, GapIsHarmless, IsRebuilt;
    var c := e.tokenToCode[t];
    RebuiltLookup(d.dictBytes, e, t);
    var length := TierOf(c);
    var k := c - CodeBase(length);
    RebuiltToken(ch, d, e, c);
    if ZERO4 in ch.t4 && length == 4 {
      QuadTier(ch);
      ZerosIsZero4();
      assert t == ZERO4;
      ShiftedReads(ch, d, e, 0);
      FirstCodeWins(d.dictBytes, e, 0);
    } else if k < |Tier(ch, length)| {
      CodeOfTier(ch, length, k);
      LaidToken(ch, d, c);
    } else {
      TierShape(ch, length);
      var i := ZeroOfTier(ch, length);
      CodeBaseTier(length, i);
      RebuiltToken(ch, d, e, CodeBase(length) + i);
      FirstCodeWins(d.dictBytes, e, CodeBase(length) + i);
    }
  }

  lemma {:induction false} RebuiltLookup(b: bytes, e: Dictionary, t: Token)
    requires IsRebuilt(b, e) && t in e.tokenToCode
    ensures TokenAt(e, e.tokenToCode[t]) == t && |t| == TierOf(e.tokenToCode[t])
  {
    hide TierOf;
  }

  lemma {:induction false} FirstCodeWins(b: bytes, e: Dictionary, c: Code)
    requires IsRebuilt(b, e)
    ensures TokenAt(e, c) in e.tokenToCode && e.tokenToCode[TokenAt(e, c)] <= c
  {
  }

  lemma {:induction false} RebuiltMapReads(ch: Chosen, d: Dictionary, e: Dictionary)
    requires Trained(ch, d) && IsRebuilt(d.dictBytes, e)
    requires QuadsReadable(ch) && GapIsHarmless(ch.t3, 3) && GapIsHarmless(ch.t2, 2)
    ensures Reads(e.tokenToCode, d)
  {
    hide Singles, Valid, Laid, Assigned, TokenAt, Tier, TierOf, IsTrained, GapIsHarmless, IsRebuilt, QuadsReadable;
    TrainedShape(ch, d);
    var m := e.tokenToCode;
    forall b: byte ensures [b] in m && m[[b]] != 0 {
      SingleAt(ch, b);
      CodeOfTier(ch, 1, b);
      CodeBaseTier(1, b);
      RebuiltToken(ch, d, e, CodeBase(1) + b);
      FirstCodeWins(d.dictBytes, e, CodeBase(1) + b);
      RebuiltLookup(d.dictBytes, e, [b]);
      CodeBaseTier(4, 0);
    }
    forall t | t in m ensures (m[t] == 0 ==> |t| == 4) && (m[t] != 0 ==> TokenAt(d, m[t]) == t) {
      RebuiltLookup(d.dictBytes, e, t);
      CodeBaseTier(4, 0);
      if m[t] != 0 {
        RebuiltCodeReads(ch, d, e, t);
      }
    }
  }

  /** A zero token that only the gap of a tier spells: the trained dictionary has nothing for its code. */
  lemma {:induction false} GapCodeIsSilent(ch: Chosen, d: Dictionary, e: Dictionary, length: nat)
    requires Trained(ch, d) && IsRebuilt(d.dictBytes, e) && 2 <= length <= 3
    requires !GapIsHarmless(Tier(ch, length), length)
    ensures Decoded(d, Encoded(e.tokenToCode, Zeros(length))) == Ok([])
  {
    hide Singles, Valid, IsTrained, Assigned, TokenAt, TierOf, Decoded, Encoded;
    var t := Zeros(length);
    GapExposesZero(ch, d, e, length);
    RebuiltLookup(d.dictBytes, e, t);
    var c := e.tokenToCode[t];
    RebuiltToken(ch, d, e, c);
    assert Assigned(ch, c) == None by { Unassigned(ch, c); }
    assert Placed(ch, c, d.dictOffsets[c], d.dictLengths[c]);
    EmitSize(d, c);
    assert t[..length] == t;
    OneCode(e.tokenToCode, d, t, c);
  }

  lemma {:induction false} Unassigned(ch: Chosen, c: Code)
    requires var length := TierOf(c); 2 <= length <= 3 && c - CodeBase(length) >= |Tier(ch, length)|
    ensures Assigned(ch, c) == None
  {
  }

  /** Text encoded with the rebuilt dictionary decodes with the trained one, for every text, exactly when the quads are
      readable and neither the triple nor the pair tier exposes a zero token through its gap. */
  lemma {:induction false} RebuiltEncodesIff(ch: Chosen, d: Dictionary, e: Dictionary)
    requires Trained(ch, d) && IsRebuilt(d.dictBytes, e)
    ensures d.Shaped()
    ensures (forall x :: Decoded(d, Encoded(e.tokenToCode, x)) == Ok(x))
            <==> QuadsReadable(ch) && GapIsHarmless(ch.t3, 3) && GapIsHarmless(ch.t2, 2)
  {
    hide Singles, Valid, IsRebuilt, Laid, Assigned, TokenAt, Encoded, Decoded, GapIsHarmless, QuadsReadable, IsTrained;
    var m := e.tokenToCode;
    TrainedShape(ch, d);
    if QuadsReadable(ch) && GapIsHarmless(ch.t3, 3) && GapIsHarmless(ch.t2, 2) {
      RebuiltMapReads(ch, d, e);
      forall x ensures Decoded(d, Encoded(m, x)) == Ok(x) {
        RoundTrip(m, d, x);
      }
    } else if !QuadsReadable(ch) {
      SecondQuadShifts(ch, d, e);
      DistinctQuads(ch);
    } else if !GapIsHarmless(ch.t3, 3) {
      GapCodeIsSilent(ch, d, e, 3);
    } else {
      GapCodeIsSilent(ch, d, e, 2);
    }
  }

  /** In a shifted quad tier the second quad, encoded with the rebuilt map, comes back as the first. */
  lemma {:induction false} SecondQuadShifts(ch: Chosen, d: Dictionary, e: Dictionary)
    requires Trained(ch, d) && IsRebuilt(d.dictBytes, e) && !QuadsReadable(ch)
    ensures d.Shaped() && |ch.t4| >= 2
    ensures Decoded(d, Encoded(e.tokenToCode, ch.t4[1])) == Ok(ch.t4[0])
  {
    hide Singles, IsRebuilt, Laid, Assigned, TokenAt, Encoded, Decoded, IsTrained;
    TrainedShape(ch, d);
    DistinctQuads(ch);
    ShiftedReads(ch, d, e, 0);
    FirstCodeWins(d.dictBytes, e, 1);
    RebuiltLookup(d.dictBytes, e, ch.t4[1]);
    assert e.tokenToCode[ch.t4[1]] == 1;
    LaidToken(ch, d, 1);
    assert ch.t4[1] in ch.t4;
    OneQuad(e.tokenToCode, d, ch.t4[1]);
  }

  // ----- corpora with a zero quad -----

  lemma {:induction false} ZeroCorpus()
    ensures ChosenFrom([0, 0, 0, 0]).t4 == [ZERO4]
  {
    var data: bytes := [0, 0, 0, 0];
    assert data[0..4] == ZERO4;
    assert Tally(data, 4, 0) == [];
    var a := Counted(ZERO4, 1);
    assert Tally(data, 4, 1) == Bump([], ZERO4) == [a];
    assert [a][..0] == [];
    assert ByCount([a]) == Insert(ByCount([]), a) == [a];
    assert Tokens([a]) == [ZERO4];
  }

  lemma {:induction false} ZeroOneCorpus()
    ensures ChosenFrom([0, 0, 0, 0, 1]).t4 == [ZERO4, [0, 0, 0, 1]]
  {
    var data: bytes := [0, 0, 0, 0, 1];
    var last: Token := [0, 0, 0, 1];
    assert data[0..4] == ZERO4 && data[1..5] == last;
    var a, b := Counted(ZERO4, 1), Counted(last, 1);
    assert Tally(data, 4, 0) == [];
    assert Tally(data, 4, 1) == Bump([], ZERO4) == [a];
    assert [a][1..] == [];
    assert Tally(data, 4, 2) == Bump([a], last) == [a, b];
    assert [a, b][..1] == [a] && [a][..0] == [];
    assert ByCount([a]) == Insert(ByCount([]), a) == [a];
    assert ByCount([a, b]) == Insert([a], b) == [a, b];
    assert Tokens([a, b]) == [ZERO4, last];
  }

  /** Trained on four zero bytes, the zero quad's code reads the offset of the padding: the layout is shifted, harmlessly. */
  lemma {:induction false} ZeroCorpusShifts(d: Dictionary, e: Dictionary)
    requires Trained(ChosenFrom([0, 0, 0, 0]), d) && IsRebuilt(d.dictBytes, e)
    ensures d.Shaped() && ZERO4 in d.tokenToCode && d.tokenToCode[ZERO4] == 1
    ensures d.dictOffsets[1] == 0 && CanonicalOffset(1) == 4
    ensures e.Shaped() && forall x :: Decoded(e, Encoded(d.tokenToCode, x)) == Ok(x)
  {
    ZeroCorpus();
    hide ChosenFrom, Trained, Valid, Decoded, Encoded, IsRebuilt, TierOf;
    var ch := ChosenFrom([0, 0, 0, 0]);
    CrossDecodeIff(ch, d, e);
    ChosenZero(ch, d);
    assert CanonicalOffset(1) == 4 by { FirstCell(); }
  }

  lemma {:induction false} FirstCell()
    ensures CanonicalOffset(1) == 4
  {
  }

  /** A zero quad chosen first has code 1, whose cell is the first. */
  lemma {:induction false} ChosenZero(ch: Chosen, d: Dictionary)
    requires Trained(ch, d) && ch.t4 != [] && ch.t4[0] == ZERO4
    ensures d.Shaped() && ZERO4 in d.tokenToCode && d.tokenToCode[ZERO4] == 1 && d.dictOffsets[1] == 0
  {
    ShiftedOffset(ch, d);
    hide Singles, Laid, Valid;
    QuadTier(ch);
    CodeOfTier(ch, 4, 0);
  }

  lemma {:induction false} ShiftedOffset(ch: Chosen, d: Dictionary)
    requires Trained(ch, d) && ZERO4 in ch.t4
    ensures d.Shaped() && d.dictOffsets[1] == 0
  {
    hide Singles, Valid, IsTrained, Tier, Assigned, TierOf;
    QuadTier(ch);
    CodeOfTier(ch, 4, 0);
    assert Placed(ch, 1, d.dictOffsets[1], d.dictLengths[1]);
  }

  /** With one byte more another quad follows, and the four zeros come back as that quad. */
  lemma {:induction false} ZeroOneCorpusMisreads(d: Dictionary, e: Dictionary)
    requires Trained(ChosenFrom([0, 0, 0, 0, 1]), d) && IsRebuilt(d.dictBytes, e)
    ensures e.Shaped() && Decoded(e, Encoded(d.tokenToCode, [0, 0, 0, 0])) == Ok([0, 0, 0, 1])
  {
    var ch := ChosenFrom([0, 0, 0, 0, 1]);
    ZeroOneCorpus();
    hide ChosenFrom, Singles, Laid, Valid, TokenAt, Decoded, Encoded, IsRebuilt;
    RebuiltShape(d.dictBytes, e);
    ShiftedReads(ch, d, e, 0);
    OneQuad(d.tokenToCode, e, ZERO4);
  }

  /** Any 10240 bytes give a lossless dictionary exactly when every byte value occurs in the last tier. */
  lemma {:induction false} RebuiltRoundTripIff(b: bytes, e: Dictionary)
    requires IsRebuilt(b, e)
    ensures (forall x :: Decoded(e, Encoded(e.tokenToCode, x)) == Ok(x)) <==> (forall v: byte :: v in b[9216..])
  {
    var m := e.tokenToCode;
    hide Encoded, Decoded;
    forall v: byte ensures v in b[9216..] <==> [v] in m {
      SingleIff(b, e, v);
    }
    if forall v: byte :: v in b[9216..] {
      assert Reads(m, e) by {
        forall v: byte ensures [v] in m && m[[v]] != 0 {
          assert |TokenAt(e, m[[v]])| == TierOf(m[[v]]);
        }
      }
      forall x ensures Decoded(e, Encoded(m, x)) == Ok(x) {
        RoundTrip(m, e, x);
      }
    } else {
      var v: byte :| v !in b[9216..];
      MissingByte(m, e, v);
    }
  }

  lemma {:induction false} SingleIff(b: bytes, e: Dictionary, v: byte)
    requires IsRebuilt(b, e)
    ensures v in b[9216..] <==> [v] in e.tokenToCode
  {
    if v in b[9216..] {
      var i :| 0 <= i < 1024 && b[9216..][i] == v;
      SingleCell(b, e, 3072 + i);
      hide TokenAt, TierOf;
      assert TokenAt(e, 3072 + i) == [v];
    }
    if [v] in e.tokenToCode {
      var c := e.tokenToCode[[v]];
      assert |TokenAt(e, c)| == TierOf(c);
      SingleTier(c);
      SingleCell(b, e, c);
      hide TokenAt, TierOf;
      assert TokenAt(e, c) == [v] == [b[9216..][c - 3072]];
    }
  }

  lemma {:induction false} SingleTier(c: Code)
    ensures TierOf(c) == 1 <==> 3072 <= c
  {
  }

  lemma {:induction false} SingleCell(b: bytes, e: Dictionary, c: Code)
    requires IsRebuilt(b, e) && 3072 <= c
    ensures TokenAt(e, c) == [b[9216..][c - 3072]]
  {
    assert e.dictOffsets[c] == CanonicalOffset(c) == 9216 + (c - 3072) && e.dictLengths[c] == TierOf(c) == 1;
    assert e.dictBytes == b;
    hide IsRebuilt, TierOf, CanonicalOffset;
    assert TokenAt(e, c) == b[9216 + (c - 3072)..9216 + (c - 3072) + 1];
  }

  lemma {:induction false} MissingByte(m: TokenMap, e: Dictionary, v: byte)
    requires e.Shaped() && [v] !in m
    ensures Decoded(e, Encoded(m, [v])) == Ok([])
  {
    hide TokenAt, Encoded, Decoded;
    var data: bytes := [v];
    assert data[..1] == data;
    OneCode(m, e, data, 0);
  }

  // ----- serializeDictionary, deserializeDictionary -----

  const SERIALIZED_SIZE: nat := DICT_BYTES_SIZE + TOTAL_CODES * 2 + TOTAL_CODES

  function OffsetBytes(offsets: seq<u16>): (r: bytes)
    ensures |r| == 2 * |offsets|
    ensures forall i :: 0 <= i < |offsets| ==> r[2 * i] == offsets[i] / 256 && r[2 * i + 1] == offsets[i] % 256
  {
    if offsets == [] then []
    else
      var last := |offsets| - 1;
      OffsetBytes(offsets[..last]) + [offsets[last] / 256, offsets[last] % 256]
  }

  /** Token bytes, big-endian offsets, lengths. */
  function Serialized(d: Dictionary): (r: bytes)
    requires d.Shaped()
    ensures |r| == SERIALIZED_SIZE
  {
    d.dictBytes + OffsetBytes(d.dictOffsets) + d.dictLengths
  }

  /** Where each part of the serialized dictionary stands: offsets take two bytes, the high one first. */
  lemma {:induction false} SerializedAt(d: Dictionary, c: Code)
    requires d.Shaped()
    ensures |Serialized(d)| == 22528 && Serialized(d)[..10240] == d.dictBytes
    ensures var high: nat, low: nat := Serialized(d)[10240 + 2 * c], Serialized(d)[10241 + 2 * c];
      256 * high + low == d.dictOffsets[c]
    ensures Serialized(d)[18432 + c] == d.dictLengths[c]
  {
    var offsets, r := OffsetBytes(d.dictOffsets), Serialized(d);
    assert offsets[2 * c] == d.dictOffsets[c] / 256 && offsets[2 * c + 1] == d.dictOffsets[c] % 256;
    assert r[10240 + 2 * c] == offsets[2 * c] && r[10241 + 2 * c] == offsets[2 * c + 1];
  }

  lemma {:induction false} PairsAreOffsets(offsets: seq<u16>, b: bytes)
    requires |b| == 2 * |offsets|
    requires forall j :: 0 <= j < |offsets| ==> b[2 * j] == offsets[j] / 256 && b[2 * j + 1] == offsets[j] % 256
    ensures b == OffsetBytes(offsets)
  {
    var o := OffsetBytes(offsets);
    forall p | 0 <= p < |b| ensures b[p] == o[p] {
      var j := p / 2;
      assert o[2 * j] == offsets[j] / 256 && o[2 * j + 1] == offsets[j] % 256;
      assert p == 2 * j || p == 2 * j + 1;
    }
  }

  method SerializeDictionary(d: Dictionary) returns (r: bytes)
    requires d.Shaped()
    ensures r == Serialized(d)
  {
    var buf := new byte[SERIALIZED_SIZE](_ => 0);
    CopyInto(d.dictBytes, buf, 0);
    var i := 0;
    while i < TOTAL_CODES
      invariant 0 <= i <= TOTAL_CODES
      invariant buf[..DICT_BYTES_SIZE] == d.dictBytes
      invariant forall j :: 0 <= j < i ==>
        buf[DICT_BYTES_SIZE + 2 * j] == d.dictOffsets[j] / 256 && buf[DICT_BYTES_SIZE + 2 * j + 1] == d.dictOffsets[j] % 256
    {
      buf[DICT_BYTES_SIZE + 2 * i] := d.dictOffsets[i] / 256;
      buf[DICT_BYTES_SIZE + 2 * i + 1] := d.dictOffsets[i] % 256;
      i := i + 1;
    }
    ghost var before := buf[..];
    CopyInto(d.dictLengths, buf, DICT_BYTES_SIZE + 2 * TOTAL_CODES);
    r := buf[..];
    LengthsLast(d, before, r);
  }

  /** Token bytes and offsets are in place: the lengths complete them. */
  lemma {:induction false} LengthsLast(d: Dictionary, before: bytes, r: bytes)
    requires d.Shaped() && |before| == SERIALIZED_SIZE && before[..DICT_BYTES_SIZE] == d.dictBytes
    requires forall j :: 0 <= j < TOTAL_CODES ==>
      before[DICT_BYTES_SIZE + 2 * j] == d.dictOffsets[j] / 256 && before[DICT_BYTES_SIZE + 2 * j + 1] == d.dictOffsets[j] % 256
    requires var at := DICT_BYTES_SIZE + 2 * TOTAL_CODES; r == before[..at] + d.dictLengths + before[at + TOTAL_CODES..]
    ensures r == Serialized(d)
  {
    var middle := before[DICT_BYTES_SIZE..DICT_BYTES_SIZE + 2 * TOTAL_CODES];
    forall j | 0 <= j < TOTAL_CODES ensures middle[2 * j] == d.dictOffsets[j] / 256 && middle[2 * j + 1] == d.dictOffsets[j] % 256 {
    }
    PairsAreOffsets(d.dictOffsets, middle);
    hide OffsetBytes;
    assert before[..DICT_BYTES_SIZE + 2 * TOTAL_CODES] == d.dictBytes + middle;
    assert before[SERIALIZED_SIZE..] == [];
  }

  method CopyInto(src: bytes, buf: array<byte>, at: nat)
    requires at + |src| <= buf.Length
    modifies buf
    ensures buf[..] == old(buf[..at]) + src + old(buf[at + |src|..])
  {
    var i := 0;
    while i < |src|
      invariant 0 <= i <= |src|
      invariant forall k :: 0 <= k < buf.Length ==> buf[k] == if at <= k < at + i then src[k - at] else old(buf[k])
    {
      buf[at + i] := src[i];
      i := i + 1;
    }
    assert buf[..] == buf[..at] + buf[at..at + |src|] + buf[at + |src|..];
    assert buf[at..at + |src|] == src;
  }

  /** The parts of a serialized dictionary; the last code of each token wins and empty codes are skipped. */
  ghost predicate IsDeserialized(data: bytes, d: Dictionary) {
    && |data| >= SERIALIZED_SIZE && d.Shaped()
    && d.dictBytes == data[..DICT_BYTES_SIZE]
    && d.dictLengths == data[DICT_BYTES_SIZE + 2 * TOTAL_CODES..SERIALIZED_SIZE]
    && (forall c: Code ::
          d.dictOffsets[c] == U16(data[DICT_BYTES_SIZE + 2 * c], data[DICT_BYTES_SIZE + 2 * c + 1]))
    && (forall c: Code :: d.dictLengths[c] != 0 ==>
          TokenAt(d, c) in d.tokenToCode && d.tokenToCode[TokenAt(d, c)] >= c)
    && (forall t :: t in d.tokenToCode ==>
          d.dictLengths[d.tokenToCode[t]] != 0 && TokenAt(d, d.tokenToCode[t]) == t)
  }

  method DeserializeDictionary(data: bytes) returns (r: Result<Dictionary, LoadError>)
    ensures |data| < SERIALIZED_SIZE ==> r == Err(TooSmall)
    ensures |data| >= SERIALIZED_SIZE ==> r.Ok? && IsDeserialized(data, r.value)
  {
    if |data| < SERIALIZED_SIZE {
      return Err(TooSmall);
    }
    var dictBytes := data[..DICT_BYTES_SIZE];
    var dictLengths := data[DICT_BYTES_SIZE + 2 * TOTAL_CODES..SERIALIZED_SIZE];
    var dictOffsets := new u16[TOTAL_CODES](_ => 0);
    var i := 0;
    while i < TOTAL_CODES
      invariant 0 <= i <= TOTAL_CODES
      invariant forall c :: 0 <= c < i ==>
        dictOffsets[c] == U16(data[DICT_BYTES_SIZE + 2 * c], data[DICT_BYTES_SIZE + 2 * c + 1])
    {
      dictOffsets[i] := U16(data[DICT_BYTES_SIZE + 2 * i], data[DICT_BYTES_SIZE + 2 * i + 1]);
      i := i + 1;
    }
    var d := Dictionary(map[], dictBytes, dictOffsets[..], dictLengths);
    var m := LastCodes(d);
    d := d.(tokenToCode := m);
    return Ok(d);
  }

  function U16(hi: byte, lo: byte): u16 {
    hi * 256 + lo
  }

  method LastCodes(d: Dictionary) returns (m: TokenMap)
    requires d.Shaped()
    ensures forall c: Code :: d.dictLengths[c] != 0 ==> TokenAt(d, c) in m && m[TokenAt(d, c)] >= c
    ensures forall t :: t in m ==> d.dictLengths[m[t]] != 0 && TokenAt(d, m[t]) == t
  {
    hide Slice;
    m := map[];
    var code := 0;
    while code < TOTAL_CODES
      invariant 0 <= code <= TOTAL_CODES
      invariant forall c: Code :: c < code && d.dictLengths[c] != 0 ==> TokenAt(d, c) in m && m[TokenAt(d, c)] >= c
      invariant forall t :: t in m ==> m[t] < code && d.dictLengths[m[t]] != 0 && TokenAt(d, m[t]) == t
    {
      var len := d.dictLengths[code];
      if len != 0 {
        var key := Slice(d.dictBytes, d.dictOffsets[code], len);
        m := m[key := code];
      }
      code := code + 1;
    }
  }

  /** Serialize then deserialize is the identity on every trained dictionary, shifted or not. */
  lemma {:induction false} SerializeRoundTrip(ch: Chosen, d: Dictionary, e: Dictionary)
    requires Trained(ch, d) && IsDeserialized(Serialized(d), e)
    ensures e == d
  {
    hide Singles, Assigned, Tier, TierOf, Valid;
    SamePartsBack(d, e);
    forall c: Code ensures d.dictLengths[c] != 0 <==> Assigned(ch, c).Some? {
      assert Placed(ch, c, d.dictOffsets[c], d.dictLengths[c]);
      if Assigned(ch, c).Some? {
        AssignedIs(ch, c);
      }
    }
    forall c: Code | Assigned(ch, c).Some? ensures TokenAt(e, c) == Assigned(ch, c).value {
      LaidToken(ch, d, c);
      assert TokenAt(e, c) == TokenAt(d, c);
    }
    forall t | t in e.tokenToCode ensures t in d.tokenToCode && d.tokenToCode[t] == e.tokenToCode[t] {
      assert Assigned(ch, e.tokenToCode[t]) == Some(t);
    }
    forall t | t in d.tokenToCode ensures t in e.tokenToCode {
      assert Assigned(ch, d.tokenToCode[t]) == Some(t);
    }
    assert e.tokenToCode == d.tokenToCode;
  }

  lemma {:induction false} SamePartsBack(d: Dictionary, e: Dictionary)
    requires d.Shaped() && IsDeserialized(Serialized(d), e)
    ensures e.dictBytes == d.dictBytes && e.dictOffsets == d.dictOffsets && e.dictLengths == d.dictLengths
  {
    var o := OffsetBytes(d.dictOffsets);
    var r := Serialized(d);
    assert r[..DICT_BYTES_SIZE] == d.dictBytes;
    assert r[DICT_BYTES_SIZE + 2 * TOTAL_CODES..SERIALIZED_SIZE] == d.dictLengths;
    forall c: Code ensures e.dictOffsets[c] == d.dictOffsets[c] {
      assert r[DICT_BYTES_SIZE + 2 * c] == o[2 * c] && r[DICT_BYTES_SIZE + 2 * c + 1] == o[2 * c + 1];
    }
    assert forall i :: 0 <= i < TOTAL_CODES ==> e.dictOffsets[i] == d.dictOffsets[i];
  }
}
