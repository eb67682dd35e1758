// Which windows of a corpus get which codes: by falling number of occurrences, and by first appearance among equals.
module BpeOrder {
  import opened Wrappers
  import opened Bytes
  import opened Sequences
  import opened Bpe
  import opened BpeTraining
  import opened BpeLayout
  import opened BpeTheorems

  // ----- the map keeps the order of first appearance -----

  predicate WindowIs(data: bytes, length: nat, p: nat, t: Token) {
    p + length <= |data| && data[p..p + length] == t
  }

  /** Among the first `n` windows, `t` appears at a moment when `u` has not. */
  ghost predicate SeenFirst(data: bytes, length: nat, n: nat, t: Token, u: Token) {
    exists p: nat :: p < n && WindowIs(data, length, p, t) && forall q: nat :: q <= p ==> !WindowIs(data, length, q, u)
  }

  lemma {:induction false} BumpOrder(m: seq<Counted>, t: Token)
    ensures Tokens(Bump(m, t)) == if t in Tokens(m) then Tokens(m) else Tokens(m) + [t]
    decreases |m|
  {
    if m != [] {
      var head, r := m[0], m[1..];
      BumpOrder(r, t);
      assert m == [head] + r;
      TokensOf(head, r);
      TokensOf(head, Bump(r, t));
      TokensOf(Counted(t, head.count + 1), r);
      hide Tokens;
    }
  }

  lemma {:induction false} TokensOf(e: Counted, m: seq<Counted>)
    ensures Tokens([e] + m) == [e.token] + Tokens(m)
  {
  }

  lemma {:induction false} OccursSomewhere(data: bytes, length: nat, n: nat, t: Token)
    requires n <= WindowCount(data, length)
    ensures Occurrences(data, length, n, t) > 0 <==> exists q: nat :: q < n && WindowIs(data, length, q, t)
  {
    if n > 0 {
      OccursSomewhere(data, length, n - 1, t);
      assert WindowIs(data, length, n - 1, t) <==> data[n - 1..n - 1 + length] == t;
      if q: nat :| q < n && WindowIs(data, length, q, t) {
        assert q < n - 1 || q == n - 1;
      }
    }
  }

  lemma {:induction false} TallyStep(data: bytes, length: nat, n: nat)
    requires 0 < n <= WindowCount(data, length)
    ensures var before, w := Tokens(Tally(data, length, n - 1)), data[n - 1..n - 1 + length];
      Tokens(Tally(data, length, n)) == if w in before then before else before + [w]
  {
    BumpOrder(Tally(data, length, n - 1), data[n - 1..n - 1 + length]);
  }

  lemma {:induction false} TallyInOrder(data: bytes, length: nat, n: nat, x: nat, y: nat)
    requires n <= WindowCount(data, length) && x < y < |Tokens(Tally(data, length, n))|
    ensures SeenFirst(data, length, n, Tokens(Tally(data, length, n))[x], Tokens(Tally(data, length, n))[y])
  {
    if n > 0 {
      TallyStep(data, length, n);
      var before := Tokens(Tally(data, length, n - 1));
      hide Tally, Tokens, WindowIs;
      if y < |before| {
        TallyInOrder(data, length, n - 1, x, y);
      } else {
        NewIsLast(data, length, n - 1, before[x], data[n - 1..n - 1 + length]);
      }
    }
  }

  /** A window that comes for the first time comes after those seen before. */
  lemma {:induction false} NewIsLast(data: bytes, length: nat, n: nat, t: Token, w: Token)
    requires n <= WindowCount(data, length)
    requires t in Tokens(Tally(data, length, n)) && w !in Tokens(Tally(data, length, n))
    ensures SeenFirst(data, length, n + 1, t, w)
  {
    TallyIsCount(data, length, n, t);
    TallyIsCount(data, length, n, w);
    OccursSomewhere(data, length, n, t);
    OccursSomewhere(data, length, n, w);
    hide Tally, Occurrences, WindowIs;
    var p: nat :| p < n && WindowIs(data, length, p, t);
  }

  // ----- the sort is stable -----

  /** `a` stands before `b`. */
  ghost predicate Precedes(m: seq<Counted>, a: Counted, b: Counted) {
    exists x, y :: 0 <= x < y < |m| && m[x] == a && m[y] == b
  }

  ghost predicate Stable(m: seq<Counted>, s: seq<Counted>) {
    forall i, j :: 0 <= i < j < |s| ==> s[i].count > s[j].count || (s[i].count == s[j].count && Precedes(m, s[i], s[j]))
  }

  lemma {:induction false} InsertAt(s: seq<Counted>, e: Counted) returns (p: nat)
    requires Descending(s)
    ensures p <= |s| && Insert(s, e) == s[..p] + [e] + s[p..]
    ensures (forall i :: 0 <= i < p ==> s[i].count >= e.count) && (forall i :: p <= i < |s| ==> s[i].count < e.count)
  {
    if s == [] || s[0].count < e.count {
      p := 0;
    } else {
      var q := InsertAt(s[1..], e);
      p := q + 1;
      assert s[..p] == [s[0]] + s[1..][..q] && s[p..] == s[1..][q..];
    }
  }

  lemma {:induction false} PrecedesMore(m: seq<Counted>, e: Counted, a: Counted, b: Counted)
    ensures Precedes(m, a, b) ==> Precedes(m + [e], a, b)
    ensures a in m ==> Precedes(m + [e], a, e)
  {
    if Precedes(m, a, b) {
      var x, y :| 0 <= x < y < |m| && m[x] == a && m[y] == b;
      assert (m + [e])[x] == a && (m + [e])[y] == b;
    }
    if a in m {
      var x :| 0 <= x < |m| && m[x] == a;
      assert (m + [e])[x] == a && (m + [e])[|m|] == e;
    }
  }

  lemma {:induction false} InsertStable(m: seq<Counted>, s: seq<Counted>, e: Counted)
    requires Descending(s) && Stable(m, s) && forall a :: a in s ==> a in m
    ensures Stable(m + [e], Insert(s, e))
  {
    var r := Insert(s, e);
    var p := InsertAt(s, e);
    hide Insert, Precedes, Descending;
    forall i, j | 0 <= i < j < |r|
      ensures r[i].count > r[j].count || (r[i].count == r[j].count && Precedes(m + [e], r[i], r[j]))
    {
      PrecedesMore(m, e, r[i], r[j]);
    }
  }

  lemma {:induction false} ByCountStable(m: seq<Counted>)
    ensures Stable(m, ByCount(m))
    decreases |m|
  {
    if m != [] {
      var r, e := m[..|m| - 1], m[|m| - 1];
      ByCountStable(r);
      ByCountSorts(r);
      assert forall a :: a in ByCount(r) ==> a in Elements(ByCount(r));
      hide Stable;
      InsertStable(r, ByCount(r), e);
      assert m == r + [e];
    }
  }

  // ----- ranks -----

  /** `t` is more frequent than `u` in the corpus, or as frequent and seen first. */
  ghost predicate Outranks(data: bytes, length: nat, t: Token, u: Token) {
    var k := WindowCount(data, length);
    || Occurrences(data, length, k, t) > Occurrences(data, length, k, u)
    || (Occurrences(data, length, k, t) == Occurrences(data, length, k, u) && SeenFirst(data, length, k, t, u))
  }

  lemma {:induction false} SortedOutranks(data: bytes, length: nat, i: nat, j: nat)
    requires i < j < |ByCount(Tally(data, length, WindowCount(data, length)))|
    ensures var s := ByCount(Tally(data, length, WindowCount(data, length))); Outranks(data, length, s[i].token, s[j].token)
  {
    var k := WindowCount(data, length);
    var m := Tally(data, length, k);
    var s := ByCount(m);
    ByCountStable(m);
    ByCountSorts(m);
    assert s[i] in Elements(s) && s[j] in Elements(s);
    TallyIsCount(data, length, k, s[i].token);
    TallyIsCount(data, length, k, s[j].token);
    EntryCount(m, s[i]);
    EntryCount(m, s[j]);
    hide Tally, ByCount, Occurrences;
    if s[i].count == s[j].count {
      var x, y :| 0 <= x < y < |m| && m[x] == s[i] && m[y] == s[j];
      TallyInOrder(data, length, k, x, y);
    }
  }

  /** The tokens of a tier stand in order of rank, and outrank every other window of the corpus. */
  lemma {:induction false} TierIsRanked(data: bytes, length: nat, n: nat)
    ensures var top := Top(Tally(data, length, WindowCount(data, length)), n);
      && (forall i, j :: 0 <= i < j < |top| ==> Outranks(data, length, top[i], top[j]))
      && (forall t, u :: t in top && u !in top && Occurrences(data, length, WindowCount(data, length), u) > 0 ==>
            Outranks(data, length, t, u))
      && (|top| < n ==> forall u :: Occurrences(data, length, WindowCount(data, length), u) > 0 ==> u in top)
  {
    var k := WindowCount(data, length);
    var m := Tally(data, length, k);
    var s, top := ByCount(m), Top(m, n);
    ByCountSorts(m);
    hide Outranks, Tally, ByCount, Occurrences;
    forall i, j | 0 <= i < j < |top| ensures Outranks(data, length, top[i], top[j]) {
      SortedOutranks(data, length, i, j);
    }
    forall u | Occurrences(data, length, k, u) > 0 && u !in top
      ensures |top| == n && forall t :: t in top ==> Outranks(data, length, t, u)
    {
      TallyIsCount(data, length, k, u);
      assert u in Elements(Tokens(m)) && u in Tokens(s);
      var j :| 0 <= j < |s| && s[j].token == u;
      forall t | t in top ensures Outranks(data, length, t, u) {
        var i :| 0 <= i < |top| && top[i] == t;
        SortedOutranks(data, length, i, j);
      }
    }
  }

  // ----- codes and cells -----

  /** In a trained dictionary the quads have codes 1, 2, … in order of rank, the triples 1024, …, the pairs 2048, …, the
      bytes 3072, …; the padding quad has code 0 unless it was chosen; nothing else has a code. */
  lemma {:induction false} RankGivesCode(ch: Chosen, d: Dictionary)
    requires Trained(ch, d)
    ensures forall i :: 0 <= i < |ch.t4| ==> ch.t4[i] in d.tokenToCode && d.tokenToCode[ch.t4[i]] == i + 1
    ensures forall i :: 0 <= i < |ch.t3| ==> ch.t3[i] in d.tokenToCode && d.tokenToCode[ch.t3[i]] == i + 1024
    ensures forall i :: 0 <= i < |ch.t2| ==> ch.t2[i] in d.tokenToCode && d.tokenToCode[ch.t2[i]] == i + 2048
    ensures forall b: byte :: [b] in d.tokenToCode && d.tokenToCode[[b]] == b + 3072
    ensures [0, 0, 0, 0] !in ch.t4 ==> [0, 0, 0, 0] in d.tokenToCode && d.tokenToCode[[0, 0, 0, 0]] == 0
    ensures forall t :: t in d.tokenToCode ==> t in ch.t4 || t in ch.t3 || t in ch.t2 || |t| == 1 || t == [0, 0, 0, 0]
  {
    hide Laid, Valid, Assigned, TierOf, Distinct, IsTrained, CodeBase;
    var m, shift := d.tokenToCode, if ZERO4 in ch.t4 then 0 else 1;
    Bases();
    forall i | 0 <= i < |ch.t4| ensures ch.t4[i] in m && m[ch.t4[i]] == i + 1 {
      RankedCode(ch, m, 4, i + shift);
    }
    forall i | 0 <= i < |ch.t3| ensures ch.t3[i] in m && m[ch.t3[i]] == i + 1024 {
      RankedCode(ch, m, 3, i);
    }
    forall i | 0 <= i < |ch.t2| ensures ch.t2[i] in m && m[ch.t2[i]] == i + 2048 {
      RankedCode(ch, m, 2, i);
    }
    forall b: byte ensures [b] in m && m[[b]] == b + 3072 {
      RankedCode(ch, m, 1, b);
    }
    if ZERO4 !in ch.t4 {
      RankedCode(ch, m, 4, 0);
    }
    forall t | t in m ensures t in ch.t4 || t in ch.t3 || t in ch.t2 || |t| == 1 || t == ZERO4 {
      CodedIsChosen(ch, m, t);
    }
  }

  lemma {:induction false} Bases()
    ensures CodeBase(4) == 0 && CodeBase(3) == 1024 && CodeBase(2) == 2048 && CodeBase(1) == 3072
  {
  }

  lemma {:induction false} RankedCode(ch: Chosen, m: TokenMap, length: nat, k: nat)
    requires Valid(ch) && IsTrained(ch, m) && 1 <= length <= 4 && k < |Tier(ch, length)|
    ensures Tier(ch, length)[k] in m && m[Tier(ch, length)[k]] == FirstCode(ch, length) + k
  {
    CodeOfTier(ch, length, k);
    hide Valid, Tier, FirstCode, Assigned, TierOf;
  }

  lemma {:induction false} CodedIsChosen(ch: Chosen, m: TokenMap, t: Token)
    requires Valid(ch) && IsTrained(ch, m) && t in m
    ensures t in ch.t4 || t in ch.t3 || t in ch.t2 || |t| == 1 || t == ZERO4
  {
    AssignedIs(ch, m[t]);
    hide Valid, Assigned, TierOf, FirstCode, Singles, Tier;
    TierMember(ch, TierOf(m[t]), t);
  }

  lemma {:induction false} TierMember(ch: Chosen, length: nat, t: Token)
    requires 1 <= length <= 4 && t in Tier(ch, length) && |t| == length
    ensures t in ch.t4 || t in ch.t3 || t in ch.t2 || |t| == 1 || t == ZERO4
  {
    hide Singles;
  }

  /** Where the cell of a code begins: packed from 0, 4096, 7168 and 9216, the quads after the padding unless the zero quad
      was chosen itself. */
  function CellStart(zeroChosen: bool, c: Code): int {
    if c < 1024 then 4 * (if zeroChosen then c - 1 else c)
    else if c < 2048 then 4096 + 3 * (c - 1024)
    else if c < 3072 then 7168 + 2 * (c - 2048)
    else 9216 + (c - 3072)
  }

  /** Every token of a trained dictionary stands in the cell of its code. */
  lemma {:induction false} TokenIsItsCell(ch: Chosen, d: Dictionary, t: Token)
    requires Trained(ch, d) && t in d.tokenToCode
    ensures d.Shaped()
    ensures var c := d.tokenToCode[t];
      var o := d.dictOffsets[c];
      && o == CellStart([0, 0, 0, 0] in ch.t4, c) && d.dictLengths[c] == |t|
      && o + |t| <= 10240 && d.dictBytes[o..o + |t|] == t
  {
    hide Trained, Valid, Laid, Assigned, OffsetOf, CellStart, TokenAt, Placed;
    var c := d.tokenToCode[t];
    CodeIsAssigned(ch, d, t);
    PlacedThere(ch, d, c);
    OffsetIs(ch, c);
    LaidToken(ch, d, c);
    ReadInside(d, c, t);
  }

  lemma {:induction false} ReadInside(d: Dictionary, c: Code, t: Token)
    requires d.Shaped() && TokenAt(d, c) == t
    ensures d.dictLengths[c] == |t|
    ensures d.dictOffsets[c] + |t| <= 10240 ==> d.dictBytes[d.dictOffsets[c]..d.dictOffsets[c] + |t|] == t
  {
  }

  lemma {:induction false} CodeIsAssigned(ch: Chosen, d: Dictionary, t: Token)
    requires Trained(ch, d) && t in d.tokenToCode
    ensures Valid(ch) && Laid(ch, d) && Assigned(ch, d.tokenToCode[t]) == Some(t)
  {
  }

  /** A code without a token has no cell. */
  lemma {:induction false} OtherCodesAreEmpty(ch: Chosen, d: Dictionary, c: Code)
    requires Trained(ch, d) && forall t :: t in d.tokenToCode ==> d.tokenToCode[t] != c
    ensures d.Shaped() && d.dictOffsets[c] == 0 && d.dictLengths[c] == 0
  {
    PlacedThere(ch, d, c);
    hide Laid, Valid, Assigned, OffsetOf;
  }

  lemma {:induction false} PlacedThere(ch: Chosen, d: Dictionary, c: Code)
    requires Trained(ch, d)
    ensures d.Shaped() && Placed(ch, c, d.dictOffsets[c], d.dictLengths[c])
    ensures Assigned(ch, c).Some? ==> d.dictOffsets[c] == OffsetOf(ch, c)
  {
    hide CellByte;
  }

  lemma {:induction false} TierRange(c: Code)
    ensures TierOf(c) == if c < 1024 then 4 else if c < 2048 then 3 else if c < 3072 then 2 else 1
  {
  }

  lemma {:induction false} OffsetIs(ch: Chosen, c: Code)
    requires Valid(ch) && Assigned(ch, c).Some?
    ensures OffsetOf(ch, c) == CellStart(ZERO4 in ch.t4, c)
    ensures 0 <= OffsetOf(ch, c) && OffsetOf(ch, c) + |Assigned(ch, c).value| <= 10240
  {
    AssignedIs(ch, c);
    TierRange(c);
    var length, k := TierOf(c), c - FirstCode(ch, TierOf(c));
    hide Valid, Singles, Tier, Assigned, TierOf;
    assert OffsetOf(ch, c) == TierStart(length) + length * k;
    if length == 4 {
      assert OffsetOf(ch, c) == 4 * k;
    } else if length == 3 {
      assert OffsetOf(ch, c) == 4096 + 3 * k;
    } else if length == 2 {
      assert OffsetOf(ch, c) == 7168 + 2 * k;
    } else {
      assert OffsetOf(ch, c) == 9216 + k;
    }
  }
}
