// packages/bam-sdk/src/bpe.ts: training. Window counts in a corpus, the most frequent tokens of each
// length, and the code every token receives.
module BpeTraining {
  import opened Wrappers
  import opened Bytes
  import opened Sequences
  import opened Bpe

  const CODES_PER_TIER: nat := 1024
  const ZERO4: Token := [0, 0, 0, 0]

  // ----- countWindows -----

  /** An entry of a JavaScript Map from token to count; a Map keeps the order of first insertion. */
  datatype Counted = Counted(token: Token, count: nat)

  /** One more occurrence of a token; a token seen for the first time goes last. */
  function Bump(m: seq<Counted>, t: Token): seq<Counted> {
    if m == [] then [Counted(t, 1)]
    else if m[0].token == t then [Counted(t, m[0].count + 1)] + m[1..]
    else [m[0]] + Bump(m[1..], t)
  }

  function WindowCount(data: bytes, length: nat): nat {
    if |data| < length then 0 else |data| - length + 1
  }

  /** The map after the first `n` windows. */
  function Tally(data: bytes, length: nat, n: nat): seq<Counted>
    requires n <= WindowCount(data, length)
  {
    if n == 0 then [] else Bump(Tally(data, length, n - 1), data[n - 1..n - 1 + length])
  }

  function Occurrences(data: bytes, length: nat, n: nat, t: Token): nat
    requires n <= WindowCount(data, length)
  {
    if n == 0 then 0
    else Occurrences(data, length, n - 1, t) + if data[n - 1..n - 1 + length] == t then 1 else 0
  }

  method CountWindows(data: bytes) returns (counts: seq<seq<Counted>>)
    ensures |counts| == 3
    ensures forall length :: 2 <= length <= 4 ==>
              counts[length - 2] == Tally(data, length, WindowCount(data, length))
  {
    counts := [[], [], []];
    for length := 2 to 5
      invariant |counts| == 3
      invariant forall k :: 2 <= k < length ==> counts[k - 2] == Tally(data, k, WindowCount(data, k))
    {
      var m: seq<Counted> := [];
      var i := 0;
      while i <= |data| - length
        invariant 0 <= i <= WindowCount(data, length)
        invariant m == Tally(data, length, i)
      {
        m := Bump(m, data[i..i + length]);
        i := i + 1;
      }
      counts := counts[length - 2 := m];
    }
  }

  function Tokens(m: seq<Counted>): (r: seq<Token>)
    ensures |r| == |m|
    ensures forall i :: 0 <= i < |r| ==> r[i] == m[i].token
  {
    seq(|m|, i requires 0 <= i < |m| => m[i].token)
  }

  /** What the map records of a token: zero when it has no entry. */
  function CountIn(m: seq<Counted>, t: Token): nat {
    if m == [] then 0 else if m[0].token == t then m[0].count else CountIn(m[1..], t)
  }

  lemma {:induction false} BumpCounts(m: seq<Counted>, t: Token, u: Token)
    ensures CountIn(Bump(m, t), u) == CountIn(m, u) + if t == u then 1 else 0
  {
    if m != [] {
      var b := Bump(m, t);
      if m[0].token == t {
        assert b[1..] == m[1..];
      } else {
        assert b[0] == m[0] && b[1..] == Bump(m[1..], t);
        BumpCounts(m[1..], t, u);
      }
    }
  }

  lemma {:induction false} BumpTokens(m: seq<Counted>, t: Token)
    requires Distinct(Tokens(m))
    ensures Distinct(Tokens(Bump(m, t)))
    ensures Elements(Tokens(Bump(m, t))) == Elements(Tokens(m)) + {t}
  {
    if m == [] {
      assert Tokens(Bump(m, t)) == [t];
    } else {
      var r, b := m[1..], Bump(m, t);
      assert Tokens(m) == [m[0].token] + Tokens(r);
      DistinctAppend([m[0].token], Tokens(r));
      if m[0].token == t {
        assert Tokens(b) == Tokens(m);
      } else {
        BumpTokens(r, t);
        assert Tokens(b) == [m[0].token] + Tokens(Bump(r, t));
        assert Elements([m[0].token]) == {m[0].token};
        assert Elements(Tokens(b)) == {m[0].token} + Elements(Tokens(Bump(r, t)));
        assert Elements(Tokens(m)) == {m[0].token} + Elements(Tokens(r));
        DistinctAppend([m[0].token], Tokens(Bump(r, t)));
      }
    }
  }

  /** The tally holds each window of the corpus once, with the number of its occurrences. */
  lemma {:induction false} TallyIsCount(data: bytes, length: nat, n: nat, t: Token)
    requires n <= WindowCount(data, length)
    ensures CountIn(Tally(data, length, n), t) == Occurrences(data, length, n, t)
    ensures Distinct(Tokens(Tally(data, length, n)))
    ensures t in Tokens(Tally(data, length, n)) ==> |t| == length
    ensures t in Tokens(Tally(data, length, n)) <==> Occurrences(data, length, n, t) > 0
  {
    if n > 0 {
      var w := data[n - 1..n - 1 + length];
      TallyIsCount(data, length, n - 1, t);
      BumpCounts(Tally(data, length, n - 1), w, t);
      BumpTokens(Tally(data, length, n - 1), w);
      assert t in Tokens(Tally(data, length, n)) <==> t in Elements(Tokens(Tally(data, length, n)));
      assert t in Tokens(Tally(data, length, n - 1)) <==> t in Elements(Tokens(Tally(data, length, n - 1)));
    }
  }

  // ----- the most frequent windows -----

  /** Stable insertion: after every entry that is at least as frequent. */
  function Insert(s: seq<Counted>, e: Counted): seq<Counted> {
    if s == [] || s[0].count < e.count then [e] + s else [s[0]] + Insert(s[1..], e)
  }

  function ByCount(m: seq<Counted>): seq<Counted> {
    if m == [] then [] else Insert(ByCount(m[..|m| - 1]), m[|m| - 1])
  }

  ghost predicate Descending(s: seq<Counted>) {
    forall i, j :: 0 <= i < j < |s| ==> s[i].count >= s[j].count
  }

  lemma {:induction false} InsertElements(s: seq<Counted>, e: Counted)
    ensures Elements(Insert(s, e)) == Elements(s) + {e}
    ensures Elements(Tokens(Insert(s, e))) == Elements(Tokens(s)) + {e.token}
  {
    if s == [] || s[0].count < e.count {
      PrependElements(e, s);
    } else {
      InsertElements(s[1..], e);
      assert s == [s[0]] + s[1..];
      PrependElements(s[0], s[1..]);
      PrependElements(s[0], Insert(s[1..], e));
      hide Elements, Tokens;
    }
  }

  lemma {:induction false} PrependElements(e: Counted, s: seq<Counted>)
    ensures Elements([e] + s) == {e} + Elements(s)
    ensures Elements(Tokens([e] + s)) == {e.token} + Elements(Tokens(s))
  {
    assert Tokens([e] + s) == [e.token] + Tokens(s);
  }

  lemma {:induction false} InsertSorts(s: seq<Counted>, e: Counted)
    requires Descending(s)
    ensures Descending(Insert(s, e))
  {
    if s != [] && s[0].count >= e.count {
      var r := Insert(s[1..], e);
      InsertSorts(s[1..], e);
      InsertElements(s[1..], e);
      forall j | 0 <= j < |r| ensures r[j].count <= s[0].count {
        assert r[j] in Elements(r);
        if r[j] != e {
          assert r[j] in s[1..];
        }
      }
    }
  }

  lemma {:induction false} InsertDistinct(s: seq<Counted>, e: Counted)
    requires Distinct(Tokens(s)) && e.token !in Tokens(s)
    ensures Distinct(Tokens(Insert(s, e)))
  {
    var r := Insert(s, e);
    if s == [] || s[0].count < e.count {
      assert Tokens(r) == [e.token] + Tokens(s);
      DistinctAppend([e.token], Tokens(s));
    } else {
      assert Tokens(s) == [s[0].token] + Tokens(s[1..]);
      DistinctAppend([s[0].token], Tokens(s[1..]));
      assert s[0].token in Elements([s[0].token]);
      InsertDistinct(s[1..], e);
      InsertElements(s[1..], e);
      assert Tokens(r) == [s[0].token] + Tokens(Insert(s[1..], e));
      assert e.token != s[0].token by { assert Tokens(s)[0] == s[0].token; }
      DistinctAppend([s[0].token], Tokens(Insert(s[1..], e)));
    }
  }

  lemma {:induction false} ByCountSorts(m: seq<Counted>)
    ensures Descending(ByCount(m)) && Elements(ByCount(m)) == Elements(m)
    ensures Elements(Tokens(ByCount(m))) == Elements(Tokens(m))
    ensures Distinct(Tokens(m)) ==> Distinct(Tokens(ByCount(m)))
  {
    if m != [] {
      var r, e := m[..|m| - 1], m[|m| - 1];
      assert m == r + [e] && Tokens(m) == Tokens(r) + [e.token];
      DistinctAppend(Tokens(r), [e.token]);
      assert e.token in Elements([e.token]);
      ByCountSorts(r);
      InsertSorts(ByCount(r), e);
      InsertElements(ByCount(r), e);
      assert Elements(m) == Elements(r) + {e} && Elements(Tokens(m)) == Elements(Tokens(r)) + {e.token};
      if Distinct(Tokens(m)) {
        assert e.token !in Elements(Tokens(ByCount(r)));
        InsertDistinct(ByCount(r), e);
      }
    }
  }

  /** The `n` most frequent tokens. */
  function Top(m: seq<Counted>, n: nat): (r: seq<Token>)
    ensures |r| <= n
  {
    var s := Tokens(ByCount(m));
    if |s| <= n then s else s[..n]
  }

  /** A tier's choice: distinct windows of the corpus. */
  lemma {:induction false} TopIsFromCorpus(data: bytes, length: nat, n: nat)
    ensures var m := Tally(data, length, WindowCount(data, length));
      && Distinct(Top(m, n))
      && (forall t :: t in Top(m, n) ==> |t| == length && Occurrences(data, length, WindowCount(data, length), t) > 0)
  {
    var k := WindowCount(data, length);
    var m := Tally(data, length, k);
    ByCountSorts(m);
    TallyIsCount(data, length, k, []);
    forall t | t in Top(m, n) ensures |t| == length && Occurrences(data, length, k, t) > 0 {
      assert t in Elements(Tokens(ByCount(m)));
      assert t in Tokens(m);
      TallyIsCount(data, length, k, t);
    }
  }

  /** A window left out of its tier is no more frequent than any window chosen. */
  lemma {:induction false} LeftOutIsRarer(data: bytes, length: nat, n: nat, t: Token, u: Token)
    requires var m := Tally(data, length, WindowCount(data, length));
      t in Top(m, n) && u !in Top(m, n)
    ensures var k := WindowCount(data, length);
      Occurrences(data, length, k, t) >= Occurrences(data, length, k, u)
  {
    var k := WindowCount(data, length);
    var m := Tally(data, length, k);
    var s := ByCount(m);
    ByCountSorts(m);
    TallyIsCount(data, length, k, t);
    TallyIsCount(data, length, k, u);
    if u in Tokens(m) {
      var i :| 0 <= i < |Top(m, n)| && Top(m, n)[i] == t;
      assert u in Elements(Tokens(m)) && u in Tokens(s);
      var j :| 0 <= j < |s| && s[j].token == u;
      assert forall x :: 0 <= x < |Top(m, n)| ==> Top(m, n)[x] == s[x].token;
      assert s[i].count >= s[j].count;
      assert s[i] in Elements(m) && s[j] in Elements(m);
      EntryCount(m, s[i]);
      EntryCount(m, s[j]);
    }
  }

  lemma {:induction false} EntryCount(m: seq<Counted>, e: Counted)
    requires Distinct(Tokens(m)) && e in m
    ensures CountIn(m, e.token) == e.count
  {
    if m[0] != e {
      assert Tokens(m) == [m[0].token] + Tokens(m[1..]);
      DistinctAppend([m[0].token], Tokens(m[1..]));
      var i :| 0 <= i < |m| && m[i] == e;
      assert Tokens(m)[0] == m[0].token && Tokens(m)[i] == e.token;
      assert m[1..][i - 1] == e;
      EntryCount(m[1..], e);
    }
  }

  // ----- topTokens -----

  /** The tokens chosen for the 4-, 3- and 2-byte tiers. */
  datatype Chosen = Chosen(t4: seq<Token>, t3: seq<Token>, t2: seq<Token>)

  ghost predicate ValidTier(s: seq<Token>, length: nat, n: nat) {
    |s| <= n && Distinct(s) && forall t :: t in s ==> |t| == length
  }

  ghost predicate Valid(ch: Chosen) {
    ValidTier(ch.t4, 4, CODES_PER_TIER - 1) && ValidTier(ch.t3, 3, CODES_PER_TIER) && ValidTier(ch.t2, 2, CODES_PER_TIER)
  }

  function ChosenFrom(data: bytes): Chosen {
    Chosen(Top(Tally(data, 4, WindowCount(data, 4)), CODES_PER_TIER - 1),
           Top(Tally(data, 3, WindowCount(data, 3)), CODES_PER_TIER),
           Top(Tally(data, 2, WindowCount(data, 2)), CODES_PER_TIER))
  }

  lemma {:induction false} ChosenFromIsValid(data: bytes)
    ensures Valid(ChosenFrom(data))
  {
    TopIsFromCorpus(data, 4, CODES_PER_TIER - 1);
    TopIsFromCorpus(data, 3, CODES_PER_TIER);
    TopIsFromCorpus(data, 2, CODES_PER_TIER);
  }

  function Singles(n: nat): (r: seq<Token>)
    requires n <= 256
    ensures |r| == n && forall i :: 0 <= i < n ==> r[i] == [i]
  {
    if n == 0 then [] else Singles(n - 1) + [[n - 1]]
  }

  /** The tokens of a length in code order. Choosing the zero quad overwrites its padding code 0. */
  function Tier(ch: Chosen, length: nat): seq<Token>
    requires 1 <= length <= 4
  {
    if length == 4 then (if ZERO4 in ch.t4 then ch.t4 else [ZERO4] + ch.t4)
    else if length == 3 then ch.t3
    else if length == 2 then ch.t2
    else Singles(256)
  }

  function CodeBase(length: nat): nat
    requires 1 <= length <= 4
  {
    (4 - length) * CODES_PER_TIER
  }

  /** The first code of the tier that has a token. */
  function FirstCode(ch: Chosen, length: nat): nat
    requires 1 <= length <= 4
  {
    CodeBase(length) + if length == 4 && ZERO4 in ch.t4 then 1 else 0
  }

  function TierOf(c: Code): (length: nat)
    ensures 1 <= length <= 4 && CodeBase(length) <= c < CodeBase(length) + CODES_PER_TIER
  {
    4 - c / CODES_PER_TIER
  }

  function Assigned(ch: Chosen, c: Code): Option<Token> {
    var length := TierOf(c);
    var k := c - FirstCode(ch, length);
    if 0 <= k < |Tier(ch, length)| then Some(Tier(ch, length)[k]) else None
  }

  /** `m` maps exactly the assigned tokens, each to its code. */
  ghost predicate IsTrained(ch: Chosen, m: TokenMap) {
    && (forall t :: t in m ==> Assigned(ch, m[t]) == Some(t))
    && (forall c: Code :: Assigned(ch, c).Some? ==> Assigned(ch, c).value in m && m[Assigned(ch, c).value] == c)
  }

  lemma {:induction false} TierShape(ch: Chosen, length: nat)
    requires Valid(ch) && 1 <= length <= 4
    ensures ValidTier(Tier(ch, length), length, CODES_PER_TIER)
    ensures FirstCode(ch, length) + |Tier(ch, length)| <= CodeBase(length) + CODES_PER_TIER
  {
    hide Singles, Distinct;
    if length == 4 && ZERO4 !in ch.t4 {
      QuadsWithPadding(ch);
    } else if length == 1 {
      SinglesAreDistinct();
    }
  }

  lemma {:induction false} QuadsWithPadding(ch: Chosen)
    requires ValidTier(ch.t4, 4, CODES_PER_TIER - 1) && ZERO4 !in ch.t4
    ensures ValidTier([ZERO4] + ch.t4, 4, CODES_PER_TIER)
  {
    DistinctAppend([ZERO4], ch.t4);
    assert Elements([ZERO4]) == {ZERO4};
    assert ZERO4 !in Elements(ch.t4);
  }

  lemma {:induction false} SinglesAreDistinct()
    ensures Distinct(Singles(256))
  {
    var s := Singles(256);
    forall i, j | 0 <= i < j < |s| ensures s[i] != s[j] {
      assert s[i][0] == i && s[j][0] == j;
    }
  }

  lemma {:induction false} CodeOfTier(ch: Chosen, length: nat, k: nat)
    requires Valid(ch) && 1 <= length <= 4 && k < |Tier(ch, length)|
    ensures FirstCode(ch, length) + k < TOTAL_CODES && TierOf(FirstCode(ch, length) + k) == length
    ensures Assigned(ch, FirstCode(ch, length) + k) == Some(Tier(ch, length)[k])
  {
    hide Singles, Valid, ValidTier, Tier;
    TierShape(ch, length);
    CodeBaseTier(length, FirstCode(ch, length) + k - CodeBase(length));
  }

  lemma {:induction false} CodeBaseTier(length: nat, k: nat)
    requires 1 <= length <= 4 && k < CODES_PER_TIER
    ensures CodeBase(length) + k < TOTAL_CODES && TierOf(CodeBase(length) + k) == length
  {
  }

  lemma {:induction false} AssignedIs(ch: Chosen, c: Code)
    requires Valid(ch) && Assigned(ch, c).Some?
    ensures FirstCode(ch, TierOf(c)) <= c < FirstCode(ch, TierOf(c)) + |Tier(ch, TierOf(c))|
    ensures Assigned(ch, c).value == Tier(ch, TierOf(c))[c - FirstCode(ch, TierOf(c))]
    ensures |Assigned(ch, c).value| == TierOf(c)
  {
    hide Singles, Valid, Tier;
    TierShape(ch, TierOf(c));
  }

  /** The tokens take consecutive codes from `base` on; one that has a code already loses it to the later one. */
  function AssignAll(m: TokenMap, tokens: seq<Token>, base: nat): TokenMap
    requires base + |tokens| <= TOTAL_CODES
    decreases |tokens|
  {
    if tokens == [] then m
    else
      var last := |tokens| - 1;
      AssignAll(m, tokens[..last], base)[tokens[last] := base + last]
  }

  lemma {:induction false} AssignAllMaps(m: TokenMap, tokens: seq<Token>, base: nat)
    requires base + |tokens| <= TOTAL_CODES && Distinct(tokens)
    ensures var r := AssignAll(m, tokens, base);
      && (forall i :: 0 <= i < |tokens| ==> tokens[i] in r && r[tokens[i]] == base + i)
      && (forall t :: t in r ==> t in tokens || (t in m && r[t] == m[t]))
      && (forall t :: t in m && t !in tokens ==> t in r && r[t] == m[t])
    decreases |tokens|
  {
    if tokens != [] {
      var last := |tokens| - 1;
      AssignAllMaps(m, tokens[..last], base);
      forall i | 0 <= i < last ensures tokens[i] != tokens[last] && tokens[..last][i] == tokens[i] {}
      assert tokens == tokens[..last] + [tokens[last]];
    }
  }

  method SetAll(m: TokenMap, tokens: seq<Token>, base: nat) returns (r: TokenMap)
    requires base + |tokens| <= TOTAL_CODES
    ensures r == AssignAll(m, tokens, base)
  {
    r := m;
    var code, i := base, 0;
    while i < |tokens|
      invariant 0 <= i <= |tokens| && code == base + i
      invariant r == AssignAll(m, tokens[..i], base)
    {
      assert tokens[..i + 1][..i] == tokens[..i];
      r := r[tokens[i] := code];
      code := code + 1;
      i := i + 1;
    }
    assert tokens[..i] == tokens;
  }

  function TrainedMap(ch: Chosen): TokenMap
    requires |ch.t4| < CODES_PER_TIER && |ch.t3| <= CODES_PER_TIER && |ch.t2| <= CODES_PER_TIER
  {
    var m4 := AssignAll(map[ZERO4 := 0], ch.t4, 1);
    var m3 := AssignAll(m4, ch.t3, CODES_PER_TIER);
    var m2 := AssignAll(m3, ch.t2, 2 * CODES_PER_TIER);
    AssignAll(m2, Singles(256), 3 * CODES_PER_TIER)
  }

  /** What the three maps, of two-, three- and four-byte windows, choose for their tiers. */
  function ChosenIn(counts: seq<seq<Counted>>): Chosen
    requires |counts| == 3
  {
    Chosen(Top(counts[2], CODES_PER_TIER - 1), Top(counts[1], CODES_PER_TIER), Top(counts[0], CODES_PER_TIER))
  }

  method TopTokens(counts: seq<seq<Counted>>) returns (m: TokenMap)
    requires |counts| == 3
    ensures m == TrainedMap(ChosenIn(counts))
  {
    m := map[ZERO4 := 0];
    var top4 := Top(counts[2], CODES_PER_TIER - 1);
    m := SetAll(m, top4, 1);
    var top3 := Top(counts[1], CODES_PER_TIER);
    m := SetAll(m, top3, CODES_PER_TIER);
    var top2 := Top(counts[0], CODES_PER_TIER);
    m := SetAll(m, top2, 2 * CODES_PER_TIER);
    m := SetAll(m, Singles(256), 3 * CODES_PER_TIER);
  }

  /** `m` is complete for the tiers longer than `n` and empty for the others. */
  ghost predicate TrainedAbove(ch: Chosen, m: TokenMap, n: nat) {
    && (forall t :: t in m ==> |t| > n && Assigned(ch, m[t]) == Some(t))
    && (forall c: Code :: TierOf(c) > n && Assigned(ch, c).Some? ==>
          Assigned(ch, c).value in m && m[Assigned(ch, c).value] == c)
  }

  lemma {:induction false} QuadsAssigned(ch: Chosen)
    requires Valid(ch)
    ensures TrainedAbove(ch, AssignAll(map[ZERO4 := 0], ch.t4, 1), 3)
  {
    hide AssignAll, Singles, Distinct, TierOf, Assigned;
    var m := AssignAll(map[ZERO4 := 0], ch.t4, 1);
    AssignAllMaps(map[ZERO4 := 0], ch.t4, 1);
    var shift := if ZERO4 in ch.t4 then 0 else 1;
    forall t | t in m ensures |t| > 3 && Assigned(ch, m[t]) == Some(t) {
      if t in ch.t4 {
        var i :| 0 <= i < |ch.t4| && ch.t4[i] == t;
        CodeOfTier(ch, 4, i + shift);
      } else {
        CodeOfTier(ch, 4, 0);
      }
    }
    forall c: Code | TierOf(c) > 3 && Assigned(ch, c).Some?
      ensures Assigned(ch, c).value in m && m[Assigned(ch, c).value] == c
    {
      QuadMapped(ch, c);
    }
  }

  lemma {:induction false} QuadMapped(ch: Chosen, c: Code)
    requires Valid(ch) && TierOf(c) > 3 && Assigned(ch, c).Some?
    ensures var m := AssignAll(map[ZERO4 := 0], ch.t4, 1); Assigned(ch, c).value in m && m[Assigned(ch, c).value] == c
  {
    hide AssignAll, Singles, Distinct, TierOf, Assigned;
    AssignAllMaps(map[ZERO4 := 0], ch.t4, 1);
    AssignedIs(ch, c);
    if c > 0 {
      assert Assigned(ch, c).value == ch.t4[c - 1];
    }
  }

  lemma {:induction false} TierAssigned(ch: Chosen, m: TokenMap, length: nat)
    requires Valid(ch) && 1 <= length <= 3 && TrainedAbove(ch, m, length)
    requires |Tier(ch, length)| <= CODES_PER_TIER
    ensures TrainedAbove(ch, AssignAll(m, Tier(ch, length), CodeBase(length)), length - 1)
  {
    hide AssignAll, Singles, TierOf, Assigned, Tier, Valid;
    TierShape(ch, length);
    var tier, base := Tier(ch, length), CodeBase(length);
    var r := AssignAll(m, tier, base);
    AssignAllMaps(m, tier, base);
    forall t | t in r ensures |t| > length - 1 && Assigned(ch, r[t]) == Some(t) {
      if t in tier {
        var i :| 0 <= i < |tier| && tier[i] == t;
        CodeOfTier(ch, length, i);
      }
    }
    forall c: Code | TierOf(c) > length - 1 && Assigned(ch, c).Some?
      ensures Assigned(ch, c).value in r && r[Assigned(ch, c).value] == c
    {
      AssignedIs(ch, c);
    }
  }

  /** The built map is the one the code layout describes. */
  lemma {:induction false} TrainedMapIsTrained(ch: Chosen)
    requires Valid(ch)
    ensures IsTrained(ch, TrainedMap(ch))
  {
    hide AssignAll, Singles, Assigned;
    TierShape(ch, 1);
    var m4 := AssignAll(map[ZERO4 := 0], ch.t4, 1);
    var m3 := AssignAll(m4, Tier(ch, 3), CODES_PER_TIER);
    var m2 := AssignAll(m3, Tier(ch, 2), 2 * CODES_PER_TIER);
    QuadsAssigned(ch);
    TierAssigned(ch, m4, 3);
    TierAssigned(ch, m3, 2);
    TierAssigned(ch, m2, 1);
    assert TrainedMap(ch) == AssignAll(m2, Tier(ch, 1), 3 * CODES_PER_TIER);
  }
}
