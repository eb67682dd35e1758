// apps/bam-indexer/src/pipeline.ts: the timeline as a function of the decoded tweets, whatever order they come in.
module Timeline {
  import opened Wrappers
  import opened Bytes
  import opened Text
  import opened Sequences

  datatype Coord = Coord(blockNumber: nat, txIndex: nat, messageIndex: nat)

  /** A decoded message body, its text as UTF-8 bytes. */
  datatype App = App(timestamp: nat, parent: Option<bytes>, content: bytes)

  datatype Tweet = Tweet(author: string, nonce: int, messageHash: string, app: App, coord: Coord, txHash: string)

  predicate AtMost(a: Coord, b: Coord) {
    a.blockNumber < b.blockNumber ||
    (a.blockNumber == b.blockNumber &&
     (a.txIndex < b.txIndex || (a.txIndex == b.txIndex && a.messageIndex <= b.messageIndex)))
  }

  /** The library's stable sort by chain coordinate: a tweet goes after those it ties with. */
  function Place(s: seq<Tweet>, t: Tweet): (r: seq<Tweet>)
    ensures multiset(r) == multiset(s) + multiset{t}
  {
    if s == [] || AtMost(s[|s| - 1].coord, t.coord) then s + [t]
    else
      assert s == s[..|s| - 1] + [s[|s| - 1]];
      Place(s[..|s| - 1], t) + [s[|s| - 1]]
  }

  function ChainSort(s: seq<Tweet>): (r: seq<Tweet>)
    ensures multiset(r) == multiset(s)
  {
    if s == [] then []
    else
      assert s == s[..|s| - 1] + [s[|s| - 1]];
      Place(ChainSort(s[..|s| - 1]), s[|s| - 1])
  }

  ghost predicate InChainOrder(s: seq<Tweet>) {
    forall i, j :: 0 <= i < j < |s| ==> AtMost(s[i].coord, s[j].coord)
  }

  function Key(t: Tweet): (string, int) {
    (ToLower(t.author), t.nonce)
  }

  predicate Seen(s: seq<Tweet>, key: (string, int)) {
    exists i :: 0 <= i < |s| && Key(s[i]) == key
  }

  /** The first tweet of every (author, nonce). */
  function Firsts(s: seq<Tweet>): seq<Tweet> {
    if s == [] then []
    else
      var init, last := s[..|s| - 1], s[|s| - 1];
      if Seen(init, Key(last)) then Firsts(init) else Firsts(init) + [last]
  }

  function Timeline(decoded: seq<Tweet>): seq<Tweet> {
    Firsts(ChainSort(decoded))
  }

  // ----- sorting -----

  lemma {:induction false} PlaceOrdered(s: seq<Tweet>, t: Tweet)
    requires InChainOrder(s)
    ensures InChainOrder(Place(s, t))
  {
    var n := |s| - 1;
    if s != [] && !AtMost(s[n].coord, t.coord) {
      PlaceOrdered(s[..n], t);
      var r := Place(s[..n], t);
      forall i | 0 <= i < |r| ensures AtMost(r[i].coord, s[n].coord) {
        assert r[i] in multiset(r);
        assert r[i] in s[..n] || r[i] == t;
      }
    }
  }

  lemma {:induction false} SortOrdered(s: seq<Tweet>)
    ensures InChainOrder(ChainSort(s))
  {
    if s != [] {
      SortOrdered(s[..|s| - 1]);
      PlaceOrdered(ChainSort(s[..|s| - 1]), s[|s| - 1]);
    }
  }

  ghost predicate DistinctCoords(s: seq<Tweet>) {
    forall i, j :: 0 <= i < j < |s| ==> s[i].coord != s[j].coord
  }

  lemma {:induction false} AtMostBoth(a: Coord, b: Coord)
    requires AtMost(a, b) && AtMost(b, a)
    ensures a == b
  {
  }

  lemma {:induction false} SameHead(a: seq<Tweet>, b: seq<Tweet>)
    requires InChainOrder(a) && InChainOrder(b) && DistinctCoords(a) && multiset(a) == multiset(b) && a != [] && b != []
    ensures a[0] == b[0]
  {
    hide AtMost;
    assert a[0] in multiset(a) && b[0] in multiset(b);
    assert a[0] in multiset(b) && b[0] in multiset(a);
    var i :| 0 <= i < |b| && b[i] == a[0];
    var j :| 0 <= j < |a| && a[j] == b[0];
    if i > 0 && j > 0 {
      AtMostBoth(a[0].coord, b[0].coord);
    }
  }

  /** Two chain-ordered lists of the same tweets, no two at one coordinate, are the same list. */
  lemma {:induction false} OrderedUnique(a: seq<Tweet>, b: seq<Tweet>)
    requires InChainOrder(a) && InChainOrder(b) && DistinctCoords(a) && multiset(a) == multiset(b)
    ensures a == b
    decreases |a|
  {
    assert |a| == |multiset(a)| == |multiset(b)| == |b|;
    if a != [] {
      SameHead(a, b);
      hide AtMost;
      assert a == [a[0]] + a[1..] && b == [b[0]] + b[1..];
      assert multiset(a[1..]) == multiset(a) - multiset{a[0]};
      assert multiset(b[1..]) == multiset(b) - multiset{b[0]};
      OrderedUnique(a[1..], b[1..]);
    }
  }

  // ----- what the timeline holds -----

  lemma {:induction false} FirstsFrom(s: seq<Tweet>, t: Tweet)
    requires t in Firsts(s)
    ensures t in s
  {
    var n := |s| - 1;
    assert s == s[..n] + [s[n]];
    if t in Firsts(s[..n]) {
      FirstsFrom(s[..n], t);
    }
  }

  lemma {:induction false} FirstsInOrder(s: seq<Tweet>)
    requires InChainOrder(s)
    ensures InChainOrder(Firsts(s))
  {
    if s != [] {
      var n := |s| - 1;
      var init, last, f := s[..n], s[n], Firsts(s[..n]);
      FirstsInOrder(init);
      hide AtMost;
      forall i | 0 <= i < |f| ensures AtMost(f[i].coord, last.coord) {
        FirstsFrom(init, f[i]);
      }
    }
  }

  lemma {:induction false} FirstsDiffer(s: seq<Tweet>)
    ensures forall i, j :: 0 <= i < j < |Firsts(s)| ==> Key(Firsts(s)[i]) != Key(Firsts(s)[j])
  {
    if s != [] {
      var n := |s| - 1;
      var init, last, f := s[..n], s[n], Firsts(s[..n]);
      FirstsDiffer(init);
      hide Key;
      forall i | 0 <= i < |f| && !Seen(init, Key(last)) ensures Key(f[i]) != Key(last) {
        FirstsFrom(init, f[i]);
      }
    }
  }

  lemma {:induction false} FirstsCover(s: seq<Tweet>, t: Tweet) returns (u: Tweet)
    requires InChainOrder(s) && t in s
    ensures u in Firsts(s) && Key(u) == Key(t) && AtMost(u.coord, t.coord)
  {
    hide Key;
    var n := |s| - 1;
    var init, last := s[..n], s[n];
    assert s == init + [last];
    if t in init {
      u := FirstsCover(init, t);
    } else if Seen(init, Key(last)) {
      var i :| 0 <= i < n && Key(init[i]) == Key(last);
      u := FirstsCover(init, init[i]);
      Through(u.coord, init[i].coord, last.coord);
    } else {
      u := last;
    }
  }

  lemma {:induction false} Through(a: Coord, b: Coord, c: Coord)
    requires AtMost(a, b) && AtMost(b, c)
    ensures AtMost(a, c)
  {
  }

  lemma {:induction false} InSorted(decoded: seq<Tweet>, t: Tweet)
    ensures t in ChainSort(decoded) <==> t in decoded
  {
    assert t in ChainSort(decoded) <==> t in multiset(ChainSort(decoded));
    assert t in decoded <==> t in multiset(decoded);
  }

  lemma {:induction false} KeptIsEarliest(decoded: seq<Tweet>, t: Tweet, u: Tweet)
    requires t in Timeline(decoded) && u in decoded && Key(t) == Key(u)
    ensures AtMost(t.coord, u.coord)
  {
    var s, r := ChainSort(decoded), Timeline(decoded);
    SortOrdered(decoded);
    FirstsDiffer(s);
    InSorted(decoded, u);
    hide ChainSort, InChainOrder, AtMost, Key;
    var v := FirstsCover(s, u);
    var i :| 0 <= i < |r| && r[i] == t;
    var j :| 0 <= j < |r| && r[j] == v;
    assert i == j;
  }

  /** The timeline is in chain order and holds, once for each (author, nonce), a tweet none precedes. */
  lemma {:induction false} TimelineKeepsEarliest(decoded: seq<Tweet>)
    ensures InChainOrder(Timeline(decoded))
    ensures forall t :: t in Timeline(decoded) ==> t in decoded
    ensures forall i, j :: 0 <= i < j < |Timeline(decoded)| ==> Key(Timeline(decoded)[i]) != Key(Timeline(decoded)[j])
    ensures forall t, u :: t in Timeline(decoded) && u in decoded && Key(t) == Key(u) ==> AtMost(t.coord, u.coord)
    ensures forall u :: u in decoded ==> Seen(Timeline(decoded), Key(u))
  {
    var s, r := ChainSort(decoded), Timeline(decoded);
    SortOrdered(decoded);
    FirstsInOrder(s);
    FirstsDiffer(s);
    hide ChainSort, Firsts, InChainOrder, AtMost, Key;
    forall t | t in r ensures t in decoded {
      FirstsFrom(s, t);
      InSorted(decoded, t);
    }
    forall u | u in decoded ensures Seen(r, Key(u)) {
      InSorted(decoded, u);
      var v := FirstsCover(s, u);
      var i :| 0 <= i < |r| && r[i] == v;
    }
    forall t, u | t in r && u in decoded && Key(t) == Key(u) ensures AtMost(t.coord, u.coord) {
      KeptIsEarliest(decoded, t, u);
    }
  }

  // ----- when the order of arrival matters -----

  /** A tweet of the same (author, nonce) stands strictly earlier, so the timeline does without `t`. */
  ghost predicate Beaten(s: seq<Tweet>, t: Tweet) {
    exists v :: v in s && Key(v) == Key(t) && !AtMost(t.coord, v.coord)
  }

  /** Of any two tweets at one coordinate one is beaten. */
  ghost predicate TiesSettled(s: seq<Tweet>) {
    forall t, u :: t in s && u in s && t.coord == u.coord && t != u ==> Beaten(s, t) || Beaten(s, u)
  }

  lemma {:induction false} TimelineIsUnbeaten(s: seq<Tweet>, t: Tweet)
    requires TiesSettled(s)
    ensures t in Timeline(s) <==> t in s && !Beaten(s, t)
  {
    TimelineKeepsEarliest(s);
    hide Timeline, Key, AtMost;
    if t in s && !Beaten(s, t) {
      var i :| 0 <= i < |Timeline(s)| && Key(Timeline(s)[i]) == Key(t);
      var v := Timeline(s)[i];
      AtMostBoth(v.coord, t.coord);
      assert !Beaten(s, v);
    }
  }

  lemma {:induction false} TimelineHasNoTies(s: seq<Tweet>)
    requires TiesSettled(s)
    ensures DistinctCoords(Timeline(s)) && Distinct(Timeline(s))
  {
    var r := Timeline(s);
    TimelineKeepsEarliest(s);
    hide Timeline, Key, AtMost, Beaten;
    forall i, j | 0 <= i < j < |r| ensures r[i].coord != r[j].coord && r[i] != r[j] {
      assert Key(r[i]) != Key(r[j]);
      TimelineIsUnbeaten(s, r[i]);
      TimelineIsUnbeaten(s, r[j]);
    }
  }

  lemma {:induction false} SettledTiesAreHarmless(a: seq<Tweet>, b: seq<Tweet>)
    requires multiset(a) == multiset(b) && TiesSettled(a)
    ensures Timeline(a) == Timeline(b)
  {
    SameMembers(a, b);
    assert forall t :: Beaten(a, t) <==> Beaten(b, t);
    hide Timeline, Key, AtMost, Beaten;
    forall t ensures t in Timeline(a) <==> t in Timeline(b) {
      TimelineIsUnbeaten(a, t);
      TimelineIsUnbeaten(b, t);
    }
    TimelineHasNoTies(a);
    TimelineHasNoTies(b);
    TimelineKeepsEarliest(a);
    TimelineKeepsEarliest(b);
    hide TiesSettled, InChainOrder;
    SameDistinct(Timeline(a), Timeline(b));
    OrderedUnique(Timeline(a), Timeline(b));
  }

  /** `t` stands at `i` and nothing before it has its coordinate. */
  ghost predicate Leads(s: seq<Tweet>, t: Tweet, i: nat) {
    i < |s| && s[i] == t && forall j :: 0 <= j < i ==> s[j].coord != t.coord
  }

  lemma {:induction false} PlaceLeads(s: seq<Tweet>, w: Tweet, t: Tweet, i: nat) returns (k: nat)
    requires Leads(s, t, i)
    ensures Leads(Place(s, w), t, k)
  {
    var n := |s| - 1;
    if AtMost(s[n].coord, w.coord) {
      k := i;
    } else if i < n {
      k := PlaceLeads(s[..n], w, t, i);
    } else {
      var r := Place(s[..n], w);
      assert |r| == |multiset(r)| == n + 1;
      k := n + 1;
      forall j | 0 <= j < k ensures Place(s, w)[j].coord != t.coord {
        assert r[j] in multiset(r);
        assert r[j] in s[..n] || r[j] == w;
      }
    }
  }

  /** What arrives first leads its coordinate. */
  lemma {:induction false} SortLeads(s: seq<Tweet>) returns (k: nat)
    requires s != []
    ensures Leads(ChainSort(s), s[0], k)
  {
    var n := |s| - 1;
    if n == 0 {
      assert s[..0] == [];
      assert ChainSort(s) == Place([], s[0]) == [s[0]];
      k := 0;
    } else {
      var i := SortLeads(s[..n]);
      k := PlaceLeads(ChainSort(s[..n]), s[n], s[0], i);
    }
  }

  lemma {:induction false} FirstsLead(s: seq<Tweet>, t: Tweet, i: nat) returns (k: nat)
    requires InChainOrder(s) && Leads(s, t, i) && !Beaten(s, t)
    ensures Leads(Firsts(s), t, k)
  {
    var n := |s| - 1;
    var init, last, f := s[..n], s[n], Firsts(s[..n]);
    assert s == init + [last];
    if i < n {
      assert !Beaten(init, t);
      k := FirstsLead(init, t, i);
    } else {
      forall j | 0 <= j < n ensures Key(init[j]) != Key(t) {
        assert s[j] in s && AtMost(s[j].coord, t.coord) && s[j].coord != t.coord;
        assert !AtMost(t.coord, s[j].coord);
      }
      k := |f|;
      forall j | 0 <= j < k ensures f[j].coord != t.coord {
        FirstsFrom(init, f[j]);
      }
    }
  }

  lemma {:induction false} FirstArrivalLeads(s: seq<Tweet>) returns (k: nat)
    requires s != [] && !Beaten(s, s[0])
    ensures Leads(Timeline(s), s[0], k)
  {
    var i := SortLeads(s);
    SortOrdered(s);
    forall v ensures v in ChainSort(s) <==> v in s {
      InSorted(s, v);
    }
    hide ChainSort, Key, AtMost, InChainOrder;
    assert !Beaten(ChainSort(s), s[0]);
    k := FirstsLead(ChainSort(s), s[0], i);
  }

  /** Two tweets at one coordinate, neither beaten: the one that arrives first comes first. */
  lemma {:induction false} OpenTieShows(t: Tweet, u: Tweet, rest: seq<Tweet>)
    requires t.coord == u.coord && t != u && !Beaten([t, u] + rest, t) && !Beaten([t, u] + rest, u)
    ensures Timeline([t, u] + rest) != Timeline([u, t] + rest)
  {
    var a, b := [t, u] + rest, [u, t] + rest;
    assert forall v :: v in a <==> v in b;
    assert !Beaten(b, u);
    hide Timeline, Key, Beaten;
    var i := FirstArrivalLeads(a);
    var j := FirstArrivalLeads(b);
  }

  /** The order of arrival does not matter exactly when of any two tweets at one coordinate one is beaten. */
  lemma {:induction false} TimelineIgnoresArrivalIff(a: seq<Tweet>)
    ensures (forall b | multiset(b) == multiset(a) :: Timeline(b) == Timeline(a)) <==> TiesSettled(a)
  {
    hide Timeline;
    if TiesSettled(a) {
      forall b | multiset(b) == multiset(a) ensures Timeline(b) == Timeline(a) {
        SettledTiesAreHarmless(a, b);
      }
    } else {
      hide Beaten;
      var t, u :| t in a && u in a && t.coord == u.coord && t != u && !Beaten(a, t) && !Beaten(a, u);
      var rest := PullOutTwo(a, t, u);
      SameBeaten(a, [t, u] + rest, t);
      SameBeaten(a, [t, u] + rest, u);
      OpenTieShows(t, u, rest);
      assert multiset([t, u] + rest) == multiset(a) == multiset([u, t] + rest);
    }
  }

  lemma {:induction false} SameBeaten(a: seq<Tweet>, b: seq<Tweet>, t: Tweet)
    requires multiset(a) == multiset(b)
    ensures Beaten(a, t) <==> Beaten(b, t)
  {
    SameMembers(a, b);
    hide Key, AtMost;
  }
}
