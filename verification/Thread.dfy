// packages/bam-comments/src/thread.ts: building the comment tree step by step, and that it is the forest of ThreadForest.
module Thread {
  import opened Wrappers
  import opened Sequences
  import opened ThreadForest

  // ----- isReachableRoot -----

  lemma {:induction false} RootAtFromAncestor(index: Index, x: Message, k: nat, y: Message, n: nat)
    requires Ancestor(index, x, k) == Some(y)
    ensures RootAt(index, x, n) <==> n >= k && RootAt(index, y, n - k)
    decreases k
  {
    if k > 0 && n > 0 {
      RootAtFromAncestor(index, index[x.parent.value], k - 1, y, n - 1);
    }
  }

  /** A walk that comes back to a link it has followed reaches no root. */
  lemma {:induction false} RevisitMeansCycle(index: Index, x: Message, k: nat, y: Message, i: nat, z: Message)
    requires k < i && Ancestor(index, x, k) == Some(y) && Ancestor(index, x, i) == Some(z) && y.parent == z.parent
    ensures !Survives(index, x)
  {
    forall n: nat ensures !RootAt(index, x, n) {
      RootAtFromAncestor(index, x, k, y, n);
      RootAtFromAncestor(index, x, i, z, n);
      if RootAt(index, x, n) {
        assert RootAt(index, y, n - i);
        RootAtUnique(index, y, n - k, n - i);
      }
    }
  }

  /** The walk along parent links answers whether the message survives. */
  method IsReachableRoot(start: Message, byHash: Index) returns (r: bool)
    requires WellKeyed(byHash) && start.hash in byHash && byHash[start.hash].parent == start.parent
    ensures r <==> Survives(byHash, start)
  {
    hide Survives;
    var visited: set<Hash> := {};
    ghost var trail: seq<Message> := [];
    var cursor := start;
    var i := 0;
    while i < HARD_CAP
      invariant 0 <= i <= HARD_CAP && |trail| == i
      invariant cursor.hash in byHash && byHash[cursor.hash].parent == cursor.parent
      invariant Ancestor(byHash, start, i) == Some(cursor)
      invariant forall k :: 0 <= k < i ==> Ancestor(byHash, start, k) == Some(trail[k])
      invariant forall k :: 0 <= k < i ==> trail[k].hash in byHash && byHash[trail[k].hash].parent == trail[k].parent
      invariant forall h :: h in visited ==> exists k :: 0 <= k < i && trail[k].hash == h
    {
      if cursor.hash in visited {
        ghost var k :| 0 <= k < i && trail[k].hash == cursor.hash;
        RevisitMeansCycle(byHash, start, k, trail[k], i, cursor);
        return false;
      }
      visited := visited + {cursor.hash};
      if cursor.parent.None? {
        RootReached(byHash, start, i, cursor);
        return true;
      }
      if cursor.parent.value !in byHash {
        OrphanReached(byHash, start, i, cursor);
        return false;
      }
      AncestorStep(byHash, start, i, cursor);
      trail := trail + [cursor];
      cursor := byHash[cursor.parent.value];
      i := i + 1;
    }
    CapReached(byHash, start, cursor);
    return false;
  }

  lemma {:induction false} RootReached(index: Index, x: Message, i: nat, y: Message)
    requires i < HARD_CAP && Ancestor(index, x, i) == Some(y) && y.parent.None?
    ensures Survives(index, x)
  {
    RootAtFromAncestor(index, x, i, y, i);
  }

  lemma {:induction false} OrphanReached(index: Index, x: Message, i: nat, y: Message)
    requires Ancestor(index, x, i) == Some(y) && y.parent.Some? && y.parent.value !in index
    ensures !Survives(index, x)
  {
    forall n: nat ensures !RootAt(index, x, n) {
      RootAtFromAncestor(index, x, i, y, n);
    }
  }

  lemma {:induction false} CapReached(index: Index, x: Message, y: Message)
    requires Ancestor(index, x, HARD_CAP) == Some(y)
    ensures !Survives(index, x)
  {
    forall n: nat | n < HARD_CAP ensures !RootAt(index, x, n) {
      RootAtFromAncestor(index, x, HARD_CAP, y, n);
    }
  }

  lemma {:induction false} SurvivesByParent(index: Index, a: Message, b: Message)
    requires a.parent == b.parent
    ensures Survives(index, a) <==> Survives(index, b)
  {
    forall n: nat ensures RootAt(index, a, n) <==> RootAt(index, b, n) {
    }
  }

  // ----- nodes and their order -----

  class CommentNode {
    const message: Message
    var children: seq<CommentNode>
    var depth: int
    var displayDepth: int

    constructor (m: Message)
      ensures message == m && children == [] && depth == 0 && displayDepth == 0
    {
      message := m;
      children := [];
      depth := 0;
      displayDepth := 0;
    }
  }

  function MessagesOf(ns: seq<CommentNode>): (r: seq<Message>)
    ensures |r| == |ns| && forall i :: 0 <= i < |ns| ==> r[i] == ns[i].message
  {
    if ns == [] then [] else [ns[0].message] + MessagesOf(ns[1..])
  }

  function InsertNode(n: CommentNode, s: seq<CommentNode>): (r: seq<CommentNode>)
    ensures multiset(r) == multiset(s) + multiset{n}
  {
    if s == [] then [n]
    else
      assert s == [s[0]] + s[1..];
      if Less(s[0].message, n.message) then [s[0]] + InsertNode(n, s[1..]) else [n] + s
  }

  /** The library sort under `compareNodes`. */
  function SortNodes(s: seq<CommentNode>): (r: seq<CommentNode>)
    ensures multiset(r) == multiset(s)
  {
    if s == [] then []
    else
      assert s == [s[0]] + s[1..];
      InsertNode(s[0], SortNodes(s[1..]))
  }

  lemma {:induction false} HeadIsLess(s: seq<CommentNode>)
    requires Ordered(MessagesOf(s)) && s != []
    ensures forall x :: x in s[1..] ==> Less(s[0].message, x.message)
  {
    hide Less;
    forall x | x in s[1..] ensures Less(s[0].message, x.message) {
      var j :| 0 <= j < |s[1..]| && s[1..][j] == x;
      assert Less(MessagesOf(s)[0], MessagesOf(s)[j + 1]);
    }
  }

  lemma {:induction false} PrependOrdered(n: CommentNode, s: seq<CommentNode>)
    requires Ordered(MessagesOf(s)) && forall x :: x in s ==> Less(n.message, x.message)
    ensures Ordered(MessagesOf([n] + s))
  {
    hide Less;
    assert MessagesOf([n] + s) == [n.message] + MessagesOf(s);
    assert forall i :: 0 <= i < |s| ==> s[i] in s;
  }

  lemma {:induction false} InsertOrdered(n: CommentNode, s: seq<CommentNode>)
    requires Ordered(MessagesOf(s)) && forall x :: x in s ==> x.message.hash != n.message.hash
    ensures Ordered(MessagesOf(InsertNode(n, s)))
  {
    if s != [] && Less(s[0].message, n.message) {
      hide Less;
      var rest := InsertNode(n, s[1..]);
      assert MessagesOf(s)[1..] == MessagesOf(s[1..]);
      InsertOrdered(n, s[1..]);
      HeadIsLess(s);
      hide MessagesOf, InsertNode, Ordered;
      forall x | x in rest ensures Less(s[0].message, x.message) {
        assert x in multiset(rest);
        assert x in s[1..] || x == n;
      }
      PrependOrdered(s[0], rest);
    } else if s != [] {
      HeadIsLess(s);
      hide MessagesOf, InsertNode, Ordered;
      assert s[0] in s;
      forall x | x in s ensures Less(n.message, x.message) {
        assert x == s[0] || x in s[1..];
      }
      PrependOrdered(n, s);
    }
  }

  ghost predicate DistinctNodes(s: seq<CommentNode>) {
    forall i, j :: 0 <= i < j < |s| ==> s[i].message.hash != s[j].message.hash
  }

  lemma {:induction false} SortOrdered(s: seq<CommentNode>)
    requires DistinctNodes(s)
    ensures Ordered(MessagesOf(SortNodes(s)))
  {
    if s != [] {
      SortOrdered(s[1..]);
      var rest := SortNodes(s[1..]);
      forall x | x in rest ensures x.message.hash != s[0].message.hash {
        assert x in multiset(rest);
        assert x in s[1..];
        var j :| 0 <= j < |s[1..]| && s[1..][j] == x;
        assert s[j + 1] == x;
      }
      InsertOrdered(s[0], rest);
    }
  }

  // ----- the registry of nodes -----

  ghost predicate Lives(index: Index, h: Hash) {
    h in index && Survives(index, index[h])
  }

  lemma {:induction false} LivesIsAlive(index: Index, h: Hash)
    requires WellKeyed(index)
    ensures Lives(index, h) <==> h in index && index[h] in Alive(index)
  {
    hide Survives;
    if h in index && index[h] in Alive(index) {
      var g :| g in index && Survives(index, index[g]) && index[g] == index[h];
    }
  }

  /** One node for each surviving message. */
  ghost predicate Registry(index: Index, all: map<Hash, CommentNode>) {
    && WellKeyed(index)
    && (forall h :: h in all <==> Lives(index, h))
    && (forall h :: h in all ==> all[h].message == index[h])
  }

  /** `nodes` lists the registry, each node once. */
  ghost predicate Lists(all: map<Hash, CommentNode>, nodes: seq<CommentNode>) {
    && DistinctNodes(nodes)
    && (forall n :: n in nodes ==> n.message.hash in all && all[n.message.hash] == n)
    && (forall h :: h in all ==> all[h] in nodes)
  }

  ghost function NodesFor(all: map<Hash, CommentNode>, ms: seq<Message>): (r: seq<CommentNode>)
    requires forall m :: m in ms ==> m.hash in all
    ensures |r| == |ms| && forall i :: 0 <= i < |r| ==> ms[i] in ms && r[i] == all[ms[i].hash]
  {
    if ms == [] then [] else [all[ms[0].hash]] + NodesFor(all, ms[1..])
  }

  /** The nodes whose message answers `parent`, in list order. */
  function Having(nodes: seq<CommentNode>, parent: Option<Hash>): seq<CommentNode> {
    if nodes == [] then []
    else
      var init, last := nodes[..|nodes| - 1], nodes[|nodes| - 1];
      if last.message.parent == parent then Having(init, parent) + [last] else Having(init, parent)
  }

  lemma {:induction false} HavingIs(nodes: seq<CommentNode>, parent: Option<Hash>)
    ensures forall n :: n in Having(nodes, parent) <==> n in nodes && n.message.parent == parent
    ensures DistinctNodes(nodes) ==> DistinctNodes(Having(nodes, parent))
  {
    if nodes != [] {
      var init, last := nodes[..|nodes| - 1], nodes[|nodes| - 1];
      assert nodes == init + [last];
      HavingIs(init, parent);
      if DistinctNodes(nodes) {
        assert DistinctNodes(init);
        forall n | n in init ensures n.message.hash != last.message.hash {
          var i :| 0 <= i < |init| && init[i] == n;
          assert nodes[i] == n;
        }
        var r := Having(init, parent);
        assert forall i :: 0 <= i < |r| ==> r[i] in r;
        assert DistinctNodes(r + [last]);
      }
    }
  }

  ghost function KidNodes(index: Index, all: map<Hash, CommentNode>, parent: Option<Hash>): (r: seq<CommentNode>)
    requires Registry(index, all)
    ensures MessagesOf(r) == Listing(Kids(index, parent)) && DistinctNodes(r)
  {
    KidsRegistered(index, all, parent);
    NodesFor(all, Listing(Kids(index, parent)))
  }

  lemma {:induction false} ListingRegistered(index: Index, all: map<Hash, CommentNode>, parent: Option<Hash>)
    requires Registry(index, all)
    ensures forall m :: m in Listing(Kids(index, parent)) ==> m.hash in all && index[m.hash] == m && m.parent == parent
    ensures forall h :: h in all && index[h].parent == parent ==> index[h] in Listing(Kids(index, parent))
  {
    hide Survives;
    var ms := Listing(Kids(index, parent));
    forall m | m in ms ensures m.hash in all && index[m.hash] == m && m.parent == parent {
      assert m in Elements(ms);
      LivesIsAlive(index, m.hash);
    }
    forall h | h in all && index[h].parent == parent ensures index[h] in ms {
      LivesIsAlive(index, h);
      assert index[h] in Elements(ms);
    }
  }

  lemma {:induction false} NotItself(a: Message, b: Message)
    requires Less(a, b)
    ensures a != b
  {
  }

  lemma {:induction false} DistinctHashList(index: Index, ms: seq<Message>)
    requires Ordered(ms) && forall m :: m in ms ==> m.hash in index && index[m.hash] == m
    ensures forall i, j :: 0 <= i < j < |ms| ==> ms[i].hash != ms[j].hash
  {
    forall i, j | 0 <= i < j < |ms| ensures ms[i].hash != ms[j].hash {
      assert ms[i] in ms && ms[j] in ms;
      NotItself(ms[i], ms[j]);
    }
  }

  lemma {:induction false} NodesForMessages(all: map<Hash, CommentNode>, ms: seq<Message>)
    requires forall m :: m in ms ==> m.hash in all && all[m.hash].message == m
    ensures MessagesOf(NodesFor(all, ms)) == ms
  {
    var r := NodesFor(all, ms);
    forall i | 0 <= i < |ms| ensures MessagesOf(r)[i] == ms[i] {
      assert ms[i] in ms;
    }
  }

  lemma {:induction false} KidsRegistered(index: Index, all: map<Hash, CommentNode>, parent: Option<Hash>)
    requires Registry(index, all)
    ensures forall m :: m in Listing(Kids(index, parent)) ==> m.hash in all && all[m.hash].message == m
    ensures MessagesOf(NodesFor(all, Listing(Kids(index, parent)))) == Listing(Kids(index, parent))
    ensures DistinctNodes(NodesFor(all, Listing(Kids(index, parent))))
  {
    hide Lives, Listing, Kids, Less, Ordered;
    var ms := Listing(Kids(index, parent));
    ListingRegistered(index, all, parent);
    DistinctHashList(index, ms);
    NodesForMessages(all, ms);
  }

  lemma {:induction false} KidNodesAre(index: Index, all: map<Hash, CommentNode>, parent: Option<Hash>)
    requires Registry(index, all)
    ensures forall n :: n in KidNodes(index, all, parent) <==>
              n.message.hash in all && all[n.message.hash] == n && n.message.parent == parent
  {
    var ms := Listing(Kids(index, parent));
    ListingRegistered(index, all, parent);
    hide Survives, Listing, Kids, Alive, Less, Lives;
    var r := KidNodes(index, all, parent);
    forall n: CommentNode | n.message.hash in all && all[n.message.hash] == n && n.message.parent == parent
      ensures n in r
    {
      assert n.message in ms;
      var i :| 0 <= i < |ms| && ms[i] == n.message;
      assert r[i] == n;
    }
    forall i | 0 <= i < |r|
      ensures r[i].message.hash in all && all[r[i].message.hash] == r[i] && r[i].message.parent == parent
    {
      assert ms[i] in ms;
    }
  }

  lemma {:induction false} SameMessagesSameNodes(all: map<Hash, CommentNode>, a: seq<CommentNode>, b: seq<CommentNode>)
    requires MessagesOf(a) == MessagesOf(b)
    requires forall n :: n in a || n in b ==> n.message.hash in all && all[n.message.hash] == n
    ensures a == b
  {
    forall i | 0 <= i < |a| ensures a[i] == b[i] {
      assert a[i] in a && b[i] in b;
      assert MessagesOf(a)[i] == MessagesOf(b)[i];
    }
  }

  /** Sorting the nodes collected for a parent gives its replies in (timestamp, hash) order. */
  lemma {:induction false} SortedHaving(index: Index, all: map<Hash, CommentNode>, nodes: seq<CommentNode>, parent: Option<Hash>)
    requires Registry(index, all) && Lists(all, nodes)
    ensures SortNodes(Having(nodes, parent)) == KidNodes(index, all, parent)
  {
    var s := Having(nodes, parent);
    HavingIs(nodes, parent);
    KidNodesAre(index, all, parent);
    SortOrdered(s);
    hide Survives, SortNodes, Having, Less, Listing, Kids, Alive;
    var r, k := SortNodes(s), KidNodes(index, all, parent);
    forall n ensures n in r <==> n in s {
      assert n in r <==> n in multiset(r);
    }
    hide KidNodes, Ordered, DistinctNodes;
    SameNodesSameMessages(r, k);
    OrderedUnique(MessagesOf(r), MessagesOf(k));
    SameMessagesSameNodes(all, r, k);
  }

  lemma {:induction false} SameNodesSameMessages(a: seq<CommentNode>, b: seq<CommentNode>)
    requires forall n :: n in a <==> n in b
    ensures Elements(MessagesOf(a)) == Elements(MessagesOf(b))
  {
    forall m ensures m in MessagesOf(a) <==> m in MessagesOf(b) {
      InMessages(a, m);
      InMessages(b, m);
    }
  }

  lemma {:induction false} InMessages(ns: seq<CommentNode>, m: Message)
    ensures m in MessagesOf(ns) <==> exists n :: n in ns && n.message == m
  {
    if m in MessagesOf(ns) {
      var i :| 0 <= i < |ns| && MessagesOf(ns)[i] == m;
      assert ns[i] in ns;
    }
    if n :| n in ns && n.message == m {
      var i :| 0 <= i < |ns| && ns[i] == n;
      assert MessagesOf(ns)[i] == m;
    }
  }

  // ----- buildThread, loop by loop -----

  method BuildIndex(messages: seq<Message>) returns (byHash: Index)
    ensures byHash == ByHash(messages)
  {
    byHash := map[];
    for i := 0 to |messages|
      invariant byHash == ByHash(messages[..i])
    {
      byHash := byHash[messages[i].hash := messages[i]];
      assert messages[..i + 1][..i] == messages[..i];
    }
    assert messages[..|messages|] == messages;
  }

  /** `keys` lists the domain of `m`, each key once. */
  ghost predicate KeysOf(m: Index, keys: seq<Hash>) {
    Distinct(keys) && Elements(keys) == m.Keys
  }

  lemma {:induction false} KeysSnoc(m: Index, keys: seq<Hash>, h: Hash, v: Message)
    requires KeysOf(m, keys)
    ensures KeysOf(m[h := v], if h in m then keys else keys + [h])
  {
    assert forall k :: k in keys <==> k in Elements(keys);
    if h in m {
      assert m[h := v].Keys == m.Keys;
    } else {
      assert Elements(keys + [h]) == m[h := v].Keys;
    }
  }

  /** `survivors` keeps the messages of `seen` that survive against `byHash`. */
  ghost predicate Sifted(byHash: Index, seen: Index, survivors: Index) {
    && (forall h :: h in survivors <==> h in seen && Survives(byHash, seen[h]))
    && (forall h :: h in survivors ==> survivors[h] == seen[h])
  }

  lemma {:induction false} SiftStep(byHash: Index, seen: Index, survivors: Index, m: Message)
    requires Sifted(byHash, seen, survivors) && (m.hash in seen ==> seen[m.hash].parent == m.parent)
    ensures Sifted(byHash, seen[m.hash := m], if Survives(byHash, m) then survivors[m.hash := m] else survivors)
  {
    if m.hash in seen {
      SurvivesByParent(byHash, m, seen[m.hash]);
    }
    hide Survives;
  }

  lemma {:induction false} ByHashStep(messages: seq<Message>, i: nat)
    requires i < |messages| && HashConsistent(messages)
    ensures ByHash(messages[..i + 1]) == ByHash(messages[..i])[messages[i].hash := messages[i]]
    ensures messages[i].hash in ByHash(messages) && ByHash(messages)[messages[i].hash].parent == messages[i].parent
    ensures messages[i].hash in ByHash(messages[..i]) ==>
              ByHash(messages[..i])[messages[i].hash].parent == messages[i].parent
  {
    assert messages[i] in messages;
    assert messages[..i + 1][..i] == messages[..i];
    ByHashIs(messages);
    ByHashIs(messages[..i]);
    assert forall m :: m in messages[..i] ==> m in messages;
    hide ByHash;
  }

  /** The survivors, with their hashes in the order the map was filled. */
  method FilterSurvivors(messages: seq<Message>, byHash: Index) returns (survivors: Index, keys: seq<Hash>)
    requires byHash == ByHash(messages) && HashConsistent(messages)
    ensures KeysOf(survivors, keys) && Sifted(byHash, byHash, survivors)
  {
    ByHashIs(messages);
    survivors, keys := map[], [];
    assert KeysOf(survivors, keys) && Sifted(byHash, ByHash([]), survivors);
    assert messages[..0] == [];
    hide Survives, KeysOf, Sifted, ByHash, HashConsistent, RootAt;
    for i := 0 to |messages|
      invariant KeysOf(survivors, keys) && Sifted(byHash, ByHash(messages[..i]), survivors)
    {
      var m := messages[i];
      ByHashStep(messages, i);
      var reachable := IsReachableRoot(m, byHash);
      SiftStep(byHash, ByHash(messages[..i]), survivors, m);
      if reachable {
        KeysSnoc(survivors, keys, m.hash, m);
        if m.hash !in survivors {
          keys := keys + [m.hash];
        }
        survivors := survivors[m.hash := m];
      }
    }
    assert messages[..|messages|] == messages;
  }

  method MakeNodes(survivors: Index, keys: seq<Hash>) returns (all: map<Hash, CommentNode>, nodes: seq<CommentNode>)
    requires WellKeyed(survivors) && KeysOf(survivors, keys)
    ensures all.Keys == survivors.Keys && fresh(all.Values)
    ensures forall h :: h in all ==> all[h].message == survivors[h]
    ensures forall h :: h in all ==> all[h].children == [] && all[h].depth == 0 && all[h].displayDepth == 0
    ensures Lists(all, nodes)
  {
    hide Elements;
    all, nodes := map[], [];
    NoElements();
    for i := 0 to |keys|
      invariant |nodes| == i && all.Keys == Elements(keys[..i])
      invariant forall j :: 0 <= j < i ==> keys[j] in survivors && nodes[j].message == survivors[keys[j]]
      invariant forall j :: 0 <= j < i ==> fresh(nodes[j]) && keys[j] in all && all[keys[j]] == nodes[j]
      invariant forall j :: 0 <= j < i ==> nodes[j].children == [] && nodes[j].depth == 0 && nodes[j].displayDepth == 0
    {
      KeyAt(survivors, keys, i);
      var node := new CommentNode(survivors[keys[i]]);
      all, nodes := all[keys[i] := node], nodes + [node];
    }
    assert keys[..|keys|] == keys;
    AllFromKeys(survivors, keys, all, nodes);
  }

  lemma {:induction false} NoElements()
    ensures forall keys: seq<Hash> :: Elements(keys[..0]) == {}
  {
  }

  lemma {:induction false} KeyAt(m: Index, keys: seq<Hash>, i: nat)
    requires KeysOf(m, keys) && i < |keys|
    ensures keys[i] in m && keys[i] !in Elements(keys[..i])
    ensures Elements(keys[..i + 1]) == Elements(keys[..i]) + {keys[i]}
  {
    assert keys[i] in Elements(keys);
    assert keys[..i + 1] == keys[..i] + [keys[i]];
  }

  lemma {:induction false} AllFromKeys(survivors: Index, keys: seq<Hash>, all: map<Hash, CommentNode>, nodes: seq<CommentNode>)
    requires WellKeyed(survivors) && KeysOf(survivors, keys) && all.Keys == Elements(keys) && |nodes| == |keys|
    requires forall j :: 0 <= j < |keys| ==> keys[j] in survivors && nodes[j].message == survivors[keys[j]]
    requires forall j :: 0 <= j < |keys| ==> keys[j] in all && all[keys[j]] == nodes[j]
    ensures all.Keys == survivors.Keys && Lists(all, nodes)
    ensures forall h :: h in all ==> all[h] in nodes && exists j :: 0 <= j < |keys| && keys[j] == h && all[h] == nodes[j]
  {
    forall h | h in all ensures all[h] in nodes && exists j :: 0 <= j < |keys| && keys[j] == h && all[h] == nodes[j] {
      assert h in Elements(keys);
      var j :| 0 <= j < |keys| && keys[j] == h;
    }
  }

  /** The nodes filed under `parent`. */
  function Bucket(childrenOf: map<Hash, seq<CommentNode>>, parent: Hash): seq<CommentNode> {
    if parent in childrenOf then childrenOf[parent] else []
  }

  method LinkNodes(nodes: seq<CommentNode>, all: map<Hash, CommentNode>)
    returns (childrenOf: map<Hash, seq<CommentNode>>, roots: seq<CommentNode>)
    requires forall n :: n in nodes && n.message.parent.Some? ==> n.message.parent.value in all
    ensures roots == Having(nodes, None)
    ensures forall p :: Bucket(childrenOf, p) == Having(nodes, Some(p))
  {
    childrenOf, roots := map[], [];
    for i := 0 to |nodes|
      invariant roots == Having(nodes[..i], None)
      invariant forall p :: Bucket(childrenOf, p) == Having(nodes[..i], Some(p))
    {
      var node := nodes[i];
      assert nodes[..i + 1][..i] == nodes[..i];
      var parentKey := node.message.parent;
      if parentKey.Some? && parentKey.value in all {
        childrenOf := childrenOf[parentKey.value := Bucket(childrenOf, parentKey.value) + [node]];
      } else {
        roots := roots + [node];
      }
    }
    assert nodes[..|nodes|] == nodes;
  }

  method Attach(node: CommentNode, kids: seq<CommentNode>, queue: seq<CommentNode>) returns (q: seq<CommentNode>)
    requires node !in kids && DistinctNodes(kids)
    modifies node, kids
    ensures q == queue + kids && node.children == old(node.children) + kids
    ensures node.depth == old(node.depth) && node.displayDepth == old(node.displayDepth)
    ensures forall k :: k in kids ==> k.depth == node.depth + 1 && k.displayDepth == ClampDepth(node.depth + 1)
    ensures forall k :: k in kids ==> k.children == old(k.children)
  {
    q := queue;
    for i := 0 to |kids|
      invariant q == queue + kids[..i] && node.children == old(node.children) + kids[..i]
      invariant node.depth == old(node.depth) && node.displayDepth == old(node.displayDepth)
      invariant forall j :: 0 <= j < i ==> kids[j].depth == node.depth + 1
      invariant forall j :: 0 <= j < i ==> kids[j].displayDepth == ClampDepth(node.depth + 1)
      invariant forall k :: k in kids ==> k.children == old(k.children)
    {
      var k := kids[i];
      k.depth := node.depth + 1;
      k.displayDepth := ClampDepth(k.depth);
      node.children := node.children + [k];
      q := q + [k];
    }
  }

  // ----- the breadth-first walk -----

  function HashesOf(ms: seq<Message>): (r: seq<Hash>)
    ensures |r| == |ms| && forall i :: 0 <= i < |r| ==> r[i] == ms[i].hash
  {
    if ms == [] then [] else [ms[0].hash] + HashesOf(ms[1..])
  }

  /** The hashes of the replies to `h`, in order. */
  ghost function KidLine(index: Index, h: Hash): seq<Hash>
    requires WellKeyed(index)
  {
    HashesOf(Listing(Kids(index, Some(h))))
  }

  lemma {:induction false} KidLineIs(index: Index, h: Hash)
    requires WellKeyed(index)
    ensures Distinct(KidLine(index, h))
    ensures forall k :: k in Elements(KidLine(index, h)) <==> Lives(index, k) && index[k].parent == Some(h)
  {
    hide Survives, Less;
    var ms := Listing(Kids(index, Some(h)));
    assert forall m :: m in ms <==> m in Elements(ms);
    DistinctHashList(index, ms);
    forall k ensures k in KidLine(index, h) <==> Lives(index, k) && index[k].parent == Some(h) {
      LivesIsAlive(index, k);
      if Lives(index, k) && index[k].parent == Some(h) {
        assert index[k] in ms;
        var i :| 0 <= i < |ms| && ms[i] == index[k];
        assert HashesOf(ms)[i] == k;
      }
      if k in KidLine(index, h) {
        var i :| 0 <= i < |ms| && HashesOf(ms)[i] == k;
        assert ms[i] in ms;
      }
    }
  }

  /** A survivor whose turn comes once `finished` are done: a root, or a reply to one of them. */
  ghost predicate Due(index: Index, finished: set<Hash>, h: Hash) {
    Lives(index, h) && (index[h].parent.None? || index[h].parent.value in finished)
  }

  /** Waiting are the roots and the replies of the finished, as far as not finished themselves. */
  ghost predicate Frontier(index: Index, finished: set<Hash>, line: seq<Hash>) {
    && Distinct(line) && finished !! Elements(line)
    && (forall h :: h in finished + Elements(line) <==> Due(index, finished, h))
  }

  lemma {:induction false} LineStep(line: seq<Hash>, ks: seq<Hash>)
    requires line != [] && Distinct(line) && Distinct(ks) && Elements(ks) !! Elements(line)
    ensures line[0] in Elements(line) && Distinct(line[1..] + ks)
    ensures Elements(line[1..] + ks) == Elements(line) - {line[0]} + Elements(ks)
  {
    var h := line[0];
    assert h in Elements(line);
    assert line == [h] + line[1..];
    assert Elements(line[1..]) == Elements(line) - {h};
    DistinctAppend(line[1..], ks);
    assert Elements(line[1..] + ks) == Elements(line) - {h} + Elements(ks);
  }

  lemma {:induction false} FrontierStep(index: Index, finished: set<Hash>, line: seq<Hash>)
    requires WellKeyed(index) && Frontier(index, finished, line) && line != []
    ensures Lives(index, line[0]) && line[0] !in finished
    ensures Frontier(index, finished + {line[0]}, line[1..] + KidLine(index, line[0]))
    ensures Elements(KidLine(index, line[0])) !! finished + Elements(line)
    ensures finished + {line[0]} + Elements(line[1..] + KidLine(index, line[0])) ==
            finished + Elements(line) + Elements(KidLine(index, line[0]))
  {
    var h, ks := line[0], KidLine(index, line[0]);
    assert h in Elements(line);
    assert Due(index, finished, h);
    assert Lives(index, h);
    hide Due, KidLine, Elements, Distinct, Lives;
    forall k ensures Due(index, finished + {h}, k) <==> Due(index, finished, k) || k in Elements(ks) {
      DueStep(index, finished, h, k);
    }
    forall k | k in Elements(ks) ensures k !in finished + Elements(line) {
      DueStep(index, finished, h, k);
    }
    KidLineIs(index, h);
    LineStep(line, ks);
  }

  lemma {:induction false} DueStep(index: Index, finished: set<Hash>, h: Hash, k: Hash)
    requires WellKeyed(index)
    ensures Due(index, finished + {h}, k) <==> Due(index, finished, k) || k in Elements(KidLine(index, h))
    ensures h !in finished && k in Elements(KidLine(index, h)) ==> !Due(index, finished, k)
  {
    KidLineIs(index, h);
    hide KidLine, Survives;
  }

  lemma {:induction false} AllFinished(index: Index, finished: set<Hash>, h: Hash)
    requires WellKeyed(index) && Frontier(index, finished, []) && Lives(index, h)
    ensures h in finished
    decreases Depth(index, index[h])
  {
    assert h in finished + Elements([]) <==> Due(index, finished, h);
    if index[h].parent.Some? {
      LivesIsAlive(index, h);
      ParentSurvives(index, index[h]);
      LivesIsAlive(index, index[h].parent.value);
      AllFinished(index, finished, index[h].parent.value);
    }
  }

  /** `queue` holds the nodes of the hashes of `line`. */
  ghost predicate Queued(all: map<Hash, CommentNode>, line: seq<Hash>, queue: seq<CommentNode>) {
    |queue| == |line| && forall i :: 0 <= i < |line| ==> line[i] in all && queue[i] == all[line[i]]
  }

  lemma {:induction false} KidsQueued(index: Index, all: map<Hash, CommentNode>, h: Hash)
    requires Registry(index, all)
    ensures Queued(all, KidLine(index, h), KidNodes(index, all, Some(h)))
  {
    hide Lives, Kids, Listing;
    KidsRegistered(index, all, Some(h));
  }

  lemma {:induction false} QueuedStep(all: map<Hash, CommentNode>, line: seq<Hash>, queue: seq<CommentNode>,
                   ks: seq<Hash>, kids: seq<CommentNode>)
    requires Queued(all, line, queue) && Queued(all, ks, kids) && line != []
    ensures Queued(all, line[1..] + ks, queue[1..] + kids)
    ensures queue[0] in all.Values && forall n :: n in kids ==> n in all.Values
  {
    assert line[0] in all.Keys;
    forall n | n in kids ensures n in all.Values {
      var i :| 0 <= i < |kids| && kids[i] == n;
      assert ks[i] in all.Keys;
    }
  }

  /** Depths of the reached and replies of the finished are in place. */
  ghost predicate PlacedAt(index: Index, all: map<Hash, CommentNode>, finished: set<Hash>, reached: set<Hash>, h: Hash)
    requires Registry(index, all) && h in all
    reads all[h]
  {
    && all[h].children == (if h in finished then KidNodes(index, all, Some(h)) else [])
    && (h in reached ==>
          all[h].depth == Depth(index, index[h]) && all[h].displayDepth == ClampDepth(Depth(index, index[h])))
  }

  ghost predicate Placed(index: Index, all: map<Hash, CommentNode>, finished: set<Hash>, reached: set<Hash>)
    requires Registry(index, all)
    reads all.Values
  {
    forall h :: h in all ==> PlacedAt(index, all, finished, reached, h)
  }

  /** Depth, display depth and replies of every node. */
  ghost predicate Built(index: Index, all: map<Hash, CommentNode>)
    requires Registry(index, all)
    reads all.Values
  {
    forall h :: h in all ==>
      && all[h].depth == Depth(index, index[h]) && all[h].displayDepth == ClampDepth(Depth(index, index[h]))
      && all[h].children == KidNodes(index, all, Some(h))
  }

  lemma {:induction false} KidLineDepth(index: Index, h: Hash)
    requires WellKeyed(index) && Lives(index, h)
    ensures forall k :: k in KidLine(index, h) ==>
              Lives(index, k) && Depth(index, index[k]) == Depth(index, index[h]) + 1
  {
    KidLineIs(index, h);
    LivesIsAlive(index, h);
    hide KidLine, Survives;
    forall k | k in KidLine(index, h) ensures Lives(index, k) && Depth(index, index[k]) == Depth(index, index[h]) + 1 {
      LivesIsAlive(index, k);
      assert k in Elements(KidLine(index, h));
      KidDepth(index, index[h], index[k]);
    }
  }

  lemma {:induction false} WalkStarts(index: Index, all: map<Hash, CommentNode>, nodes: seq<CommentNode>) returns (line: seq<Hash>)
    requires Registry(index, all) && Lists(all, nodes)
    ensures Frontier(index, {}, line) && Queued(all, line, Having(nodes, None))
    ensures forall h :: h in line ==> Lives(index, h) && Depth(index, index[h]) == 0
  {
    var roots := Having(nodes, None);
    HavingIs(nodes, None);
    hide Having, Alive, Depth;
    line := HashesOf(MessagesOf(roots));
    assert forall i :: 0 <= i < |roots| ==> roots[i] in roots;
    forall h ensures h in Elements(line) <==> Lives(index, h) && index[h].parent.None? {
      if Lives(index, h) && index[h].parent.None? {
        assert all[h] in roots;
        var i :| 0 <= i < |roots| && roots[i] == all[h];
        assert line[i] == h;
      }
    }
    forall h | h in line ensures Lives(index, h) && Depth(index, index[h]) == 0 {
      assert h in Elements(line);
      RootAtUnique(index, index[h], 0, Depth(index, index[h]));
    }
  }

  /** What holds when the node of `h` is taken off the queue: its replies `kids`, of hashes `ks`, are all new. */
  ghost predicate Turn(index: Index, all: map<Hash, CommentNode>, finished: set<Hash>, reached: set<Hash>,
                       h: Hash, ks: seq<Hash>, kids: seq<CommentNode>)
    requires Registry(index, all)
  {
    && h in all && h in reached && h !in finished && finished <= reached
    && DistinctNodes(kids) && kids == KidNodes(index, all, Some(h)) && Queued(all, ks, kids)
    && Elements(ks) !! reached
    && (forall k :: k in Elements(ks) ==> Lives(index, k) && Depth(index, index[k]) == Depth(index, index[h]) + 1)
  }

  lemma {:induction false} TurnReady(index: Index, all: map<Hash, CommentNode>, nodes: seq<CommentNode>, finished: set<Hash>,
                  line: seq<Hash>, queue: seq<CommentNode>)
    requires Registry(index, all) && Lists(all, nodes)
    requires Queued(all, line, queue) && Frontier(index, finished, line) && line != []
    ensures queue != [] && line[0] in all && queue[0] == all[line[0]] && queue[0].message.hash == line[0]
    ensures Turn(index, all, finished, finished + Elements(line), line[0], KidLine(index, line[0]),
                 KidNodes(index, all, Some(line[0])))
    ensures SortNodes(Having(nodes, Some(line[0]))) == KidNodes(index, all, Some(line[0]))
  {
    hide KidNodes, Depth, SortNodes, KidLine, Having, Survives, DistinctNodes, Due, Distinct, Alive;
    var h, ks := line[0], KidLine(index, line[0]);
    FrontierStep(index, finished, line);
    hide Frontier;
    SortedHaving(index, all, nodes, Some(h));
    KidsQueued(index, all, h);
    KidLineDepth(index, h);
    assert h in Elements(line);
  }

  lemma {:induction false} TurnTouches(index: Index, all: map<Hash, CommentNode>, finished: set<Hash>, reached: set<Hash>,
                    h: Hash, ks: seq<Hash>, kids: seq<CommentNode>)
    requires Registry(index, all) && Turn(index, all, finished, reached, h, ks, kids)
    ensures forall k :: k in all ==> (all[k] in kids <==> k in Elements(ks)) && (all[k] == all[h] <==> k == h)
    ensures all[h] !in kids && all[h] in all.Values && forall n :: n in kids ==> n in all.Values
  {
    hide Survives, KidNodes, Depth, DistinctNodes;
    assert forall k :: k in all ==> Lives(index, k) && all[k].message.hash == k;
    forall k | k in all ensures all[k] in kids <==> k in Elements(ks) {
      if all[k] in kids {
        var i :| 0 <= i < |kids| && kids[i] == all[k];
        assert ks[i] == all[ks[i]].message.hash == k;
      }
      if k in Elements(ks) {
        var i :| 0 <= i < |ks| && ks[i] == k;
        assert kids[i] == all[k];
      }
    }
    forall n | n in kids ensures n in all.Values {
      var i :| 0 <= i < |kids| && kids[i] == n;
      assert ks[i] in all.Keys;
    }
    assert h in all.Keys;
  }

  /** One turn of the walk: the node of `h` takes its replies. */
  method Visit(ghost index: Index, all: map<Hash, CommentNode>, ghost finished: set<Hash>, ghost reached: set<Hash>,
               ghost h: Hash, ghost ks: seq<Hash>, node: CommentNode, kids: seq<CommentNode>, rest: seq<CommentNode>)
    returns (q: seq<CommentNode>)
    requires Registry(index, all) && Placed(index, all, finished, reached)
    requires Turn(index, all, finished, reached, h, ks, kids) && node == all[h]
    modifies all.Values
    ensures Placed(index, all, finished + {h}, reached + Elements(ks)) && q == rest + kids
  {
    TurnTouches(index, all, finished, reached, h, ks, kids);
    hide KidNodes, Depth, ClampDepth, Lives, Queued, WellKeyed, Registry, Elements;
    q := Attach(node, kids, rest);
    hide Turn;
    forall k | k in all ensures PlacedAt(index, all, finished + {h}, reached + Elements(ks), k) {
      assert old(PlacedAt(index, all, finished, reached, k));
      if k != h && k !in Elements(ks) {
        assert all[k] !in kids && all[k] != node;
      }
    }
  }

  lemma {:induction false} PlacedAtStart(index: Index, all: map<Hash, CommentNode>, line: seq<Hash>)
    requires Registry(index, all)
    requires forall h :: h in line ==> Lives(index, h) && Depth(index, index[h]) == 0
    requires forall h :: h in all ==> all[h].children == [] && all[h].depth == 0 && all[h].displayDepth == 0
    ensures Placed(index, all, {}, {} + Elements(line))
  {
    hide Depth, KidNodes, Survives;
  }

  lemma {:induction false} BuiltWhenDone(index: Index, all: map<Hash, CommentNode>, finished: set<Hash>)
    requires Registry(index, all) && Frontier(index, finished, [])
    requires Placed(index, all, finished, finished + Elements([]))
    ensures Built(index, all)
  {
    forall h | h in all ensures h in finished && PlacedAt(index, all, finished, finished + Elements([]), h) {
      assert Lives(index, h);
      AllFinished(index, finished, h);
    }
    hide Frontier, KidNodes, Depth, ClampDepth, Survives, Lives;
  }

  method Walk(ghost index: Index, all: map<Hash, CommentNode>, childrenOf: map<Hash, seq<CommentNode>>,
              roots: seq<CommentNode>, ghost nodes: seq<CommentNode>)
    requires Registry(index, all) && Lists(all, nodes)
    requires roots == Having(nodes, None)
    requires forall p :: Bucket(childrenOf, p) == Having(nodes, Some(p))
    requires forall h :: h in all ==> all[h].children == [] && all[h].depth == 0 && all[h].displayDepth == 0
    modifies all.Values
    ensures Built(index, all)
  {
    var queue := roots;
    ghost var finished: set<Hash> := {};
    ghost var line := WalkStarts(index, all, nodes);
    hide Having, KidNodes, Depth, SortNodes, KidLine, Lists, Lives;
    PlacedAtStart(index, all, line);
    assert |roots| == |line|;
    hide Queued, Frontier, Elements, Registry, Placed, Built, Turn, Bucket;
    while queue != []
      invariant Queued(all, line, queue) && Frontier(index, finished, line) && |queue| == |line|
      invariant Placed(index, all, finished, finished + Elements(line))
      decreases all.Keys - finished
    {
      TurnReady(index, all, nodes, finished, line, queue);
      ghost var h, ks := line[0], KidLine(index, line[0]);
      FrontierStep(index, finished, line);
      QueuedStep(all, line, queue, ks, KidNodes(index, all, Some(h)));
      var node := queue[0];
      var kids := SortNodes(Bucket(childrenOf, node.message.hash));
      queue := Visit(index, all, finished, finished + Elements(line), h, ks, node, kids, queue[1..]);
      finished, line := finished + {h}, line[1..] + ks;
    }
    assert line == [];
    BuiltWhenDone(index, all, finished);
  }

  // ----- the result -----

  /** The object graph under `n` is the tree `t`. */
  ghost predicate Shows(ns: set<CommentNode>, n: CommentNode, t: Tree)
    reads ns
    decreases t
  {
    && n in ns && n.message == t.message && n.depth == t.depth && n.displayDepth == t.displayDepth
    && ShowsAll(ns, n.children, t.children)
  }

  ghost predicate ShowsAll(ns: set<CommentNode>, s: seq<CommentNode>, ts: seq<Tree>)
    reads ns
    decreases ts
  {
    && |s| == |ts|
    && (s != [] ==> Shows(ns, s[0], ts[0]) && ShowsAll(ns, s[1..], ts[1..]))
  }

  lemma {:induction false} BuiltShows(index: Index, all: map<Hash, CommentNode>, h: Hash)
    requires Registry(index, all) && Built(index, all) && h in all && index[h] in Alive(index)
    ensures Shows(all.Values, all[h], Subtree(index, index[h]))
    decreases HARD_CAP - Depth(index, index[h]), 1
  {
    hide Survives, ShowsAll, Shows, NodesFor;
    assert Lives(index, h) && all[h] in all.Values;
    var kids := Listing(Kids(index, Some(h)));
    ListingMembers(index, h);
    KidsRegistered(index, all, Some(h));
    hide Alive, Kids, Listing, Lives, Subtrees;
    BuiltShowsKids(index, all, h, kids);
    ShowsNode(all.Values, all[h], Subtree(index, index[h]));
  }

  lemma {:induction false} ListingMembers(index: Index, h: Hash)
    requires WellKeyed(index)
    ensures forall k :: k in Listing(Kids(index, Some(h))) ==> k in Kids(index, Some(h))
  {
    hide Kids;
    assert forall k :: k in Listing(Kids(index, Some(h))) ==> k in Elements(Listing(Kids(index, Some(h))));
  }

  lemma {:induction false} ShowsNode(ns: set<CommentNode>, n: CommentNode, t: Tree)
    requires n in ns && n.message == t.message && n.depth == t.depth && n.displayDepth == t.displayDepth
    requires ShowsAll(ns, n.children, t.children)
    ensures Shows(ns, n, t)
  {
  }

  lemma {:induction false} BuiltShowsKids(index: Index, all: map<Hash, CommentNode>, h: Hash, kids: seq<Message>)
    requires Registry(index, all) && Built(index, all) && h in all && index[h] in Alive(index)
    requires forall k :: k in kids ==> k in Kids(index, Some(h)) && k.hash in all
    ensures forall k :: k in kids ==> k in Kids(index, Some(index[h].hash))
    ensures ShowsAll(all.Values, NodesFor(all, kids), Subtrees(index, index[h], kids))
    decreases HARD_CAP - Depth(index, index[h]), 0, |kids|
  {
    if kids != [] {
      var k := kids[0];
      LivesIsAlive(index, k.hash);
      hide Lives, Survives, Built;
      KidDepth(index, index[h], k);
      BuiltShows(index, all, k.hash);
      BuiltShowsKids(index, all, h, kids[1..]);
      hide Shows, Listing, Depth;
      assert Subtrees(index, index[h], kids) == [Subtree(index, k)] + Subtrees(index, index[h], kids[1..]);
      assert NodesFor(all, kids) == [all[k.hash]] + NodesFor(all, kids[1..]);
    }
  }

  lemma {:induction false} BuiltShowsRoots(index: Index, all: map<Hash, CommentNode>, roots: seq<Message>)
    requires Registry(index, all) && Built(index, all)
    requires forall k :: k in roots ==> k in Alive(index) && k.hash in all && index[k.hash] == k
    ensures ShowsAll(all.Values, NodesFor(all, roots), Grow(index, roots))
  {
    if roots != [] {
      BuiltShows(index, all, roots[0].hash);
      BuiltShowsRoots(index, all, roots[1..]);
      hide Shows, Alive, Subtree, Built, Registry;
      assert Grow(index, roots) == [Subtree(index, roots[0])] + Grow(index, roots[1..]);
      assert NodesFor(all, roots) == [all[roots[0].hash]] + NodesFor(all, roots[1..]);
    }
  }

  /** The nodes returned are the forest of the messages, whatever order they arrive in. */
  method BuildThread(messages: seq<Message>) returns (roots: seq<CommentNode>, ghost ns: set<CommentNode>)
    requires HashConsistent(messages)
    ensures WellKeyed(ByHash(messages)) && fresh(ns) && ShowsAll(ns, roots, Forest(ByHash(messages)))
  {
    ByHashIs(messages);
    var byHash := BuildIndex(messages);
    var survivors, keys := FilterSurvivors(messages, byHash);
    hide ByHash, HashConsistent, Survives;
    assert forall h :: h in survivors <==> Lives(byHash, h);
    var all, nodes := MakeNodes(survivors, keys);
    assert Registry(byHash, all);
    ParentsRegistered(byHash, all, nodes);
    var childrenOf, top := LinkNodes(nodes, all);
    Walk(byHash, all, childrenOf, top, nodes);
    SortedHaving(byHash, all, nodes, None);
    roots := SortNodes(top);
    ns := all.Values;
    RootsShow(byHash, all);
  }

  lemma {:induction false} ParentsRegistered(index: Index, all: map<Hash, CommentNode>, nodes: seq<CommentNode>)
    requires Registry(index, all) && Lists(all, nodes)
    ensures forall n :: n in nodes && n.message.parent.Some? ==> n.message.parent.value in all
  {
    hide Survives;
    forall n | n in nodes && n.message.parent.Some? ensures n.message.parent.value in all {
      LivesIsAlive(index, n.message.hash);
      ParentSurvives(index, n.message);
      LivesIsAlive(index, n.message.parent.value);
    }
  }

  lemma {:induction false} RootsShow(index: Index, all: map<Hash, CommentNode>)
    requires Registry(index, all) && Built(index, all)
    ensures ShowsAll(all.Values, KidNodes(index, all, None), Forest(index))
  {
    var roots := Listing(Kids(index, None));
    ListingRegistered(index, all, None);
    forall k | k in roots ensures k in Alive(index) {
      assert k in Elements(roots);
    }
    hide Lives, Survives, Built, Listing, Kids, ShowsAll;
    BuiltShowsRoots(index, all, roots);
  }
}
