// packages/bam-comments/src/thread.ts: what the comment forest of a set of messages is, with no
// reference to the order the messages arrive in or to how the tree is built.
module ThreadForest {
  import opened Wrappers
  import opened Sequences

  /** A 32-byte hash; on lower-case hex of one width, text order is numeric order. */
  type Hash = nat

  datatype Message = Message(hash: Hash, parent: Option<Hash>, timestamp: int, sender: string, content: string, pending: bool)

  type Index = map<Hash, Message>

  const HARD_CAP: nat := 1024

  /** Equal hashes carry equal parent links: the hash covers the link. */
  ghost predicate HashConsistent(messages: seq<Message>) {
    forall a, b :: a in messages && b in messages && a.hash == b.hash ==> a.parent == b.parent
  }

  /** `byHash`: the last message of each hash. */
  function ByHash(messages: seq<Message>): Index {
    if messages == [] then map[]
    else ByHash(messages[..|messages| - 1])[messages[|messages| - 1].hash := messages[|messages| - 1]]
  }

  lemma {:induction false} ByHashIs(messages: seq<Message>)
    ensures forall h :: h in ByHash(messages) ==> ByHash(messages)[h].hash == h && ByHash(messages)[h] in messages
    ensures forall m :: m in messages ==> m.hash in ByHash(messages)
  {
    if messages != [] {
      ByHashIs(messages[..|messages| - 1]);
      assert messages == messages[..|messages| - 1] + [messages[|messages| - 1]];
    }
  }

  ghost predicate WellKeyed(index: Index) {
    forall h :: h in index ==> index[h].hash == h
  }

  // ----- reachability -----

  /** Exactly `n` parent links lead from `m` to a message without a parent. */
  predicate RootAt(index: Index, m: Message, n: nat)
    decreases n
  {
    match m.parent
    case None => n == 0
    case Some(p) => n > 0 && p in index && RootAt(index, index[p], n - 1)
  }

  ghost predicate Survives(index: Index, m: Message) {
    exists n: nat :: n < HARD_CAP && RootAt(index, m, n)
  }

  lemma {:induction false} RootAtUnique(index: Index, m: Message, a: nat, b: nat)
    requires RootAt(index, m, a) && RootAt(index, m, b)
    ensures a == b
    decreases a
  {
    if a > 0 {
      RootAtUnique(index, index[m.parent.value], a - 1, b - 1);
    }
  }

  /** The messages that stay. */
  ghost function Alive(index: Index): set<Message> {
    set h | h in index && Survives(index, index[h]) :: index[h]
  }

  ghost function Depth(index: Index, m: Message): (n: nat)
    requires Survives(index, m)
    ensures n < HARD_CAP && RootAt(index, m, n)
  {
    var n: nat :| n < HARD_CAP && RootAt(index, m, n);
    n
  }

  /** The parent of a survivor is a survivor, one link closer to its root. */
  lemma {:induction false} ParentSurvives(index: Index, m: Message)
    requires WellKeyed(index) && m in Alive(index) && m.parent.Some?
    ensures m.parent.value in index && index[m.parent.value] in Alive(index)
    ensures Depth(index, m) == Depth(index, index[m.parent.value]) + 1
  {
    var p := index[m.parent.value];
    var n := Depth(index, m);
    assert RootAt(index, p, n - 1);
    RootAtUnique(index, p, n - 1, Depth(index, p));
  }

  // ----- order (compareNodes) -----

  predicate Less(a: Message, b: Message) {
    a.timestamp < b.timestamp || (a.timestamp == b.timestamp && a.hash < b.hash)
  }

  ghost predicate Ordered(s: seq<Message>) {
    forall i, j :: 0 <= i < j < |s| ==> Less(s[i], s[j])
  }

  ghost predicate DistinctHashes(s: set<Message>) {
    forall a, b :: a in s && b in s && a != b ==> a.hash != b.hash
  }

  lemma {:induction false} LeastExists(s: set<Message>)
    requires s != {} && DistinctHashes(s)
    ensures exists x :: x in s && forall y :: y in s && y != x ==> Less(x, y)
  {
    var x :| x in s;
    var rest := s - {x};
    if rest != {} {
      LeastExists(rest);
      var y :| y in rest && forall z :: z in rest && z != y ==> Less(y, z);
      assert x.hash != y.hash;
      var least := if Less(x, y) then x else y;
      forall z | z in s && z != least ensures Less(least, z) {
        assert z == x || z == y || z in rest;
      }
    } else {
      assert s == {x};
    }
  }

  lemma {:induction false} Prepend(s: set<Message>, x: Message, r: seq<Message>)
    requires x in s && (forall y :: y in s && y != x ==> Less(x, y))
    requires Elements(r) == s - {x} && Ordered(r)
    ensures Elements([x] + r) == s && Ordered([x] + r)
  {
    assert forall y :: y in r ==> y in Elements(r);
    forall y ensures y in Elements([x] + r) <==> y in s {
      assert y in Elements(r) <==> y in s && y != x;
    }
  }

  /** The set in (timestamp, hash) order. */
  ghost function Listing(s: set<Message>): (r: seq<Message>)
    requires DistinctHashes(s)
    ensures Elements(r) == s && Ordered(r) && |r| == |s|
    decreases |s|
  {
    if s == {} then []
    else
      LeastExists(s);
      var x :| x in s && forall y :: y in s && y != x ==> Less(x, y);
      var r := Listing(s - {x});
      Prepend(s, x, r);
      [x] + r
  }

  lemma {:induction false} OrderedUnique(a: seq<Message>, b: seq<Message>)
    requires Ordered(a) && Ordered(b) && Elements(a) == Elements(b)
    ensures a == b
    decreases |a|
  {
    if a == [] {
      assert forall i :: 0 <= i < |b| ==> b[i] in Elements(b);
    } else {
      assert a[0] in Elements(b) && b != [];
      assert b[0] in Elements(a);
      var i :| 0 <= i < |b| && b[i] == a[0];
      var j :| 0 <= j < |a| && a[j] == b[0];
      assert a[0] == b[0];
      assert a == [a[0]] + a[1..] && b == [b[0]] + b[1..];
      assert Elements(a[1..]) == Elements(a) - {a[0]} by { assert a[0] !in a[1..]; }
      assert Elements(b[1..]) == Elements(b) - {b[0]} by { assert b[0] !in b[1..]; }
      OrderedUnique(a[1..], b[1..]);
    }
  }

  // ----- the forest -----

  function ClampDepth(d: int): (r: int)
    ensures r == if d < 0 then 0 else if d < 2 then d else 2
  {
    if d <= 0 then 0 else if d >= 2 then 2 else 1
  }

  datatype Tree = Tree(message: Message, depth: int, displayDepth: int, children: seq<Tree>)

  ghost function Kids(index: Index, parent: Option<Hash>): (s: set<Message>)
    requires WellKeyed(index)
    ensures DistinctHashes(s) && s <= Alive(index)
  {
    set m | m in Alive(index) && m.parent == parent
  }

  lemma {:induction false} KidDepth(index: Index, m: Message, k: Message)
    requires WellKeyed(index) && m in Alive(index) && k in Kids(index, Some(m.hash))
    ensures Depth(index, k) == Depth(index, m) + 1
  {
    ParentSurvives(index, k);
  }

  ghost function Subtree(index: Index, m: Message): Tree
    requires WellKeyed(index) && m in Alive(index)
    decreases HARD_CAP - Depth(index, m), 1
  {
    Tree(m, Depth(index, m), ClampDepth(Depth(index, m)), Subtrees(index, m, Listing(Kids(index, Some(m.hash)))))
  }

  ghost function Subtrees(index: Index, m: Message, kids: seq<Message>): (r: seq<Tree>)
    requires WellKeyed(index) && m in Alive(index)
    requires forall k :: k in kids ==> k in Kids(index, Some(m.hash))
    ensures |r| == |kids|
    decreases HARD_CAP - Depth(index, m), 0, |kids|
  {
    if kids == [] then []
    else
      KidDepth(index, m, kids[0]);
      [Subtree(index, kids[0])] + Subtrees(index, m, kids[1..])
  }

  ghost function Grow(index: Index, roots: seq<Message>): (r: seq<Tree>)
    requires WellKeyed(index) && forall m :: m in roots ==> m in Alive(index)
    ensures |r| == |roots| && forall i :: 0 <= i < |r| ==> r[i] == Subtree(index, roots[i])
  {
    if roots == [] then [] else [Subtree(index, roots[0])] + Grow(index, roots[1..])
  }

  /** The ordered forest of the surviving messages. */
  ghost function Forest(index: Index): seq<Tree>
    requires WellKeyed(index)
  {
    Grow(index, Listing(Kids(index, None)))
  }

  lemma {:induction false} SubtreesAt(index: Index, m: Message, kids: seq<Message>)
    requires WellKeyed(index) && m in Alive(index)
    requires forall k :: k in kids ==> k in Kids(index, Some(m.hash))
    ensures forall i :: 0 <= i < |kids| ==> kids[i] in kids && Subtrees(index, m, kids)[i] == Subtree(index, kids[i])
  {
    if kids != [] {
      SubtreesAt(index, m, kids[1..]);
      KidDepth(index, m, kids[0]);
      assert Subtrees(index, m, kids) == [Subtree(index, kids[0])] + Subtrees(index, m, kids[1..]);
      hide Subtree, Subtrees, Kids, WellKeyed;
    }
  }

  // ----- the forest holds exactly the survivors, each once -----

  function Flatten(t: Tree): seq<Message>
    decreases t
  {
    [t.message] + FlattenAll(t.children)
  }

  function FlattenAll(ts: seq<Tree>): seq<Message>
    decreases ts
  {
    if ts == [] then [] else Flatten(ts[0]) + FlattenAll(ts[1..])
  }

  /** The `k`-th parent. */
  function Ancestor(index: Index, x: Message, k: nat): Option<Message>
    decreases k
  {
    if k == 0 then Some(x)
    else if x.parent.Some? && x.parent.value in index then Ancestor(index, index[x.parent.value], k - 1)
    else None
  }

  lemma {:induction false} AncestorStep(index: Index, x: Message, k: nat, y: Message)
    requires Ancestor(index, x, k) == Some(y) && y.parent.Some? && y.parent.value in index
    ensures Ancestor(index, x, k + 1) == Some(index[y.parent.value])
    decreases k
  {
    if k > 0 {
      AncestorStep(index, index[x.parent.value], k - 1, y);
    }
  }

  /** `x` hangs below `m`: `m` is its parent `Depth(x) - Depth(m)` links up. */
  ghost predicate Below(index: Index, x: Message, m: Message)
    requires m in Alive(index)
  {
    && x in Alive(index)
    && Depth(index, x) >= Depth(index, m)
    && Ancestor(index, x, Depth(index, x) - Depth(index, m)) == Some(m)
  }

  lemma {:induction false} BelowKid(index: Index, m: Message, k: Message, x: Message)
    requires WellKeyed(index) && m in Alive(index) && k in Kids(index, Some(m.hash)) && Below(index, x, k)
    ensures Below(index, x, m) && Depth(index, x) > Depth(index, m)
  {
    KidDepth(index, m, k);
    AncestorStep(index, x, Depth(index, x) - Depth(index, k), k);
  }

  lemma {:induction false} SubtreeBelow(index: Index, m: Message, x: Message)
    requires WellKeyed(index) && m in Alive(index) && x in Flatten(Subtree(index, m))
    ensures Below(index, x, m)
    decreases HARD_CAP - Depth(index, m), 1
  {
    if x != m {
      SubtreesBelow(index, m, Listing(Kids(index, Some(m.hash))), x);
    }
  }

  lemma {:induction false} SubtreesBelow(index: Index, m: Message, kids: seq<Message>, x: Message)
    requires WellKeyed(index) && m in Alive(index)
    requires forall k :: k in kids ==> k in Kids(index, Some(m.hash))
    requires x in FlattenAll(Subtrees(index, m, kids))
    ensures Below(index, x, m) && Depth(index, x) > Depth(index, m)
    ensures exists k :: k in kids && Below(index, x, k)
    decreases HARD_CAP - Depth(index, m), 0, |kids|
  {
    KidDepth(index, m, kids[0]);
    if x in Flatten(Subtree(index, kids[0])) {
      SubtreeBelow(index, kids[0], x);
      BelowKid(index, m, kids[0], x);
    } else {
      assert Subtrees(index, m, kids)[1..] == Subtrees(index, m, kids[1..]);
      SubtreesBelow(index, m, kids[1..], x);
    }
  }

  /** Two survivors of one depth share nothing below them. */
  lemma {:induction false} BelowOne(index: Index, x: Message, a: Message, b: Message)
    requires a in Alive(index) && b in Alive(index) && Below(index, x, a) && Below(index, x, b)
    requires Depth(index, a) == Depth(index, b)
    ensures a == b
  {
  }

  lemma {:induction false} SubtreeDistinct(index: Index, m: Message)
    requires WellKeyed(index) && m in Alive(index)
    ensures Distinct(Flatten(Subtree(index, m)))
    decreases HARD_CAP - Depth(index, m), 1
  {
    var kids := Listing(Kids(index, Some(m.hash)));
    SubtreesDistinct(index, m, kids);
    forall x | x in FlattenAll(Subtrees(index, m, kids)) ensures x != m {
      SubtreesBelow(index, m, kids, x);
    }
    DistinctAppend([m], FlattenAll(Subtrees(index, m, kids)));
    assert Elements([m]) == {m};
  }

  lemma {:induction false} SubtreesDistinct(index: Index, m: Message, kids: seq<Message>)
    requires WellKeyed(index) && m in Alive(index) && Ordered(kids)
    requires forall k :: k in kids ==> k in Kids(index, Some(m.hash))
    ensures Distinct(FlattenAll(Subtrees(index, m, kids)))
    decreases HARD_CAP - Depth(index, m), 0, |kids|
  {
    if kids != [] {
      KidDepth(index, m, kids[0]);
      SubtreeDistinct(index, kids[0]);
      SubtreesDistinct(index, m, kids[1..]);
      var a, b := Flatten(Subtree(index, kids[0])), FlattenAll(Subtrees(index, m, kids[1..]));
      assert Subtrees(index, m, kids)[1..] == Subtrees(index, m, kids[1..]);
      assert forall k :: k in kids[1..] ==> Less(kids[0], k);
      forall x | x in a ensures x !in b {
        SubtreeBelow(index, kids[0], x);
        if x in b {
          SubtreesBelow(index, m, kids[1..], x);
          var k :| k in kids[1..] && Below(index, x, k);
          KidDepth(index, m, k);
          BelowOne(index, x, kids[0], k);
        }
      }
      DistinctAppend(a, b);
    }
  }

  lemma {:induction false} GrowBelow(index: Index, roots: seq<Message>, x: Message)
    requires WellKeyed(index) && forall m :: m in roots ==> m in Alive(index)
    requires x in FlattenAll(Grow(index, roots))
    ensures x in Alive(index) && exists r :: r in roots && Below(index, x, r)
  {
    if x in Flatten(Subtree(index, roots[0])) {
      SubtreeBelow(index, roots[0], x);
    } else {
      assert Grow(index, roots)[1..] == Grow(index, roots[1..]);
      GrowBelow(index, roots[1..], x);
    }
  }

  lemma {:induction false} GrowDistinct(index: Index, roots: seq<Message>)
    requires WellKeyed(index) && Ordered(roots)
    requires forall m :: m in roots ==> m in Alive(index) && m.parent == None
    ensures Distinct(FlattenAll(Grow(index, roots)))
  {
    if roots != [] {
      SubtreeDistinct(index, roots[0]);
      GrowDistinct(index, roots[1..]);
      var a, b := Flatten(Subtree(index, roots[0])), FlattenAll(Grow(index, roots[1..]));
      assert Grow(index, roots)[1..] == Grow(index, roots[1..]);
      assert forall r :: r in roots[1..] ==> Less(roots[0], r);
      forall x | x in a ensures x !in b {
        SubtreeBelow(index, roots[0], x);
        if x in b {
          GrowBelow(index, roots[1..], x);
          var r :| r in roots[1..] && Below(index, x, r);
          BelowOne(index, x, roots[0], r);
        }
      }
      DistinctAppend(a, b);
    }
  }

  lemma {:induction false} FlattenAllHolds(ts: seq<Tree>, i: nat, x: Message)
    requires i < |ts| && x in Flatten(ts[i])
    ensures x in FlattenAll(ts)
  {
    if i > 0 {
      FlattenAllHolds(ts[1..], i - 1, x);
    }
  }

  /** A subtree that holds a message holds its surviving replies. */
  lemma {:induction false} SubtreeClosed(index: Index, m: Message, p: Message, x: Message)
    requires WellKeyed(index) && m in Alive(index) && p in Flatten(Subtree(index, m))
    requires x in Kids(index, Some(p.hash))
    ensures x in Flatten(Subtree(index, m))
    decreases HARD_CAP - Depth(index, m), 1
  {
    var kids := Listing(Kids(index, Some(m.hash)));
    if p == m {
      assert x in Elements(kids);
      var i :| 0 <= i < |kids| && kids[i] == x;
      SubtreesAt(index, m, kids);
      FlattenAllHolds(Subtrees(index, m, kids), i, x);
    } else {
      SubtreesClosed(index, m, kids, p, x);
    }
  }

  lemma {:induction false} SubtreesClosed(index: Index, m: Message, kids: seq<Message>, p: Message, x: Message)
    requires WellKeyed(index) && m in Alive(index)
    requires forall k :: k in kids ==> k in Kids(index, Some(m.hash))
    requires p in FlattenAll(Subtrees(index, m, kids)) && x in Kids(index, Some(p.hash))
    ensures x in FlattenAll(Subtrees(index, m, kids))
    decreases HARD_CAP - Depth(index, m), 0, |kids|
  {
    KidDepth(index, m, kids[0]);
    if p in Flatten(Subtree(index, kids[0])) {
      SubtreeClosed(index, kids[0], p, x);
    } else {
      assert Subtrees(index, m, kids)[1..] == Subtrees(index, m, kids[1..]);
      SubtreesClosed(index, m, kids[1..], p, x);
    }
  }

  lemma {:induction false} GrowClosed(index: Index, roots: seq<Message>, p: Message, x: Message)
    requires WellKeyed(index) && forall m :: m in roots ==> m in Alive(index)
    requires p in FlattenAll(Grow(index, roots)) && x in Kids(index, Some(p.hash))
    ensures x in FlattenAll(Grow(index, roots))
  {
    if p in Flatten(Subtree(index, roots[0])) {
      SubtreeClosed(index, roots[0], p, x);
    } else {
      assert Grow(index, roots)[1..] == Grow(index, roots[1..]);
      GrowClosed(index, roots[1..], p, x);
    }
  }

  lemma {:induction false} ForestHolds(index: Index, x: Message)
    requires WellKeyed(index) && x in Alive(index)
    ensures x in FlattenAll(Forest(index))
    decreases Depth(index, x)
  {
    var roots := Listing(Kids(index, None));
    match x.parent
    case None =>
      assert x in Elements(roots);
      var i :| 0 <= i < |roots| && roots[i] == x;
      FlattenAllHolds(Grow(index, roots), i, x);
    case Some(h) =>
      ParentSurvives(index, x);
      ForestHolds(index, index[h]);
      GrowClosed(index, roots, index[h], x);
  }

  function Messages(ts: seq<Tree>): (r: seq<Message>)
    ensures |r| == |ts| && forall i :: 0 <= i < |ts| ==> r[i] == ts[i].message
  {
    if ts == [] then [] else [ts[0].message] + Messages(ts[1..])
  }

  /** What every node of the forest looks like, all the way down. */
  ghost predicate Shaped(t: Tree, parent: Option<Hash>, depth: int)
    decreases t
  {
    && t.message.parent == parent
    && t.depth == depth
    && t.displayDepth == (if depth < 2 then depth else 2)
    && Ordered(Messages(t.children))
    && (forall c :: c in t.children ==> Shaped(c, Some(t.message.hash), depth + 1))
  }

  lemma {:induction false} SubtreeShaped(index: Index, m: Message)
    requires WellKeyed(index) && m in Alive(index)
    ensures Shaped(Subtree(index, m), m.parent, Depth(index, m))
    decreases HARD_CAP - Depth(index, m), 1
  {
    var kids := Listing(Kids(index, Some(m.hash)));
    hide Alive, Survives;
    assert forall k :: k in kids ==> k in Elements(kids);
    SubtreesShaped(index, m, kids);
    var ts := Subtrees(index, m, kids);
    assert Subtree(index, m) == Tree(m, Depth(index, m), ClampDepth(Depth(index, m)), ts);
    hide Subtree, Subtrees, Messages, Kids;
  }

  lemma {:induction false} SubtreesShaped(index: Index, m: Message, kids: seq<Message>)
    requires WellKeyed(index) && m in Alive(index)
    requires forall k :: k in kids ==> k in Kids(index, Some(m.hash))
    ensures Messages(Subtrees(index, m, kids)) == kids
    ensures forall t :: t in Subtrees(index, m, kids) ==> Shaped(t, Some(m.hash), Depth(index, m) + 1)
    decreases HARD_CAP - Depth(index, m), 0, |kids|
  {
    if kids != [] {
      KidDepth(index, m, kids[0]);
      SubtreeShaped(index, kids[0]);
      SubtreesShaped(index, m, kids[1..]);
      hide Shaped, Survives;
      var rest := Subtrees(index, m, kids[1..]);
      assert Subtrees(index, m, kids) == [Subtree(index, kids[0])] + rest;
      hide Subtrees;
    }
  }

  lemma {:induction false} GrowShaped(index: Index, roots: seq<Message>)
    requires WellKeyed(index) && forall m :: m in roots ==> m in Alive(index) && m.parent == None
    ensures Messages(Grow(index, roots)) == roots
    ensures forall t :: t in Grow(index, roots) ==> Shaped(t, None, 0)
  {
    if roots != [] {
      SubtreeShaped(index, roots[0]);
      RootAtUnique(index, roots[0], 0, Depth(index, roots[0]));
      GrowShaped(index, roots[1..]);
      hide Shaped, Survives, Alive;
      var rest := Grow(index, roots[1..]);
      assert Grow(index, roots) == [Subtree(index, roots[0])] + rest;
      hide Grow, Subtree;
    }
  }

  lemma {:induction false} ForestElements(index: Index)
    requires WellKeyed(index)
    ensures Elements(FlattenAll(Forest(index))) == Alive(index)
  {
    hide Survives, FlattenAll;
    var roots := Listing(Kids(index, None));
    assert forall r :: r in roots ==> r in Elements(roots);
    forall x ensures x in FlattenAll(Forest(index)) <==> x in Alive(index) {
      if x in FlattenAll(Forest(index)) {
        GrowBelow(index, roots, x);
      }
      if x in Alive(index) {
        ForestHolds(index, x);
      }
    }
  }

  /**
   * The forest holds the message stored last for each hash whose parent links reach a parentless message in at most
   * 1023 steps, once each, and nothing else; its roots are the parentless ones, and below them depth grows by one a
   * link and siblings stand in (timestamp, hash) order.
   */
  lemma {:induction false} ForestHoldsSurvivors(messages: seq<Message>)
    ensures WellKeyed(ByHash(messages))
    ensures Elements(FlattenAll(Forest(ByHash(messages)))) == Alive(ByHash(messages))
    ensures Distinct(FlattenAll(Forest(ByHash(messages))))
    ensures forall t :: t in Forest(ByHash(messages)) ==> Shaped(t, None, 0)
    ensures Ordered(Messages(Forest(ByHash(messages))))
  {
    hide Shaped, Survives, FlattenAll, Ordered;
    ByHashIs(messages);
    var index := ByHash(messages);
    var roots := Listing(Kids(index, None));
    assert forall r :: r in roots ==> r in Elements(roots);
    ForestElements(index);
    GrowDistinct(index, roots);
    GrowShaped(index, roots);
  }

  // ----- arrival order does not matter -----

  ghost predicate DistinctList(messages: seq<Message>) {
    forall i, j :: 0 <= i < j < |messages| ==> messages[i].hash != messages[j].hash
  }

  lemma {:induction false} ByHashOfDistinct(messages: seq<Message>, m: Message)
    requires DistinctList(messages) && m in messages
    ensures m.hash in ByHash(messages) && ByHash(messages)[m.hash] == m
  {
    var n := |messages| - 1;
    if m != messages[n] {
      assert messages == messages[..n] + [messages[n]];
      assert m in messages[..n];
      ByHashOfDistinct(messages[..n], m);
    }
  }

  /** Two arrival orders of the same messages give the same ordered forest. */
  lemma {:induction false} ForestIgnoresArrivalOrder(a: seq<Message>, b: seq<Message>)
    requires multiset(a) == multiset(b) && DistinctList(a)
    ensures WellKeyed(ByHash(a)) && WellKeyed(ByHash(b)) && Forest(ByHash(a)) == Forest(ByHash(b))
  {
    ByHashIs(a);
    ByHashIs(b);
    forall i, j | 0 <= i < j < |b| ensures b[i].hash != b[j].hash {
      DistinctAfterShuffle(a, b, i, j);
    }
    forall h | h in ByHash(a) || h in ByHash(b)
      ensures h in ByHash(a) && h in ByHash(b) && ByHash(a)[h] == ByHash(b)[h]
    {
      var m := if h in ByHash(a) then ByHash(a)[h] else ByHash(b)[h];
      assert m in multiset(a) && m in multiset(b);
      ByHashOfDistinct(a, m);
      ByHashOfDistinct(b, m);
    }
    assert ByHash(a) == ByHash(b);
  }

  lemma {:induction false} DistinctAfterShuffle(a: seq<Message>, b: seq<Message>, i: nat, j: nat)
    requires multiset(a) == multiset(b) && DistinctList(a) && i < j < |b|
    ensures b[i].hash != b[j].hash
  {
    SameMembers(a, b);
    DistinctShuffle(a, b);
    assert b[i] in a && b[j] in a && b[i] != b[j];
  }
}
