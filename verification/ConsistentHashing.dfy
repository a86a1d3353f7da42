/** The consistent-hash ring: virtual nodes on a 32-bit circle, routing to the first point clockwise, and what
    adding or removing a node does to the routing of all keys. The checksum is any function `hash`. */
module ConsistentHashing {

  const CIRCLE: nat := 0x1_0000_0000
  type Hash = h: nat | h < CIRCLE
  type Node = string

  function Decimal(n: nat): string {
    var digit := ['0' + (n % 10) as char];
    if n < 10 then digit else Decimal(n / 10) + digit
  }

  function VnodeKey(node: Node, i: nat): string {
    node + "#" + Decimal(i)
  }

  // ---------------------------------------------------------------- the keys of virtual nodes

  /** What a string of digits says. */
  function Reading(s: string): nat {
    if s == [] then 0
    else
      var d := s[|s| - 1] as int - '0' as int;
      10 * Reading(s[..|s| - 1]) + if d >= 0 then d else 0
  }

  predicate Digits(s: string) {
    s != [] && forall i :: 0 <= i < |s| ==> '0' <= s[i] <= '9'
  }

  lemma {:induction false} DecimalReads(n: nat)
    ensures Digits(Decimal(n)) && Reading(Decimal(n)) == n
  {
    var digit := ['0' + (n % 10) as char];
    assert digit[..0] == [] && Reading(digit) == n % 10;
    if n >= 10 {
      DecimalReads(n / 10);
      var front := Decimal(n / 10);
      assert (front + digit)[..|front|] == front;
    }
  }

  /** Every virtual node of every node has a key of its own. */
  lemma VnodeKeysDistinct(n: Node, m: Node, i: nat, j: nat)
    ensures VnodeKey(n, i) == VnodeKey(m, j) <==> n == m && i == j
  {
    DecimalReads(i);
    DecimalReads(j);
    if VnodeKey(n, i) == VnodeKey(m, j) {
      SameTail(n, Decimal(i), m, Decimal(j));
    }
  }

  /** Digits after the '#' leave no room for another one. */
  lemma NotShorter(n: Node, d: string, m: Node, e: string)
    requires n + "#" + d == m + "#" + e && Digits(d)
    ensures |n| >= |m|
  {
    var s := n + "#" + d;
    forall k | |n| < k < |s| ensures s[k] != '#' { assert s[k] == d[k - |n| - 1]; }
    assert (m + "#" + e)[|m|] == '#';
  }

  /** The last '#' of a key is where the name ends, whatever the name is. */
  lemma SameTail(n: Node, d: string, m: Node, e: string)
    requires n + "#" + d == m + "#" + e && Digits(d) && Digits(e)
    ensures n == m && d == e
  {
    NotShorter(n, d, m, e);
    NotShorter(m, e, n, d);
    var s := n + "#" + d;
    assert s[..|n|] == n && s[..|m|] == m;
    assert s[|n| + 1..] == d && s[|m| + 1..] == e;
  }

  /** The points a node puts on the ring, in the order in which AddNode appends them. */
  function NodePoints(hash: string -> Hash, node: Node, replicas: nat): seq<Hash> {
    if replicas == 0 then [] else NodePoints(hash, node, replicas - 1) + [hash(VnodeKey(node, replicas - 1))]
  }

  datatype Ring = Ring(points: seq<Hash>, owners: map<Hash, Node>, nodes: set<Node>)

  const EMPTY := Ring([], map[], {})

  /** A Go map lookup: the empty string if there is no owner. */
  function OwnerOf(owners: map<Hash, Node>, p: Hash): Node {
    if p in owners then owners[p] else ""
  }

  // ---------------------------------------------------------------- sorting

  ghost predicate Sorted(s: seq<Hash>) {
    forall i, j :: 0 <= i < j < |s| ==> s[i] <= s[j]
  }

  ghost predicate StrictlySorted(s: seq<Hash>) {
    forall i, j :: 0 <= i < j < |s| ==> s[i] < s[j]
  }

  function Insert(s: seq<Hash>, x: Hash): seq<Hash> {
    if s == [] || x <= s[0] then [x] + s else [s[0]] + Insert(s[1..], x)
  }

  lemma {:induction false} InsertBag(s: seq<Hash>, x: Hash)
    ensures multiset(Insert(s, x)) == multiset(s) + multiset{x}
  {
    if s != [] && s[0] < x {
      InsertBag(s[1..], x);
      assert s == [s[0]] + s[1..];
    }
  }

  lemma {:induction false} InsertSorted(s: seq<Hash>, x: Hash)
    requires Sorted(s)
    ensures Sorted(Insert(s, x)) && |Insert(s, x)| == |s| + 1
    ensures forall i :: 0 <= i <= |s| ==> Insert(s, x)[i] == x || Insert(s, x)[i] in s
  {
    if s != [] && s[0] < x {
      InsertSorted(s[1..], x);
    }
  }

  /** slices.Sort. */
  function Sort(s: seq<Hash>): (r: seq<Hash>)
    ensures multiset(r) == multiset(s) && Sorted(r)
  {
    if s == [] then []
    else
      var rest := Sort(s[1..]);
      assert s == [s[0]] + s[1..];
      InsertBag(rest, s[0]);
      InsertSorted(rest, s[0]);
      Insert(rest, s[0])
  }

  lemma SortElements(s: seq<Hash>)
    ensures forall p :: p in Sort(s) <==> p in s
  {
    forall p ensures p in Sort(s) <==> p in s {
      assert p in Sort(s) <==> p in multiset(Sort(s));
      assert p in s <==> p in multiset(s);
    }
  }

  // ---------------------------------------------------------------- AddNode and RemoveNode on values

  function Claim(owners: map<Hash, Node>, points: seq<Hash>, node: Node): map<Hash, Node> {
    if points == [] then owners else Claim(owners, points[..|points| - 1], node)[points[|points| - 1] := node]
  }

  function Add(hash: string -> Hash, replicas: nat, r: Ring, node: Node): Ring {
    if node in r.nodes then r
    else
      var added := NodePoints(hash, node, replicas);
      Ring(Sort(r.points + added), Claim(r.owners, added, node), r.nodes + {node})
  }

  datatype Kept = Kept(points: seq<Hash>, owners: map<Hash, Node>)

  /** The compaction loop of RemoveNode over a prefix of the ring. */
  function Compact(points: seq<Hash>, owners: map<Hash, Node>, node: Node): Kept {
    if points == [] then Kept([], owners)
    else
      var k, p := Compact(points[..|points| - 1], owners, node), points[|points| - 1];
      if OwnerOf(k.owners, p) == node then k.(owners := k.owners - {p}) else k.(points := k.points + [p])
  }

  function Remove(r: Ring, node: Node): Ring {
    if node !in r.nodes then r
    else
      var k := Compact(r.points, r.owners, node);
      Ring(k.points, k.owners, r.nodes - {node})
  }

  // ---------------------------------------------------------------- routing

  /** How far `p` is clockwise from `h`. */
  function Clockwise(h: Hash, p: Hash): nat {
    if h <= p then p - h else p + CIRCLE - h
  }

  /** The difference modulo 2^32. */
  function Ahead(h: int, p: int): nat {
    (p - h) % 0x1_0000_0000
  }

  lemma ClockwiseIs(h: Hash, p: Hash)
    ensures Clockwise(h, p) == Ahead(h, p)
  {
  }

  /** No point of the ring is less far ahead of `h` than the one at `i`. */
  ghost predicate LeastAhead(points: seq<Hash>, h: Hash, i: nat) {
    i < |points| && forall j: nat :: j < |points| ==> Ahead(h, points[i]) <= Ahead(h, points[j])
  }

  lemma NearestIsLeastAhead(points: seq<Hash>, h: Hash, i: nat)
    requires i < |points| && Nearest(points, h, points[i])
    ensures LeastAhead(points, h, i)
  {
    forall j: nat | j < |points| ensures Ahead(h, points[i]) <= Ahead(h, points[j]) {
      ClockwiseIs(h, points[i]);
      ClockwiseIs(h, points[j]);
      assert points[j] in points;
    }
  }

  /** `p` is the first ring point met walking clockwise from `h`. */
  ghost predicate Nearest(points: seq<Hash>, h: Hash, p: Hash) {
    p in points && forall q :: q in points ==> Clockwise(h, p) <= Clockwise(h, q)
  }

  lemma NearestUnique(points: seq<Hash>, h: Hash, p: Hash, q: Hash)
    requires Nearest(points, h, p) && Nearest(points, h, q)
    ensures p == q
  {
    assert Clockwise(h, p) == Clockwise(h, q);
  }

  /** In a sorted ring, the first index whose point is not below `h`, or index 0 past the end, is nearest. */
  lemma SearchFindsNearest(points: seq<Hash>, h: Hash, idx: nat)
    requires Sorted(points) && points != [] && idx <= |points|
    requires forall i :: 0 <= i < idx ==> points[i] < h
    requires forall i :: idx <= i < |points| ==> h <= points[i]
    ensures Nearest(points, h, points[if idx == |points| then 0 else idx])
  {
    var p := points[if idx == |points| then 0 else idx];
    forall q | q in points ensures Clockwise(h, p) <= Clockwise(h, q) {
      var i :| 0 <= i < |points| && points[i] == q;
    }
  }

  /** The nearest point exists. */
  lemma {:induction false} NearestExists(points: seq<Hash>, h: Hash)
    requires points != []
    ensures exists p :: Nearest(points, h, p)
  {
    var front, last := points[..|points| - 1], points[|points| - 1];
    assert points == front + [last];
    if front == [] {
      assert Nearest(points, h, last);
    } else {
      NearestExists(front, h);
      var p :| Nearest(front, h, p);
      assert Nearest(points, h, if Clockwise(h, last) < Clockwise(h, p) then last else p);
    }
  }

  /** The owner that routing must find: that of the nearest point. */
  ghost function Route(r: Ring, h: Hash): Node {
    if r.points == [] then ""
    else
      NearestExists(r.points, h);
      var p :| Nearest(r.points, h, p);
      OwnerOf(r.owners, p)
  }

  lemma RouteIs(r: Ring, h: Hash, p: Hash)
    requires Nearest(r.points, h, p)
    ensures Route(r, h) == OwnerOf(r.owners, p)
  {
    assert forall q :: Nearest(r.points, h, q) ==> q == p by {
      forall q | Nearest(r.points, h, q) ensures q == p { NearestUnique(r.points, h, p, q); }
    }
  }

  // ---------------------------------------------------------------- adding a node, collisions or not

  lemma {:induction false} ClaimOwners(owners: map<Hash, Node>, points: seq<Hash>, node: Node, p: Hash)
    ensures p in Claim(owners, points, node) <==> p in owners || p in points
    ensures OwnerOf(Claim(owners, points, node), p) == if p in points then node else OwnerOf(owners, p)
  {
    if points != [] {
      ClaimOwners(owners, points[..|points| - 1], node, p);
      assert points == points[..|points| - 1] + [points[|points| - 1]];
    }
  }

  /** After AddNode of a new node every key keeps its owner or moves to the new node. */
  lemma AddKeepsOrTakes(hash: string -> Hash, replicas: nat, r: Ring, node: Node, h: Hash)
    requires node !in r.nodes
    ensures var r' := Add(hash, replicas, r, node); Route(r', h) == Route(r, h) || Route(r', h) == node
  {
    var added := NodePoints(hash, node, replicas);
    var r' := Add(hash, replicas, r, node);
    SortElements(r.points + added);
    assert |r'.points| == |r.points| + |added| by {
      assert |multiset(r'.points)| == |multiset(r.points + added)|;
    }
    if r'.points != [] {
      NearestExists(r'.points, h);
      var p :| Nearest(r'.points, h, p);
      RouteIs(r', h, p);
      ClaimOwners(r.owners, added, node, p);
      if p !in added {
        assert Nearest(r.points, h, p);
        RouteIs(r, h, p);
      }
    }
  }

  /** Owners are nodes of the ring. */
  ghost predicate OwnersListed(r: Ring) {
    forall p :: p in r.owners ==> r.owners[p] in r.nodes
  }

  lemma RouteListed(r: Ring, h: Hash)
    requires OwnersListed(r)
    ensures Route(r, h) == "" || Route(r, h) in r.nodes
  {
  }

  /** `placement`: the owner of every key. */
  ghost function Placement(hash: string -> Hash, r: Ring, keys: set<string>): map<string, Node> {
    map k | k in keys :: Route(r, hash(k))
  }

  /** A Go map lookup. */
  function NodeAt(m: map<string, Node>, k: string): Node {
    if k in m then m[k] else ""
  }

  ghost function MovedKeys(before: map<string, Node>, after: map<string, Node>): set<string> {
    set k | k in before && NodeAt(after, k) != before[k]
  }

  /** So the keys that moved are exactly the keys the new node owns now. */
  lemma MovedIsTaken(hash: string -> Hash, replicas: nat, r: Ring, node: Node, keys: set<string>)
    requires node !in r.nodes && node != "" && OwnersListed(r)
    ensures var after := Placement(hash, Add(hash, replicas, r, node), keys);
            MovedKeys(Placement(hash, r, keys), after) == set k | k in after && after[k] == node
  {
    forall k | k in keys
      ensures Route(Add(hash, replicas, r, node), hash(k)) == Route(r, hash(k))
              || Route(Add(hash, replicas, r, node), hash(k)) == node
      ensures Route(r, hash(k)) != node
    {
      AddKeepsOrTakes(hash, replicas, r, node, hash(k));
      RouteListed(r, hash(k));
    }
  }

  // ---------------------------------------------------------------- removing a node

  /** No point of the removed node is on the ring twice. */
  ghost predicate NoTwin(points: seq<Hash>, owners: map<Hash, Node>, node: Node) {
    forall i, j :: 0 <= i < j < |points| && points[i] == points[j] ==> OwnerOf(owners, points[i]) != node
  }

  /** Which points stay, which owners stay, as far as the loop has come. */
  lemma {:induction false} CompactOwners(points: seq<Hash>, owners: map<Hash, Node>, node: Node, p: Hash)
    requires node != ""
    ensures var k := Compact(points, owners, node);
            && (p in k.owners <==> p in owners && !(p in points && owners[p] == node))
            && (p in k.owners ==> k.owners[p] == owners[p])
  {
    if points != [] {
      CompactOwners(points[..|points| - 1], owners, node, p);
      CompactOwners(points[..|points| - 1], owners, node, points[|points| - 1]);
      assert points == points[..|points| - 1] + [points[|points| - 1]];
    }
  }

  lemma FrontNoTwin(points: seq<Hash>, owners: map<Hash, Node>, node: Node)
    requires points != [] && NoTwin(points, owners, node)
    ensures var front, last := points[..|points| - 1], points[|points| - 1];
            NoTwin(front, owners, node) && (last in front ==> OwnerOf(owners, last) != node)
  {
    var front, last := points[..|points| - 1], points[|points| - 1];
    assert forall i :: 0 <= i < |front| ==> front[i] == points[i];
    if last in front {
      var i :| 0 <= i < |front| && front[i] == last;
      assert points[i] == points[|points| - 1];
    }
  }

  lemma {:induction false} CompactPoints(points: seq<Hash>, owners: map<Hash, Node>, node: Node, p: Hash)
    requires node != "" && NoTwin(points, owners, node)
    ensures p in Compact(points, owners, node).points <==> p in points && OwnerOf(owners, p) != node
  {
    if points != [] {
      var front, last := points[..|points| - 1], points[|points| - 1];
      assert points == front + [last];
      assert NoTwin(front, owners, node) && (last in front ==> OwnerOf(owners, last) != node) by {
        FrontNoTwin(points, owners, node);
      }
      hide NoTwin;
      CompactPoints(front, owners, node, p);
      CompactOwners(front, owners, node, last);
      CompactSnoc(front, owners, node, last);
      hide Compact;
    }
  }

  /** The second copy of a removed point stays on the ring. */
  lemma {:induction false} TwinStays(points: seq<Hash>, owners: map<Hash, Node>, node: Node, i: nat, j: nat)
    requires node != "" && i < j < |points| && points[i] == points[j] && OwnerOf(owners, points[i]) == node
    ensures points[i] in Compact(points, owners, node).points
  {
    var front := points[..|points| - 1];
    if j < |front| {
      TwinStays(front, owners, node, i, j);
    } else {
      CompactOwners(front, owners, node, points[i]);
      assert front[i] == points[i];
    }
  }

  /** RemoveNode leaves every point of the ring with an owner exactly when no point of the removed node was on
      the ring twice. */
  lemma RemoveLeavesOwnersExactly(r: Ring, node: Node)
    requires node != "" && node in r.nodes
    requires forall p :: p in r.points ==> p in r.owners
    ensures (forall p :: p in Remove(r, node).points ==> p in Remove(r, node).owners) <==>
              NoTwin(r.points, r.owners, node)
  {
    var r' := Remove(r, node);
    if NoTwin(r.points, r.owners, node) {
      forall p | p in r'.points ensures p in r'.owners {
        CompactPoints(r.points, r.owners, node, p);
        CompactOwners(r.points, r.owners, node, p);
      }
    } else {
      var i, j :| 0 <= i < j < |r.points| && r.points[i] == r.points[j] && OwnerOf(r.owners, r.points[i]) == node;
      TwinStays(r.points, r.owners, node, i, j);
      CompactOwners(r.points, r.owners, node, r.points[i]);
      assert r.points[i] in r'.points && r.points[i] !in r'.owners;
    }
  }

  lemma {:induction false} TwoCopies(s: seq<Hash>, p: Hash)
    requires multiset(s)[p] >= 2
    ensures exists i, j :: 0 <= i < j < |s| && s[i] == s[j] == p
  {
    var front, last := s[..|s| - 1], s[|s| - 1];
    assert s == front + [last];
    if last != p {
      TwoCopies(front, p);
      var i, j :| 0 <= i < j < |front| && front[i] == front[j] == p;
      assert s[i] == s[j] == p;
    } else {
      assert p in front;
      var i :| 0 <= i < |front| && front[i] == p;
      assert s[i] == s[|s| - 1] == p;
    }
  }

  /** Adding and removing a node one of whose points was on the ring already leaves the keys at that point
      without an owner. */
  lemma CollisionLosesOwner(hash: string -> Hash, replicas: nat, r: Ring, node: Node, p: Hash)
    requires node !in r.nodes && node != "" && p in r.points && p in NodePoints(hash, node, replicas)
    ensures Route(Remove(Add(hash, replicas, r, node), node), p) == ""
  {
    var added := NodePoints(hash, node, replicas);
    var r1 := Add(hash, replicas, r, node);
    assert multiset(r1.points)[p] >= 2 by {
      assert multiset(r.points + added) == multiset(r.points) + multiset(added);
      assert p in multiset(r.points) && p in multiset(added);
    }
    TwoCopies(r1.points, p);
    var i, j :| 0 <= i < j < |r1.points| && r1.points[i] == r1.points[j] == p;
    ClaimOwners(r.owners, added, node, p);
    TwinStays(r1.points, r1.owners, node, i, j);
    CompactOwners(r1.points, r1.owners, node, p);
    var r2 := Remove(r1, node);
    assert Nearest(r2.points, p, p);
    RouteIs(r2, p, p);
  }

  lemma {:induction false} CompactKeeps(points: seq<Hash>, owners: map<Hash, Node>, node: Node, p: Hash)
    requires p in points && OwnerOf(owners, p) != node && node != ""
    ensures p in Compact(points, owners, node).points
  {
    var front, last := points[..|points| - 1], points[|points| - 1];
    assert points == front + [last];
    if p in front {
      CompactKeeps(front, owners, node, p);
    } else {
      CompactOwners(front, owners, node, p);
    }
  }

  lemma {:induction false} CompactAddsNothing(points: seq<Hash>, owners: map<Hash, Node>, node: Node, p: Hash)
    requires p in Compact(points, owners, node).points
    ensures p in points
  {
    if p !in points[..|points| - 1] && p != points[|points| - 1] {
      CompactAddsNothing(points[..|points| - 1], owners, node, p);
    }
  }

  /** RemoveNode moves only the keys the removed node owned, whatever collisions there are on the ring. */
  lemma RemoveKeepsOthers(r: Ring, node: Node, h: Hash)
    requires node in r.nodes && node != "" && Route(r, h) != node
    ensures Route(Remove(r, node), h) == Route(r, h)
  {
    var r' := Remove(r, node);
    forall p | p in r'.points ensures p in r.points {
      CompactAddsNothing(r.points, r.owners, node, p);
    }
    if r.points != [] {
      NearestExists(r.points, h);
      var p :| Nearest(r.points, h, p);
      RouteIs(r, h, p);
      CompactKeeps(r.points, r.owners, node, p);
      CompactOwners(r.points, r.owners, node, p);
      assert Nearest(r'.points, h, p);
      RouteIs(r', h, p);
    }
  }

  // ---------------------------------------------------------------- the ring depends only on the node set

  /** No two virtual nodes of these nodes hash to the same point. */
  ghost predicate Distinct(hash: string -> Hash, replicas: nat, nodes: set<Node>) {
    forall n, m, i: nat, j: nat ::
      (n in nodes && m in nodes && i < replicas && j < replicas && hash(VnodeKey(n, i)) == hash(VnodeKey(m, j)))
      ==> n == m && i == j
  }

  /** The hash tells the keys of these virtual nodes apart. */
  ghost predicate TellsApart(hash: string -> Hash, replicas: nat, nodes: set<Node>) {
    forall n, m, i: nat, j: nat ::
      (n in nodes && m in nodes && i < replicas && j < replicas && hash(VnodeKey(n, i)) == hash(VnodeKey(m, j)))
      ==> VnodeKey(n, i) == VnodeKey(m, j)
  }

  /** Points are shared only if the hash collides: the keys themselves are all different. */
  lemma DistinctExactly(hash: string -> Hash, replicas: nat, nodes: set<Node>)
    ensures Distinct(hash, replicas, nodes) <==> TellsApart(hash, replicas, nodes)
  {
    forall n, m, i: nat, j: nat
      | n in nodes && m in nodes && i < replicas && j < replicas && hash(VnodeKey(n, i)) == hash(VnodeKey(m, j))
      ensures VnodeKey(n, i) == VnodeKey(m, j) <==> n == m && i == j
    {
      VnodeKeysDistinct(n, m, i, j);
    }
    hide VnodeKey;
  }

  /** `p` is a point of node `n`. */
  ghost predicate PointOf(hash: string -> Hash, replicas: nat, n: Node, p: Hash) {
    exists i: nat :: i < replicas && hash(VnodeKey(n, i)) == p
  }

  /** The ring that the node set calls for: exactly its points, in order, each with its node as owner. */
  ghost predicate Canonical(hash: string -> Hash, replicas: nat, r: Ring) {
    && StrictlySorted(r.points)
    && (forall p :: p in r.points <==> p in r.owners)
    && (forall p :: p in r.owners ==> r.owners[p] in r.nodes && PointOf(hash, replicas, r.owners[p], p))
    && (forall n, p :: n in r.nodes && PointOf(hash, replicas, n, p) ==> p in r.owners)
  }

  lemma {:induction false} NodePointsAre(hash: string -> Hash, node: Node, replicas: nat, p: Hash)
    ensures p in NodePoints(hash, node, replicas) <==> PointOf(hash, replicas, node, p)
    ensures |NodePoints(hash, node, replicas)| == replicas
    ensures forall i: nat :: i < replicas ==> NodePoints(hash, node, replicas)[i] == hash(VnodeKey(node, i))
  {
    if replicas > 0 {
      NodePointsAre(hash, node, replicas - 1, p);
    }
  }

  lemma PointsDisjoint(hash: string -> Hash, replicas: nat, nodes: set<Node>, n: Node, m: Node, p: Hash)
    requires Distinct(hash, replicas, nodes) && n in nodes && m in nodes
    requires PointOf(hash, replicas, n, p) && PointOf(hash, replicas, m, p)
    ensures n == m
  {
  }

  lemma TwiceCounts(s: seq<Hash>, i: nat, j: nat)
    requires i < j < |s|
    ensures s[i] == s[j] ==> multiset(s)[s[j]] >= 2
  {
    assert s == s[..j] + [s[j]] + s[j + 1..];
    assert s[..j][i] == s[i];
    assert s[i] in multiset(s[..j]);
  }

  lemma StrictFromSorted(s: seq<Hash>)
    requires Sorted(s) && forall p :: multiset(s)[p] <= 1
    ensures StrictlySorted(s)
  {
    forall i, j | 0 <= i < j < |s| ensures s[i] < s[j] {
      TwiceCounts(s, i, j);
    }
  }

  /** A sequence without repetition counts each element once. */
  lemma {:induction false} NoRepeatCount(s: seq<Hash>, p: Hash)
    requires forall i, j :: 0 <= i < j < |s| ==> s[i] != s[j]
    ensures multiset(s)[p] == if p in s then 1 else 0
  {
    if s != [] {
      NoRepeatCount(s[..|s| - 1], p);
      assert s == s[..|s| - 1] + [s[|s| - 1]];
    }
  }

  lemma AddStrict(hash: string -> Hash, replicas: nat, r: Ring, node: Node)
    requires Canonical(hash, replicas, r) && node !in r.nodes && Distinct(hash, replicas, r.nodes + {node})
    ensures StrictlySorted(Sort(r.points + NodePoints(hash, node, replicas)))
  {
    var added := NodePoints(hash, node, replicas);
    var all := r.points + added;
    forall p ensures multiset(all)[p] <= 1 {
      NodePointsAre(hash, node, replicas, p);
      assert multiset(all) == multiset(r.points) + multiset(added);
      NoRepeatCount(r.points, p);
      NoRepeatCount(added, p);
      if p in r.points && p in added {
        PointsDisjoint(hash, replicas, r.nodes + {node}, node, r.owners[p], p);
      }
    }
    assert multiset(Sort(all)) == multiset(all);
    StrictFromSorted(Sort(all));
  }

  lemma AddCanonical(hash: string -> Hash, replicas: nat, r: Ring, node: Node)
    requires Canonical(hash, replicas, r) && Distinct(hash, replicas, r.nodes + {node})
    ensures Canonical(hash, replicas, Add(hash, replicas, r, node))
  {
    if node !in r.nodes {
      var added := NodePoints(hash, node, replicas);
      var r' := Add(hash, replicas, r, node);
      AddStrict(hash, replicas, r, node);
      SortElements(r.points + added);
      forall p
        ensures p in r'.owners <==> p in r.owners || PointOf(hash, replicas, node, p)
        ensures p in r'.points <==> p in r.points || PointOf(hash, replicas, node, p)
        ensures OwnerOf(r'.owners, p) == if PointOf(hash, replicas, node, p) then node else OwnerOf(r.owners, p)
      {
        NodePointsAre(hash, node, replicas, p);
        ClaimOwners(r.owners, added, node, p);
      }
      forall p | p in r'.owners ensures r'.owners[p] in r'.nodes && PointOf(hash, replicas, r'.owners[p], p) {
        assert OwnerOf(r'.owners, p) == r'.owners[p];
      }
    }
  }

  /** Compaction keeps the order, and keeps every point of the other nodes. */
  lemma {:induction false} CompactOrder(points: seq<Hash>, owners: map<Hash, Node>, node: Node)
    requires StrictlySorted(points)
    ensures var k := Compact(points, owners, node).points;
            StrictlySorted(k) && forall i :: 0 <= i < |k| ==> k[i] in points
  {
    if points != [] {
      CompactOrder(points[..|points| - 1], owners, node);
      assert points == points[..|points| - 1] + [points[|points| - 1]];
    }
  }

  lemma RemoveCanonical(hash: string -> Hash, replicas: nat, r: Ring, node: Node)
    requires Canonical(hash, replicas, r) && Distinct(hash, replicas, r.nodes) && node != ""
    ensures Canonical(hash, replicas, Remove(r, node))
  {
    if node in r.nodes {
      var r' := Remove(r, node);
      CompactOrder(r.points, r.owners, node);
      forall p
        ensures p in r'.points <==> p in r.points && OwnerOf(r.owners, p) != node
        ensures p in r'.owners <==> p in r.owners && r.owners[p] != node
        ensures p in r'.owners ==> r'.owners[p] == r.owners[p]
      {
        CompactPoints(r.points, r.owners, node, p);
        CompactOwners(r.points, r.owners, node, p);
      }
      forall n, p | n in r'.nodes && PointOf(hash, replicas, n, p) ensures p in r'.owners {
        PointsDisjoint(hash, replicas, r.nodes, n, r.owners[p], p);
      }
    }
  }

  lemma SameLast(s: seq<Hash>, t: seq<Hash>)
    requires StrictlySorted(s) && StrictlySorted(t) && s != [] && t != [] && forall p :: p in s <==> p in t
    ensures s[|s| - 1] == t[|t| - 1]
  {
    var x, y := s[|s| - 1], t[|t| - 1];
    assert x in t && y in s;
    var i :| 0 <= i < |t| && t[i] == x;
    var j :| 0 <= j < |s| && s[j] == y;
  }

  lemma ButLast(s: seq<Hash>, p: Hash)
    requires StrictlySorted(s) && s != []
    ensures p in s[..|s| - 1] <==> p in s && p != s[|s| - 1]
  {
    assert s == s[..|s| - 1] + [s[|s| - 1]];
  }

  lemma {:induction false} SameElementsSameSeq(s: seq<Hash>, t: seq<Hash>)
    requires StrictlySorted(s) && StrictlySorted(t) && forall p :: p in s <==> p in t
    ensures s == t
  {
    assert t != [] ==> t[0] in s;
    assert s != [] ==> s[0] in t;
    if s != [] {
      var s1, t1 := s[..|s| - 1], t[..|t| - 1];
      SameLast(s, t);
      forall p ensures p in s1 <==> p in t1 {
        ButLast(s, p);
        ButLast(t, p);
      }
      SameElementsSameSeq(s1, t1);
      assert s == s1 + [s[|s| - 1]] && t == t1 + [t[|t| - 1]];
    }
  }

  /** Two canonical rings of the same nodes are the same ring. */
  lemma CanonicalUnique(hash: string -> Hash, replicas: nat, r: Ring, q: Ring)
    requires Canonical(hash, replicas, r) && Canonical(hash, replicas, q)
    requires r.nodes == q.nodes && Distinct(hash, replicas, r.nodes)
    ensures r == q
  {
    forall p ensures p in r.owners <==> p in q.owners {
      if p in r.owners { assert PointOf(hash, replicas, r.owners[p], p); }
      if p in q.owners { assert PointOf(hash, replicas, q.owners[p], p); }
    }
    forall p | p in r.owners ensures r.owners[p] == q.owners[p] {
      PointsDisjoint(hash, replicas, r.nodes, r.owners[p], q.owners[p], p);
    }
    assert r.owners == q.owners;
    SameElementsSameSeq(r.points, q.points);
  }

  // ---------------------------------------------------------------- histories, collisions or not

  /** Owners are nodes of the ring, and stand at points of the ring. */
  ghost predicate Listed(r: Ring) {
    OwnersListed(r) && forall p :: p in r.owners ==> p in r.points
  }

  lemma AddListed(hash: string -> Hash, replicas: nat, r: Ring, node: Node)
    requires Listed(r)
    ensures Listed(Add(hash, replicas, r, node))
  {
    if node !in r.nodes {
      var added := NodePoints(hash, node, replicas);
      var r' := Add(hash, replicas, r, node);
      SortElements(r.points + added);
      forall p | p in r'.owners ensures r'.owners[p] in r'.nodes && p in r'.points {
        ClaimOwners(r.owners, added, node, p);
        assert r'.owners[p] == OwnerOf(r'.owners, p);
      }
    }
  }

  lemma RemoveListed(r: Ring, node: Node)
    requires Listed(r) && node != ""
    ensures Listed(Remove(r, node))
  {
    if node in r.nodes {
      var r' := Remove(r, node);
      forall p | p in r'.owners ensures r'.owners[p] in r'.nodes && p in r'.points {
        CompactOwners(r.points, r.owners, node, p);
        CompactKeeps(r.points, r.owners, node, p);
      }
    }
  }

  lemma {:induction false} ReplayListed(hash: string -> Hash, replicas: nat, ops: seq<Op>)
    requires forall i :: 0 <= i < |ops| ==> ops[i].node != ""
    ensures Listed(Replay(hash, replicas, ops))
  {
    if ops != [] {
      var r := Replay(hash, replicas, ops[..|ops| - 1]);
      ReplayListed(hash, replicas, ops[..|ops| - 1]);
      match ops[|ops| - 1]
      case AddNode(n) => AddListed(hash, replicas, r, n);
      case RemoveNode(n) => RemoveListed(r, n);
    }
  }

  /** After any history whatsoever, collisions included, the keys that move when a new node joins are exactly the
      keys it then owns. */
  lemma JoinMovesOnlyItsKeys(hash: string -> Hash, replicas: nat, ops: seq<Op>, node: Node, keys: set<string>)
    requires forall i :: 0 <= i < |ops| ==> ops[i].node != ""
    requires node != "" && node !in Replay(hash, replicas, ops).nodes
    ensures var before := Replay(hash, replicas, ops);
            var after := Placement(hash, Add(hash, replicas, before, node), keys);
            MovedKeys(Placement(hash, before, keys), after) == set k | k in after && after[k] == node
  {
    ReplayListed(hash, replicas, ops);
    MovedIsTaken(hash, replicas, Replay(hash, replicas, ops), node, keys);
  }

  // ---------------------------------------------------------------- histories without collisions

  datatype Op = AddNode(node: Node) | RemoveNode(node: Node)

  function Apply(hash: string -> Hash, replicas: nat, r: Ring, op: Op): Ring {
    match op
    case AddNode(n) => Add(hash, replicas, r, n)
    case RemoveNode(n) => Remove(r, n)
  }

  function Replay(hash: string -> Hash, replicas: nat, ops: seq<Op>): Ring {
    if ops == [] then EMPTY else Apply(hash, replicas, Replay(hash, replicas, ops[..|ops| - 1]), ops[|ops| - 1])
  }

  function Names(ops: seq<Op>): set<Node> {
    set i | 0 <= i < |ops| :: ops[i].node
  }

  lemma {:induction false} ReplayCanonical(hash: string -> Hash, replicas: nat, ops: seq<Op>, universe: set<Node>)
    requires Names(ops) <= universe && Distinct(hash, replicas, universe) && "" !in universe
    ensures var r := Replay(hash, replicas, ops); r.nodes <= universe && Canonical(hash, replicas, r)
  {
    if ops != [] {
      var front, last := ops[..|ops| - 1], ops[|ops| - 1];
      assert Names(front) <= Names(ops) && last.node in Names(ops) by {
        forall n | n in Names(front) ensures n in Names(ops) {
          var i :| 0 <= i < |front| && front[i].node == n;
          assert ops[i].node == n;
        }
      }
      ReplayCanonical(hash, replicas, front, universe);
      var r := Replay(hash, replicas, front);
      match last
      case AddNode(n) => AddCanonical(hash, replicas, r, n);
      case RemoveNode(n) => RemoveCanonical(hash, replicas, r, n);
    }
  }

  /** Any two histories that end in the same node set leave the same ring, owners and all, so they route every
      key alike. */
  lemma HistoryDoesNotMatter(hash: string -> Hash, replicas: nat, ops: seq<Op>, other: seq<Op>)
    requires Distinct(hash, replicas, Names(ops) + Names(other)) && "" !in Names(ops) + Names(other)
    requires Replay(hash, replicas, ops).nodes == Replay(hash, replicas, other).nodes
    ensures Replay(hash, replicas, ops) == Replay(hash, replicas, other)
  {
    var universe := Names(ops) + Names(other);
    ReplayCanonical(hash, replicas, ops, universe);
    ReplayCanonical(hash, replicas, other, universe);
    CanonicalUnique(hash, replicas, Replay(hash, replicas, ops), Replay(hash, replicas, other));
  }

  /** Histories over these nodes that end in the same node set leave the same ring. */
  ghost predicate OrderFree(hash: string -> Hash, replicas: nat, universe: set<Node>) {
    forall ops, other :: Names(ops) <= universe && Names(other) <= universe
                         && Replay(hash, replicas, ops).nodes == Replay(hash, replicas, other).nodes ==>
                           Replay(hash, replicas, ops) == Replay(hash, replicas, other)
  }

  lemma ReplayTwo(hash: string -> Hash, replicas: nat, a: Op, b: Op)
    ensures Replay(hash, replicas, [a, b]) == Apply(hash, replicas, Apply(hash, replicas, EMPTY, a), b)
    ensures Replay(hash, replicas, []) == EMPTY
  {
    hide Apply;
    assert [a, b][..1] == [a] && [a][..0] == [];
    assert Replay(hash, replicas, [a]) == Apply(hash, replicas, EMPTY, a);
  }

  /** Two nodes with a common point leave it to whichever was added last. */
  lemma LastAddedOwns(hash: string -> Hash, replicas: nat, n: Node, m: Node, p: Hash)
    requires n != m && PointOf(hash, replicas, m, p)
    ensures var r := Replay(hash, replicas, [AddNode(n), AddNode(m)]);
            r.nodes == {n, m} && OwnerOf(r.owners, p) == m
  {
    hide NodePoints, Claim, Replay, Sort;
    ReplayTwo(hash, replicas, AddNode(n), AddNode(m));
    NodePointsAre(hash, m, replicas, p);
    ClaimOwners(Add(hash, replicas, EMPTY, n).owners, NodePoints(hash, m, replicas), m, p);
  }

  /** A node with one point twice leaves a point behind when it goes. */
  lemma DoubledPointStays(hash: string -> Hash, replicas: nat, n: Node, i: nat, j: nat)
    requires n != "" && i < j < replicas && hash(VnodeKey(n, i)) == hash(VnodeKey(n, j))
    ensures var r := Replay(hash, replicas, [AddNode(n), RemoveNode(n)]);
            r.nodes == {} && r.points != []
  {
    hide NodePoints, Claim, Replay, Compact;
    ReplayTwo(hash, replicas, AddNode(n), RemoveNode(n));
    var r := Add(hash, replicas, EMPTY, n);
    var points, p := NodePoints(hash, n, replicas), hash(VnodeKey(n, j));
    NodePointsAre(hash, n, replicas, p);
    TwiceCounts(points, i, j);
    assert EMPTY.points + points == points;
    TwoCopies(r.points, p);
    var k, l :| 0 <= k < l < |r.points| && r.points[k] == r.points[l] == p;
    assert points[j] in points;
    ClaimOwners(EMPTY.owners, points, n, p);
    TwinStays(r.points, r.owners, n, k, l);
  }

  /** The order of joining and leaving never matters exactly if no two virtual nodes share a point. */
  lemma OrderFreeExactly(hash: string -> Hash, replicas: nat, universe: set<Node>)
    requires "" !in universe
    ensures OrderFree(hash, replicas, universe) <==> Distinct(hash, replicas, universe)
  {
    if Distinct(hash, replicas, universe) {
      forall ops, other | Names(ops) <= universe && Names(other) <= universe
                          && Replay(hash, replicas, ops).nodes == Replay(hash, replicas, other).nodes
        ensures Replay(hash, replicas, ops) == Replay(hash, replicas, other)
      {
        HistoryDoesNotMatter(hash, replicas, ops, other);
      }
    } else {
      var n, m, i: nat, j: nat :| n in universe && m in universe && i < replicas && j < replicas
                                  && hash(VnodeKey(n, i)) == hash(VnodeKey(m, j)) && !(n == m && i == j);
      SharedPointTells(hash, replicas, universe, n, m, i, j);
    }
  }

  lemma SharedPointTells(hash: string -> Hash, replicas: nat, universe: set<Node>, n: Node, m: Node, i: nat, j: nat)
    requires "" !in universe && n in universe && m in universe && i < replicas && j < replicas
    requires hash(VnodeKey(n, i)) == hash(VnodeKey(m, j)) && !(n == m && i == j)
    ensures !OrderFree(hash, replicas, universe)
  {
    hide Replay, Apply;
    var p := hash(VnodeKey(n, i));
    if n != m {
      LastAddedOwns(hash, replicas, n, m, p);
      LastAddedOwns(hash, replicas, m, n, p);
      NamesOfTwo(AddNode(n), AddNode(m));
      NamesOfTwo(AddNode(m), AddNode(n));
      assert Replay(hash, replicas, [AddNode(n), AddNode(m)]) != Replay(hash, replicas, [AddNode(m), AddNode(n)]);
    } else {
      DoubledPointStays(hash, replicas, n, if i < j then i else j, if i < j then j else i);
      NamesOfTwo(AddNode(n), RemoveNode(n));
      ReplayTwo(hash, replicas, AddNode(n), RemoveNode(n));
      assert Replay(hash, replicas, [AddNode(n), RemoveNode(n)]) != Replay(hash, replicas, []);
    }
  }

  lemma NamesOfTwo(a: Op, b: Op)
    ensures Names([a, b]) == {a.node, b.node} && Names([]) == {}
  {
    assert [a, b][0] == a && [a, b][1] == b;
  }

  /** Adding a node and removing it again restores the ring. */
  lemma AddThenRemoveRestores(hash: string -> Hash, replicas: nat, r: Ring, node: Node)
    requires Canonical(hash, replicas, r) && Distinct(hash, replicas, r.nodes + {node})
    requires node != "" && node !in r.nodes
    ensures Remove(Add(hash, replicas, r, node), node) == r
  {
    var r1 := Add(hash, replicas, r, node);
    AddCanonical(hash, replicas, r, node);
    RemoveCanonical(hash, replicas, r1, node);
    assert Remove(r1, node).nodes == r.nodes;
    CanonicalUnique(hash, replicas, Remove(r1, node), r);
  }

  // ---------------------------------------------------------------- the object

  lemma ClaimSnoc(owners: map<Hash, Node>, points: seq<Hash>, p: Hash, node: Node)
    ensures Claim(owners, points + [p], node) == Claim(owners, points, node)[p := node]
  {
    assert (points + [p])[..|points|] == points;
  }

  lemma CompactNone(owners: map<Hash, Node>, node: Node)
    ensures Compact([], owners, node) == Kept([], owners)
  {
  }

  lemma CompactSnoc(points: seq<Hash>, owners: map<Hash, Node>, node: Node, p: Hash)
    ensures var k := Compact(points, owners, node);
            Compact(points + [p], owners, node) ==
              if OwnerOf(k.owners, p) == node then k.(owners := k.owners - {p}) else k.(points := k.points + [p])
  {
    assert (points + [p])[..|points|] == points;
  }

  class HashRing {
    const hash: string -> Hash
    const replicas: nat
    var ring: array<Hash>      // backing array of the slice
    var len: nat               // length of the slice
    var owners: map<Hash, Node>
    var nodes: set<Node>

    ghost predicate Valid()
      reads this, ring
    {
      len <= ring.Length && Sorted(ring[..len])
    }

    ghost function Value(): Ring
      requires Valid()
      reads this, ring
    {
      Ring(ring[..len], owners, nodes)
    }

    constructor (hash: string -> Hash, replicas: nat)
      ensures Valid() && fresh(ring) && Value() == EMPTY && this.hash == hash && this.replicas == replicas
    {
      this.hash, this.replicas := hash, replicas;
      ring, len, owners, nodes := new Hash[0], 0, map[], {};
    }

    /** The loop that appends the node's points and claims them. */
    method AppendPoints(node: Node) returns (grown: seq<Hash>)
      requires Valid()
      modifies `owners
      ensures grown == ring[..len] + NodePoints(hash, node, replicas)
      ensures owners == Claim(old(owners), NodePoints(hash, node, replicas), node)
    {
      grown := ring[..len];
      for i := 0 to replicas
        invariant grown == ring[..len] + NodePoints(hash, node, i)
        invariant owners == Claim(old(owners), NodePoints(hash, node, i), node)
      {
        var p := hash(VnodeKey(node, i));
        ClaimSnoc(old(owners), NodePoints(hash, node, i), p, node);
        grown := grown + [p];
        owners := owners[p := node];
      }
    }

    method AddNode(node: Node)
      requires Valid()
      modifies this
      ensures Valid() && (ring == old(ring) || fresh(ring))
      ensures Value() == Add(hash, replicas, old(Value()), node)
    {
      hide Sort, NodePoints, Claim;
      if node in nodes { return; }
      var grown := AppendPoints(node);
      var sorted := Sort(grown);
      ring := new Hash[|sorted|](i requires 0 <= i < |sorted| => sorted[i]);
      len := |sorted|;
      nodes := nodes + {node};
      assert ring[..len] == sorted;
    }

    /** The compaction loop: `kept` shares the array that is being read. */
    method CompactInPlace(node: Node) returns (kept: nat)
      requires len <= ring.Length
      modifies `owners, ring
      ensures kept <= len
      ensures Kept(ring[..kept], owners) == Compact(old(ring[..len]), old(owners), node)
    {
      kept := 0;
      ghost var all, first := ring[..len], owners;
      CompactNone(owners, node);
      hide Compact, OwnerOf;
      assert all[..0] == [] && ring[..0] == [];
      for i := 0 to len
        invariant 0 <= kept <= i
        invariant forall j :: i <= j < len ==> ring[j] == all[j]
        invariant Compact(all[..i], first, node) == Kept(ring[..kept], owners)
      {
        var p := ring[i];
        CompactSnoc(all[..i], first, node, p);
        assert all[..i + 1] == all[..i] + [p];
        if OwnerOf(owners, p) == node {
          owners := owners - {p};
        } else {
          ghost var before := ring[..kept];
          ring[kept] := p;
          kept := kept + 1;
          assert ring[..kept] == before + [p];
        }
      }
      assert all[..len] == all;
    }

    method RemoveNode(node: Node)
      requires Valid()
      modifies this, ring
      ensures Valid() && ring == old(ring)
      ensures Value() == Remove(old(Value()), node)
    {
      if node !in nodes { return; }
      CompactSorted(ring[..len], owners, node);
      var kept := CompactInPlace(node);
      len := kept;
      nodes := nodes - {node};
    }

    /** Get finds the owner of the first point clockwise from the key. */
    method Get(key: string) returns (node: Node)
      requires Valid()
      ensures node == Route(Value(), hash(key))
      ensures len == 0 ==> node == ""
      ensures len > 0 ==>
                exists i: nat :: i < len && LeastAhead(ring[..len], hash(key), i)
                                 && node == (if ring[i] in owners then owners[ring[i]] else "")
    {
      if len == 0 { return ""; }
      var h := hash(key);
      var idx := BinarySearch(h);
      SearchFindsNearest(ring[..len], h, idx);
      if idx == len { idx := 0; }
      RouteIs(Value(), h, ring[idx]);
      node := OwnerOf(owners, ring[idx]);
      NearestIsLeastAhead(ring[..len], h, idx);
    }

    method BinarySearch(h: Hash) returns (idx: nat)
      requires Valid()
      ensures idx <= len
      ensures forall i :: 0 <= i < idx ==> ring[i] < h
      ensures forall i :: idx <= i < len ==> h <= ring[i]
    {
      var lo, hi := 0, len;
      while lo < hi
        invariant 0 <= lo <= hi <= len
        invariant forall i :: 0 <= i < lo ==> ring[i] < h
        invariant forall i :: hi <= i < len ==> h <= ring[i]
      {
        var mid := (lo + hi) / 2;
        assert forall i, j :: 0 <= i < j < len ==> ring[..len][i] <= ring[..len][j];
        if ring[mid] < h {
          lo := mid + 1;
        } else {
          hi := mid;
        }
      }
      idx := lo;
    }

    method PlaceKeys(keys: set<string>) returns (m: map<string, Node>)
      requires Valid()
      ensures m == Placement(hash, Value(), keys)
    {
      m := map[];
      var rest := keys;
      while rest != {}
        invariant rest <= keys
        invariant m == Placement(hash, Value(), keys - rest)
      {
        var k :| k in rest;
        var node := Get(k);
        m := m[k := node];
        rest := rest - {k};
      }
      assert keys - {} == keys;
    }
  }

  lemma {:induction false} CompactSorted(points: seq<Hash>, owners: map<Hash, Node>, node: Node)
    requires Sorted(points)
    ensures var k := Compact(points, owners, node).points;
            Sorted(k) && forall i :: 0 <= i < |k| ==> k[i] in points
  {
    if points != [] {
      CompactSorted(points[..|points| - 1], owners, node);
      assert points == points[..|points| - 1] + [points[|points| - 1]];
    }
  }

  lemma MovedOneMore(seen: map<string, Node>, after: map<string, Node>, k: string, n: Node)
    requires k !in seen
    ensures |MovedKeys(seen[k := n], after)| == |MovedKeys(seen, after)| + if NodeAt(after, k) != n then 1 else 0
  {
    assert MovedKeys(seen[k := n], after) == MovedKeys(seen, after) + if NodeAt(after, k) != n then {k} else {};
  }

  method CountMoved(before: map<string, Node>, after: map<string, Node>) returns (moved: nat)
    ensures moved == |MovedKeys(before, after)|
  {
    moved := 0;
    var rest := before.Keys;
    ghost var seen := map[];
    while rest != {}
      invariant rest <= before.Keys
      invariant seen == before - rest
      invariant moved == |MovedKeys(seen, after)|
    {
      var k :| k in rest;
      MovedOneMore(seen, after, k, before[k]);
      hide MovedKeys;
      if NodeAt(after, k) != before[k] {
        moved := moved + 1;
      }
      seen := seen[k := before[k]];
      rest := rest - {k};
    }
    assert seen == before;
  }
}
