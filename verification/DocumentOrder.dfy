/** The order in which `extract` returns values and `for_each_leaf` visits leaves
    (crates/loams-collection/src/values.rs). Members are kept in the order they were inserted in
    (`preserve_order` of serde_json, Cargo.toml). */
module DocumentOrder {
  import opened Strings
  import opened Documents
  import Values

  /** A JSON value whose objects keep their members in order. */
  datatype Tree = Scalar(value: Value) | List(items: seq<Tree>) | Node(members: seq<Member>)

  datatype Member = Member(key: string, below: Tree)

  function Size(t: Tree): nat {
    match t
    case Scalar(_) => 0
    case List(items) => |items|
    case Node(members) => |members|
  }

  function Child(t: Tree, i: nat): (c: Tree)
    requires i < Size(t)
    ensures c < t
  {
    if t.List? then t.items[i] else t.members[i].below
  }

  /** Where a value stands: the item or member to go to, level by level. */
  type Position = seq<nat>

  // ---- Order ----

  /** How strings compare in a sorted map. */
  predicate StringLt(a: string, b: string) {
    b != "" && (a == "" || a[0] < b[0] || (a[0] == b[0] && StringLt(a[1..], b[1..])))
  }

  /** Whether child `i` comes before child `j`: as they stand, or by their keys. */
  predicate Ahead(byKey: bool, t: Tree, i: nat, j: nat)
    requires i < Size(t) && j < Size(t)
  {
    if byKey && t.Node? then StringLt(t.members[i].key, t.members[j].key) else i < j
  }

  predicate Before(byKey: bool, t: Tree, p: Position, q: Position)
    decreases t
  {
    && p != [] && q != [] && p[0] < Size(t) && q[0] < Size(t)
    && if p[0] == q[0] then Before(byKey, Child(t, p[0]), p[1..], q[1..]) else Ahead(byKey, t, p[0], q[0])
  }

  /** `ps` goes on and on: in document order, or in the order of a document with sorted keys. */
  ghost predicate InOrder(byKey: bool, t: Tree, ps: seq<Position>) {
    forall i, j :: 0 <= i < j < |ps| ==> Before(byKey, t, ps[i], ps[j])
  }

  // ---- Positions child by child ----

  /** Positions below one child. */
  datatype Block = Block(child: nat, below: seq<Position>)

  function Prefixed(b: Block): (r: seq<Position>)
    ensures |r| == |b.below|
  {
    seq(|b.below|, i requires 0 <= i < |b.below| => [b.child] + b.below[i])
  }

  function Flatten(blocks: seq<Block>): (r: seq<Position>)
  {
    if blocks == [] then [] else Flatten(blocks[..|blocks| - 1]) + Prefixed(blocks[|blocks| - 1])
  }

  /** The blocks that have positions are of different children of `t`. */
  ghost predicate Fit(t: Tree, blocks: seq<Block>) {
    && (forall i :: 0 <= i < |blocks| && blocks[i].below != [] ==> blocks[i].child < Size(t))
    && (forall i, j :: 0 <= i < j < |blocks| && blocks[i].below != [] && blocks[j].below != [] ==>
          blocks[i].child != blocks[j].child)
  }

  /** The positions of a block are in order below its child. */
  ghost predicate OwnOrder(byKey: bool, t: Tree, b: Block) {
    b.below != [] ==> b.child < Size(t) && InOrder(byKey, Child(t, b.child), b.below)
  }

  /** If both blocks have positions, the child of `a` comes first. */
  ghost predicate PairOrder(byKey: bool, t: Tree, a: Block, b: Block) {
    a.below != [] && b.below != [] ==> a.child < Size(t) && b.child < Size(t) && Ahead(byKey, t, a.child, b.child)
  }

  /** Every block is in order, and blocks with positions come child after child. */
  ghost predicate BlocksInOrder(byKey: bool, t: Tree, blocks: seq<Block>) {
    && (forall i :: 0 <= i < |blocks| ==> OwnOrder(byKey, t, blocks[i]))
    && (forall i, j :: 0 <= i < j < |blocks| ==> PairOrder(byKey, t, blocks[i], blocks[j]))
  }

  lemma {:induction false} FromBlock(blocks: seq<Block>, p: Position) returns (i: nat)
    requires p in Flatten(blocks)
    ensures i < |blocks| && p in Prefixed(blocks[i]) && blocks[i].below != [] && p != [] && p[0] == blocks[i].child
  {
    var n := |blocks| - 1;
    if p in Prefixed(blocks[n]) {
      i := n;
    } else {
      i := FromBlock(blocks[..n], p);
    }
  }

  lemma {:induction false} InFlatten(blocks: seq<Block>, i: nat, k: nat)
    requires i < |blocks| && k < |blocks[i].below|
    ensures [blocks[i].child] + blocks[i].below[k] in Flatten(blocks)
  {
    var n := |blocks| - 1;
    if i == n {
      assert Prefixed(blocks[n])[k] in Prefixed(blocks[n]);
    } else {
      InFlatten(blocks[..n], i, k);
    }
  }

  lemma {:induction false} FlattenEmpty(blocks: seq<Block>)
    ensures Flatten(blocks) == [] <==> forall i :: 0 <= i < |blocks| ==> blocks[i].below == []
  {
    if blocks != [] {
      FlattenEmpty(blocks[..|blocks| - 1]);
      if Flatten(blocks) == [] {
        forall i | 0 <= i < |blocks| ensures blocks[i].below == [] {
          if i < |blocks| - 1 { assert blocks[..|blocks| - 1][i] == blocks[i]; }
        }
      }
    }
  }

  /** Every position of `a` comes before every position of `b`. */
  ghost predicate AllBefore(byKey: bool, t: Tree, a: seq<Position>, b: seq<Position>) {
    forall i, j :: 0 <= i < |a| && 0 <= j < |b| ==> Before(byKey, t, a[i], b[j])
  }

  lemma InOrderConcat(byKey: bool, t: Tree, a: seq<Position>, b: seq<Position>)
    ensures InOrder(byKey, t, a + b) <==> InOrder(byKey, t, a) && InOrder(byKey, t, b) && AllBefore(byKey, t, a, b)
  {
    hide Before;
    var all := a + b;
    if InOrder(byKey, t, all) {
      forall i, j | 0 <= i < j < |a| ensures Before(byKey, t, a[i], a[j]) {
        assert all[i] == a[i] && all[j] == a[j];
      }
      forall i, j | 0 <= i < j < |b| ensures Before(byKey, t, b[i], b[j]) {
        assert all[|a| + i] == b[i] && all[|a| + j] == b[j];
      }
      forall i, j | 0 <= i < |a| && 0 <= j < |b| ensures Before(byKey, t, a[i], b[j]) {
        assert all[i] == a[i] && all[|a| + j] == b[j];
      }
    }
  }

  lemma PrefixedOrder(byKey: bool, t: Tree, b: Block)
    requires b.below != [] ==> b.child < Size(t)
    ensures InOrder(byKey, t, Prefixed(b)) <==> OwnOrder(byKey, t, b)
  {
    var ps := Prefixed(b);
    forall i, j | 0 <= i < j < |ps|
      ensures Before(byKey, t, ps[i], ps[j]) <==> Before(byKey, Child(t, b.child), b.below[i], b.below[j])
    {
      assert ps[i][1..] == b.below[i] && ps[j][1..] == b.below[j];
    }
  }

  /** Positions before a block: all of them come first exactly when their children do. */
  lemma FrontBefore(byKey: bool, t: Tree, front: seq<Block>, last: Block)
    requires Fit(t, front + [last])
    ensures AllBefore(byKey, t, Flatten(front), Prefixed(last)) <==>
            forall i :: 0 <= i < |front| ==> PairOrder(byKey, t, front[i], last)
  {
    var all := front + [last];
    var ps, qs := Flatten(front), Prefixed(last);
    hide Flatten, Ahead;
    assert last.below != [] ==> all[|front|].child < Size(t);
    if last.below != [] && AllBefore(byKey, t, ps, qs) {
      forall i | 0 <= i < |front| && front[i].below != []
        ensures PairOrder(byKey, t, front[i], last)
      {
        assert all[i] == front[i] && all[|front|] == last;
        InFlatten(front, i, 0);
        var k :| 0 <= k < |ps| && ps[k] == [front[i].child] + front[i].below[0];
        assert Before(byKey, t, ps[k], qs[0]);
      }
    }
    if forall i :: 0 <= i < |front| ==> PairOrder(byKey, t, front[i], last) {
      forall k, j | 0 <= k < |ps| && 0 <= j < |qs| ensures Before(byKey, t, ps[k], qs[j]) {
        var i := FromBlock(front, ps[k]);
        assert PairOrder(byKey, t, front[i], last) && all[i] == front[i] && all[|front|] == last;
      }
    }
  }

  /** Flattened blocks are in order exactly when the blocks are. */
  lemma {:induction false} FlattenOrder(byKey: bool, t: Tree, blocks: seq<Block>)
    requires Fit(t, blocks)
    ensures InOrder(byKey, t, Flatten(blocks)) <==> BlocksInOrder(byKey, t, blocks)
  {
    if blocks != [] {
      var front, last := blocks[..|blocks| - 1], blocks[|blocks| - 1];
      assert blocks == front + [last];
      FlattenOrder(byKey, t, front);
      PrefixedOrder(byKey, t, last);
      FrontBefore(byKey, t, front, last);
      hide InOrder, Ahead, AllBefore, Before, OwnOrder, PairOrder, BlocksInOrder;
      InOrderConcat(byKey, t, Flatten(front), Prefixed(last));
      BlocksStep(byKey, t, front, last);
    }
  }

  lemma BlocksStep(byKey: bool, t: Tree, front: seq<Block>, last: Block)
    ensures BlocksInOrder(byKey, t, front + [last]) <==>
            && BlocksInOrder(byKey, t, front) && OwnOrder(byKey, t, last)
            && forall i :: 0 <= i < |front| ==> PairOrder(byKey, t, front[i], last)
  {
    hide OwnOrder, PairOrder;
    var all := front + [last];
    assert all[|front|] == last;
    if BlocksInOrder(byKey, t, all) {
      forall i | 0 <= i < |front| ensures OwnOrder(byKey, t, front[i]) && PairOrder(byKey, t, front[i], last) {
        assert all[i] == front[i];
      }
      forall i, j | 0 <= i < j < |front| ensures PairOrder(byKey, t, front[i], front[j]) {
        assert all[i] == front[i] && all[j] == front[j];
      }
    }
  }

  // ---- extract ----

  /** Where `key` stands among `members`; past the end if it does not. */
  function Find(members: seq<Member>, key: string): (i: nat)
    ensures i <= |members| && (i < |members| ==> members[i].key == key)
    ensures forall j :: 0 <= j < i ==> members[j].key != key
  {
    if members == [] then 0
    else
      var n := |members| - 1;
      var i := Find(members[..n], key);
      if i < n || members[n].key == key then i else |members|
  }

  /** The member that groups the first `k + 1` segments into its key. */
  function Grouping(t: Tree, segments: seq<string>, k: nat): (i: nat)
    requires t.Node? && k < |segments|
    ensures i <= |t.members| && (i < |t.members| ==> t.members[i].key == Join(segments[..k + 1], '.'))
  {
    Find(t.members, Join(segments[..k + 1], '.'))
  }

  /** Where the values at a path stand, in the order `extract` returns them. */
  function ExtractAt(t: Tree, segments: seq<string>): (ps: seq<Position>)
    decreases t, 2
  {
    match t
    case Scalar(_) => if segments == [] then [[]] else []
    case List(_) => Flatten(ItemBlocks(t, segments))
    case Node(_) => if segments == [] then [[]] else Flatten(GroupBlocks(t, segments))
  }

  function ItemBlocks(t: Tree, segments: seq<string>): (r: seq<Block>)
    requires t.List?
    ensures |r| == |t.items|
    decreases t, 1
  {
    seq(|t.items|, i requires 0 <= i < |t.items| => Block(i, ExtractAt(t.items[i], segments)))
  }

  function GroupBlocks(t: Tree, segments: seq<string>): (r: seq<Block>)
    requires t.Node?
    ensures |r| == |segments|
    decreases t, 1
  {
    seq(|segments|, k requires 0 <= k < |segments| => GroupBlock(t, segments, k))
  }

  function GroupBlock(t: Tree, segments: seq<string>, k: nat): (b: Block)
    requires t.Node? && k < |segments|
    ensures b.child == Grouping(t, segments, k)
    decreases t, 0
  {
    var i := Grouping(t, segments, k);
    Block(i, if i < |t.members| then ExtractAt(t.members[i].below, segments[k + 1..]) else [])
  }

  /** Some value is at the path. */
  ghost predicate Leads(t: Tree, segments: seq<string>)
    decreases t, 1
  {
    match t
    case Scalar(_) => segments == []
    case List(items) => exists i :: 0 <= i < |items| && Leads(items[i], segments)
    case Node(_) => segments == [] || exists k :: 0 <= k < |segments| && GroupLeads(t, segments, k)
  }

  ghost predicate GroupLeads(t: Tree, segments: seq<string>, k: nat)
    requires t.Node? && k < |segments|
    decreases t, 0
  {
    var i := Grouping(t, segments, k);
    i < |t.members| && Leads(t.members[i].below, segments[k + 1..])
  }

  /** At every object the path leads through, the members it goes on with stand in the order of their
      keys' lengths. */
  ghost predicate Ordered(t: Tree, segments: seq<string>)
    decreases t
  {
    match t
    case Scalar(_) => true
    case List(items) => forall i :: 0 <= i < |items| ==> Ordered(items[i], segments)
    case Node(members) =>
      && (forall k :: 0 <= k < |segments| && Grouping(t, segments, k) < |members| ==>
            Ordered(members[Grouping(t, segments, k)].below, segments[k + 1..]))
      && (forall k, l ::
            0 <= k < l < |segments| && GroupLeads(t, segments, k) && GroupLeads(t, segments, l) ==>
              Grouping(t, segments, k) < Grouping(t, segments, l))
  }

  lemma {:induction false} LeadsIff(t: Tree, segments: seq<string>)
    ensures ExtractAt(t, segments) != [] <==> Leads(t, segments)
    decreases t
  {
    match t
    case Scalar(_) =>
    case List(items) =>
      FlattenEmpty(ItemBlocks(t, segments));
      forall i | 0 <= i < |items|
        ensures ItemBlocks(t, segments)[i].below != [] <==> Leads(items[i], segments)
      {
        LeadsIff(items[i], segments);
      }
    case Node(_) =>
      if segments != [] {
        FlattenEmpty(GroupBlocks(t, segments));
        forall k | 0 <= k < |segments|
          ensures GroupBlocks(t, segments)[k].below != [] <==> GroupLeads(t, segments, k)
        {
          GroupLeadsIff(t, segments, k);
        }
      }
  }

  lemma {:induction false} GroupLeadsIff(t: Tree, segments: seq<string>, k: nat)
    requires t.Node? && k < |segments|
    ensures GroupBlock(t, segments, k).below != [] <==> GroupLeads(t, segments, k)
    decreases t, 0
  {
    var i := Grouping(t, segments, k);
    if i < |t.members| { LeadsIff(t.members[i].below, segments[k + 1..]); }
  }

  /** A longer grouping has a longer key that begins with the shorter one's. */
  lemma GroupKeys(segments: seq<string>, k: nat, l: nat)
    requires k < l < |segments|
    ensures StringLt(Join(segments[..k + 1], '.'), Join(segments[..l + 1], '.'))
  {
    var head, tail := segments[..k + 1], segments[k + 1..l + 1];
    assert segments[..l + 1] == head + tail;
    JoinConcat(head, tail, '.');
    PrefixLt(Join(head, '.'), ['.'] + Join(tail, '.'));
    assert Join(head, '.') + (['.'] + Join(tail, '.')) == Join(head, '.') + ['.'] + Join(tail, '.');
  }

  lemma {:induction false} PrefixLt(a: string, b: string)
    requires b != ""
    ensures StringLt(a, a + b)
  {
    if a != "" {
      PrefixLt(a[1..], b);
      assert (a + b)[1..] == a[1..] + b;
    } else {
      assert a + b == b;
    }
  }

  lemma {:induction false} NotBelowItself(a: string)
    ensures !StringLt(a, a)
  {
    if a != "" { NotBelowItself(a[1..]); }
  }

  lemma GroupsApart(t: Tree, segments: seq<string>, k: nat, l: nat)
    requires t.Node? && k < l < |segments|
    ensures var a, b := Grouping(t, segments, k), Grouping(t, segments, l);
            a < |t.members| && b < |t.members| ==> a != b && Ahead(true, t, a, b)
  {
    hide Join, StringLt, Find;
    GroupKeys(segments, k, l);
    NotBelowItself(Join(segments[..k + 1], '.'));
  }

  lemma GroupInside(t: Tree, segments: seq<string>, k: nat)
    requires t.Node? && k < |segments|
    ensures var b := GroupBlocks(t, segments)[k];
            b.child == Grouping(t, segments, k) && (b.below != [] ==> b.child < |t.members|)
  {
  }

  lemma GroupsFit(t: Tree, segments: seq<string>)
    requires t.Node?
    ensures Fit(t, GroupBlocks(t, segments))
    ensures forall k, l :: 0 <= k < l < |segments| ==>
              PairOrder(true, t, GroupBlocks(t, segments)[k], GroupBlocks(t, segments)[l])
  {
    hide GroupBlocks, Ahead, Grouping;
    var blocks := GroupBlocks(t, segments);
    forall k | 0 <= k < |segments| ensures blocks[k].below != [] ==> blocks[k].child < |t.members| {
      GroupInside(t, segments, k);
    }
    forall k, l | 0 <= k < l < |segments|
      ensures PairOrder(true, t, blocks[k], blocks[l])
      ensures blocks[k].below != [] && blocks[l].below != [] ==> blocks[k].child != blocks[l].child
    {
      GroupInside(t, segments, k);
      GroupInside(t, segments, l);
      GroupsApart(t, segments, k, l);
    }
  }

  /** `extract` returns values in document order exactly when, at every object the path leads through,
      the members it goes on with stand in the order of their keys' lengths. */
  lemma {:induction false} ExtractInDocumentOrderIff(t: Tree, segments: seq<string>)
    ensures InOrder(false, t, ExtractAt(t, segments)) <==> Ordered(t, segments)
    decreases t
  {
    match t
    case Scalar(_) =>
    case List(items) =>
      var blocks := ItemBlocks(t, segments);
      FlattenOrder(false, t, blocks);
      forall i | 0 <= i < |items| ensures OwnOrder(false, t, blocks[i]) <==> Ordered(items[i], segments) {
        ExtractInDocumentOrderIff(items[i], segments);
      }
    case Node(members) =>
      if segments != [] {
        forall k | 0 <= k < |segments| && Grouping(t, segments, k) < |members|
          ensures BelowInOrderIff(t, segments, k)
        {
          ExtractInDocumentOrderIff(members[Grouping(t, segments, k)].below, segments[k + 1..]);
        }
        hide *;
        GroupsInOrderIff(t, segments);
      }
  }

  /** What is to be shown holds below the member of one grouping. */
  ghost predicate BelowInOrderIff(t: Tree, segments: seq<string>, k: nat)
    requires t.Node? && k < |segments| && Grouping(t, segments, k) < |t.members|
  {
    var below := t.members[Grouping(t, segments, k)].below;
    InOrder(false, below, ExtractAt(below, segments[k + 1..])) <==> Ordered(below, segments[k + 1..])
  }

  lemma OwnGroup(t: Tree, segments: seq<string>, k: nat)
    requires t.Node? && k < |segments|
    requires Grouping(t, segments, k) < |t.members| ==> BelowInOrderIff(t, segments, k)
    ensures OwnOrder(false, t, GroupBlocks(t, segments)[k]) <==>
            (Grouping(t, segments, k) < |t.members| ==>
               Ordered(t.members[Grouping(t, segments, k)].below, segments[k + 1..]))
  {
    hide Ordered, ExtractAt, Grouping;
  }

  lemma GroupsInOrderIff(t: Tree, segments: seq<string>)
    requires t.Node? && segments != []
    requires forall k :: 0 <= k < |segments| && Grouping(t, segments, k) < |t.members| ==>
               BelowInOrderIff(t, segments, k)
    ensures InOrder(false, t, ExtractAt(t, segments)) <==> Ordered(t, segments)
  {
    hide Flatten, Grouping, OwnOrder, PairOrder, Ordered, InOrder, GroupBlocks, BelowInOrderIff;
    var blocks := GroupBlocks(t, segments);
    assert ExtractAt(t, segments) == Flatten(blocks);
    GroupsFit(t, segments);
    FlattenOrder(false, t, blocks);
    forall k | 0 <= k < |segments|
      ensures OwnOrder(false, t, blocks[k]) <==>
              (Grouping(t, segments, k) < |t.members| ==>
                 Ordered(t.members[Grouping(t, segments, k)].below, segments[k + 1..]))
    {
      OwnGroup(t, segments, k);
    }
    forall k, l | 0 <= k < l < |segments|
      ensures PairOrder(false, t, blocks[k], blocks[l]) <==>
              (GroupLeads(t, segments, k) && GroupLeads(t, segments, l) ==>
                 Grouping(t, segments, k) < Grouping(t, segments, l))
    {
      GroupPairs(t, segments, k, l);
    }
    OrderedNode(t, segments);
  }

  lemma GroupPairs(t: Tree, segments: seq<string>, k: nat, l: nat)
    requires t.Node? && k < l < |segments|
    ensures PairOrder(false, t, GroupBlocks(t, segments)[k], GroupBlocks(t, segments)[l]) <==>
            (GroupLeads(t, segments, k) && GroupLeads(t, segments, l) ==>
               Grouping(t, segments, k) < Grouping(t, segments, l))
  {
    GroupLeadsIff(t, segments, k);
    GroupLeadsIff(t, segments, l);
  }

  lemma OrderedNode(t: Tree, segments: seq<string>)
    requires t.Node?
    ensures Ordered(t, segments) <==>
            && (forall k :: 0 <= k < |segments| && Grouping(t, segments, k) < |t.members| ==>
                  Ordered(t.members[Grouping(t, segments, k)].below, segments[k + 1..]))
            && (forall k, l ::
                  0 <= k < l < |segments| && GroupLeads(t, segments, k) && GroupLeads(t, segments, l) ==>
                    Grouping(t, segments, k) < Grouping(t, segments, l))
  {
  }

  /** `extract` returns values in the order of a document whose keys are sorted, always. */
  lemma {:induction false} ExtractInKeyOrder(t: Tree, segments: seq<string>)
    ensures InOrder(true, t, ExtractAt(t, segments))
    decreases t
  {
    match t
    case Scalar(_) =>
    case List(items) =>
      var blocks := ItemBlocks(t, segments);
      FlattenOrder(true, t, blocks);
      forall i | 0 <= i < |items| ensures OwnOrder(true, t, blocks[i]) {
        ExtractInKeyOrder(items[i], segments);
      }
    case Node(members) =>
      if segments != [] {
        var blocks := GroupBlocks(t, segments);
        GroupsFit(t, segments);
        FlattenOrder(true, t, blocks);
        forall k | 0 <= k < |segments| ensures OwnOrder(true, t, blocks[k]) {
          var i := Grouping(t, segments, k);
          if i < |members| { ExtractInKeyOrder(members[i].below, segments[k + 1..]); }
        }
      }
  }

  /** A nested value that stands after a dotted key with the same path comes first: not in document
      order. */
  lemma NestedBeforeDotted(nested: Value, dotted: Value)
    ensures var t := Node([Member("a.b", Scalar(dotted)), Member("a", Node([Member("b", Scalar(nested))]))]);
            !InOrder(false, t, ExtractAt(t, ["a", "b"]))
  {
    var below := Node([Member("b", Scalar(nested))]);
    var t := Node([Member("a.b", Scalar(dotted)), Member("a", below)]);
    var segments := ["a", "b"];
    assert segments[..1] == ["a"] && segments[1..] == ["b"] && segments[..2] == segments && segments[2..] == [];
    assert ["b"][..1] == ["b"] && ["b"][1..] == [];
    assert Join(segments, '.') == "a.b" && Join(["b"], '.') == "b" && Join(["a"], '.') == "a";
    assert Grouping(below, ["b"], 0) == 0;
    assert GroupLeads(below, ["b"], 0);
    assert t.members[0].key == "a.b" && t.members[1].key == "a";
    assert Grouping(t, segments, 0) == 1;
    assert Grouping(t, segments, 1) == 0;
    assert GroupLeads(t, segments, 0) && GroupLeads(t, segments, 1);
    ExtractInDocumentOrderIff(t, segments);
  }

  // ---- for_each_leaf ----

  /** Where the leaves stand, in the order the walk visits them. */
  function Walk(t: Tree): (ps: seq<Position>)
    decreases t, 1
  {
    if t.Scalar? then (if t.value.Null? then [] else [[]]) else Flatten(WalkBlocks(t))
  }

  function WalkBlocks(t: Tree): (r: seq<Block>)
    ensures |r| == Size(t)
    decreases t, 0
  {
    seq(Size(t), i requires 0 <= i < Size(t) => Block(i, Walk(Child(t, i))))
  }

  ghost predicate HasLeaf(t: Tree)
    decreases t
  {
    if t.Scalar? then !t.value.Null? else exists i :: 0 <= i < Size(t) && HasLeaf(Child(t, i))
  }

  /** At every object, the members that hold a leaf stand in the order of their keys. */
  ghost predicate KeysSorted(t: Tree)
    decreases t
  {
    && (forall i :: 0 <= i < Size(t) ==> KeysSorted(Child(t, i)))
    && (forall i, j :: 0 <= i < j < Size(t) && HasLeaf(Child(t, i)) && HasLeaf(Child(t, j)) ==> Ahead(true, t, i, j))
  }

  lemma {:induction false} HasLeafIff(t: Tree)
    ensures Walk(t) != [] <==> HasLeaf(t)
    decreases t
  {
    if !t.Scalar? {
      FlattenEmpty(WalkBlocks(t));
      forall i | 0 <= i < Size(t) ensures WalkBlocks(t)[i].below != [] <==> HasLeaf(Child(t, i)) {
        HasLeafIff(Child(t, i));
      }
    }
  }

  /** The walk visits the leaves in document order. */
  lemma {:induction false} WalkInDocumentOrder(t: Tree)
    ensures InOrder(false, t, Walk(t))
    decreases t
  {
    if !t.Scalar? {
      var blocks := WalkBlocks(t);
      FlattenOrder(false, t, blocks);
      forall i | 0 <= i < Size(t) ensures OwnOrder(false, t, blocks[i]) {
        WalkInDocumentOrder(Child(t, i));
      }
    }
  }

  /** It visits them in the order of sorted keys exactly when, at every object, the members that hold a
      leaf stand in that order. */
  lemma {:induction false} WalkInKeyOrderIff(t: Tree)
    ensures InOrder(true, t, Walk(t)) <==> KeysSorted(t)
    decreases t
  {
    if !t.Scalar? {
      forall i | 0 <= i < Size(t) ensures ChildInKeyOrderIff(t, i) {
        WalkInKeyOrderIff(Child(t, i));
      }
      hide *;
      ChildrenInKeyOrderIff(t);
    }
  }

  /** What is to be shown holds below one child. */
  ghost predicate ChildInKeyOrderIff(t: Tree, i: nat)
    requires i < Size(t)
  {
    InOrder(true, Child(t, i), Walk(Child(t, i))) <==> KeysSorted(Child(t, i))
  }

  lemma ChildrenInKeyOrderIff(t: Tree)
    requires !t.Scalar? && forall i :: 0 <= i < Size(t) ==> ChildInKeyOrderIff(t, i)
    ensures InOrder(true, t, Walk(t)) <==> KeysSorted(t)
  {
    hide Flatten, OwnOrder, PairOrder, InOrder, WalkBlocks, KeysSorted, ChildInKeyOrderIff, Ahead, HasLeaf;
    var blocks := WalkBlocks(t);
    assert Walk(t) == Flatten(blocks);
    WalkFits(t);
    FlattenOrder(true, t, blocks);
    forall i | 0 <= i < Size(t) ensures OwnOrder(true, t, blocks[i]) <==> KeysSorted(Child(t, i)) {
      WalkOwn(t, i);
    }
    forall i, j | 0 <= i < j < Size(t)
      ensures PairOrder(true, t, blocks[i], blocks[j]) <==>
              (HasLeaf(Child(t, i)) && HasLeaf(Child(t, j)) ==> Ahead(true, t, i, j))
    {
      WalkPair(t, i, j);
    }
    SortedChildren(t);
  }

  lemma WalkOwn(t: Tree, i: nat)
    requires i < Size(t) && ChildInKeyOrderIff(t, i)
    ensures OwnOrder(true, t, WalkBlocks(t)[i]) <==> KeysSorted(Child(t, i))
  {
    hide Walk, KeysSorted;
  }

  lemma SortedChildren(t: Tree)
    ensures KeysSorted(t) <==>
            && (forall i :: 0 <= i < Size(t) ==> KeysSorted(Child(t, i)))
            && (forall i, j :: 0 <= i < j < Size(t) && HasLeaf(Child(t, i)) && HasLeaf(Child(t, j)) ==>
                  Ahead(true, t, i, j))
  {
    hide HasLeaf, Ahead;
  }

  lemma WalkFits(t: Tree)
    ensures Fit(t, WalkBlocks(t))
  {
    hide Walk;
  }

  lemma WalkPair(t: Tree, i: nat, j: nat)
    requires i < j < Size(t)
    ensures PairOrder(true, t, WalkBlocks(t)[i], WalkBlocks(t)[j]) <==>
            (HasLeaf(Child(t, i)) && HasLeaf(Child(t, j)) ==> Ahead(true, t, i, j))
  {
    HasLeafIff(Child(t, i));
    HasLeafIff(Child(t, j));
    hide HasLeaf, Walk, Ahead;
  }

  /** Members out of key order are visited out of key order. */
  lemma WalkNotSorted(x: Value, y: Value)
    requires !x.Null? && !y.Null?
    ensures var t := Node([Member("b", Scalar(x)), Member("a", Scalar(y))]); !InOrder(true, t, Walk(t))
  {
    var t := Node([Member("b", Scalar(x)), Member("a", Scalar(y))]);
    assert HasLeaf(Child(t, 0)) && HasLeaf(Child(t, 1));
    assert !Ahead(true, t, 0, 1);
    WalkInKeyOrderIff(t);
  }

  /** Every object's members stand in the order of their keys. */
  ghost predicate AllSorted(t: Tree)
    decreases t
  {
    && (forall i :: 0 <= i < Size(t) ==> AllSorted(Child(t, i)))
    && (forall i, j :: 0 <= i < j < Size(t) ==> Ahead(true, t, i, j))
  }

  lemma {:induction false} LtAsymmetric(a: string, b: string)
    requires StringLt(a, b)
    ensures !StringLt(b, a)
  {
    if a != "" && a[0] == b[0] { LtAsymmetric(a[1..], b[1..]); }
  }

  lemma {:induction false} SortedBefore(t: Tree, p: Position, q: Position)
    requires AllSorted(t) && Before(true, t, p, q)
    ensures Before(false, t, p, q)
    decreases t
  {
    if p[0] == q[0] {
      SortedBefore(Child(t, p[0]), p[1..], q[1..]);
    } else if p[0] > q[0] {
      assert Ahead(true, t, q[0], p[0]) && Ahead(true, t, p[0], q[0]);
      if t.Node? { LtAsymmetric(t.members[q[0]].key, t.members[p[0]].key); }
    }
  }

  /** In a document with sorted keys, `extract` returns values in document order. */
  lemma ExtractOfSorted(t: Tree, segments: seq<string>)
    requires AllSorted(t)
    ensures InOrder(false, t, ExtractAt(t, segments))
  {
    ExtractInKeyOrder(t, segments);
    hide AllSorted, Before, ExtractAt;
    var ps := ExtractAt(t, segments);
    forall i, j | 0 <= i < j < |ps| ensures Before(false, t, ps[i], ps[j]) {
      SortedBefore(t, ps[i], ps[j]);
    }
  }

  // ---- The same values as without order ----

  function KeySet(members: seq<Member>): set<string> {
    set i | 0 <= i < |members| :: members[i].key
  }

  /** Scalars are scalars, and no object has a key twice. */
  ghost predicate WellFormed(t: Tree)
    decreases t
  {
    && (t.Scalar? ==> !t.value.Array? && !t.value.Object?)
    && (t.Node? ==> forall i, j :: 0 <= i < j < |t.members| ==> t.members[i].key != t.members[j].key)
    && (forall i :: 0 <= i < Size(t) ==> WellFormed(Child(t, i)))
  }

  /** The value, its order forgotten. */
  function Plain(t: Tree): Value
    decreases t, 1
  {
    match t
    case Scalar(value) => value
    case List(items) => Array(seq(|items|, i requires 0 <= i < |items| => Plain(items[i])))
    case Node(_) => Object(PlainMembers(t))
  }

  function PlainMembers(t: Tree): Source
    requires t.Node?
    decreases t, 0
  {
    map key | key in KeySet(t.members) :: Plain(t.members[Find(t.members, key)].below)
  }

  /** The value at a position. */
  function ValueAt(t: Tree, p: Position): Value
    decreases p
  {
    if p != [] && p[0] < Size(t) then ValueAt(Child(t, p[0]), p[1..]) else Plain(t)
  }

  function ValuesAt(t: Tree, ps: seq<Position>): (r: seq<Value>)
    ensures |r| == |ps|
  {
    seq(|ps|, i requires 0 <= i < |ps| => ValueAt(t, ps[i]))
  }

  lemma ValuesBelow(t: Tree, b: Block)
    requires b.child < Size(t)
    ensures ValuesAt(t, Prefixed(b)) == ValuesAt(Child(t, b.child), b.below)
  {
    var ps := Prefixed(b);
    forall i | 0 <= i < |ps| ensures ValueAt(t, ps[i]) == ValueAt(Child(t, b.child), b.below[i]) {
      assert ps[i][1..] == b.below[i];
    }
  }

  lemma ValuesStep(t: Tree, blocks: seq<Block>, n: nat)
    requires n < |blocks| && (blocks[n].below != [] ==> blocks[n].child < Size(t))
    ensures ValuesAt(t, Flatten(blocks[..n + 1]))
         == ValuesAt(t, Flatten(blocks[..n]))
            + if blocks[n].below == [] then [] else ValuesAt(Child(t, blocks[n].child), blocks[n].below)
  {
    assert blocks[..n + 1][..n] == blocks[..n];
    assert Flatten(blocks[..n + 1]) == Flatten(blocks[..n]) + Prefixed(blocks[n]);
    if blocks[n].below != [] { ValuesBelow(t, blocks[n]); }
  }

  /** Order forgotten, the values are those of the unordered `extract`. */
  lemma {:induction false} ExtractIsExtract(t: Tree, segments: seq<string>)
    requires WellFormed(t)
    ensures ValuesAt(t, ExtractAt(t, segments)) == Values.ExtractAt(Plain(t), segments)
    decreases t, 2, 0
  {
    match t
    case Scalar(_) =>
    case List(items) =>
      ItemValues(t, segments, |items|);
      assert ItemBlocks(t, segments)[..|items|] == ItemBlocks(t, segments);
      assert Plain(t).items[..|items|] == Plain(t).items;
    case Node(_) =>
      if segments != [] {
        GroupValues(t, segments, |segments|);
        assert GroupBlocks(t, segments)[..|segments|] == GroupBlocks(t, segments);
      }
  }

  lemma {:induction false} ItemValues(t: Tree, segments: seq<string>, n: nat)
    requires WellFormed(t) && t.List? && n <= |t.items|
    ensures ValuesAt(t, Flatten(ItemBlocks(t, segments)[..n])) == Values.ExtractItems(Plain(t).items[..n], segments)
    decreases t, 1, n
  {
    if n > 0 {
      var blocks, plain := ItemBlocks(t, segments), Plain(t).items;
      ItemValues(t, segments, n - 1);
      assert WellFormed(Child(t, n - 1));
      ExtractIsExtract(t.items[n - 1], segments);
      ValuesStep(t, blocks, n - 1);
      hide Flatten, ExtractAt, WellFormed;
      assert plain[..n][..n - 1] == plain[..n - 1] && plain[..n][n - 1] == Plain(t.items[n - 1]);
      NoValues(t.items[n - 1]);
    }
  }

  lemma NoValues(t: Tree)
    ensures ValuesAt(t, []) == []
  {
  }

  lemma {:induction false} GroupValues(t: Tree, segments: seq<string>, n: nat)
    requires WellFormed(t) && t.Node? && n <= |segments|
    ensures ValuesAt(t, Flatten(GroupBlocks(t, segments)[..n])) == Values.ExtractIn(PlainMembers(t), segments, n)
    decreases t, 1, n
  {
    if n > 0 {
      var key, i := Join(segments[..n], '.'), Grouping(t, segments, n - 1);
      GroupValues(t, segments, n - 1);
      PlainAt(t, key);
      if i < |t.members| {
        assert WellFormed(Child(t, i));
        ExtractIsExtract(t.members[i].below, segments[n..]);
        NoValues(t.members[i].below);
      }
      GroupInside(t, segments, n - 1);
      ValuesStep(t, GroupBlocks(t, segments), n - 1);
      GroupBelow(t, segments, n - 1);
      hide Flatten, ExtractAt, WellFormed, GroupBlocks, PlainMembers, Join, Plain;
    }
  }

  lemma GroupBelow(t: Tree, segments: seq<string>, k: nat)
    requires t.Node? && k < |segments|
    ensures var i := Grouping(t, segments, k);
            GroupBlocks(t, segments)[k].below
            == if i < |t.members| then ExtractAt(t.members[i].below, segments[k + 1..]) else []
  {
  }

  lemma PlainAt(t: Tree, key: string)
    requires t.Node?
    ensures var i := Find(t.members, key);
            && (key in PlainMembers(t) <==> i < |t.members|)
            && (i < |t.members| ==> PlainMembers(t)[key] == Plain(t.members[i].below))
  {
  }

  /** What the walk visits: every leaf with its path, members and items in their order. */
  function Visits(t: Tree, at: string): (r: seq<(string, Value)>)
    decreases t, 2, 0
  {
    match t
    case Scalar(value) => if value.Null? then [] else [(at, value)]
    case List(items) => ItemVisits(t, at, |items|)
    case Node(members) => MemberVisits(t, at + ".", |members|)
  }

  function ItemVisits(t: Tree, at: string, n: nat): (r: seq<(string, Value)>)
    requires t.List? && n <= |t.items|
    decreases t, 1, n
  {
    if n == 0 then [] else ItemVisits(t, at, n - 1) + Visits(t.items[n - 1], at)
  }

  function MemberVisits(t: Tree, prefix: string, n: nat): (r: seq<(string, Value)>)
    requires t.Node? && n <= |t.members|
    decreases t, 1, n
  {
    if n == 0 then []
    else MemberVisits(t, prefix, n - 1) + Visits(t.members[n - 1].below, prefix + t.members[n - 1].key)
  }

  /** `walk_leaves`: calls back for every leaf, here appended to what was visited. */
  method WalkLeaves(t: Tree, path: string) returns (visited: seq<(string, Value)>)
    ensures visited == Visits(t, path)
    decreases t
  {
    visited := [];
    match t {
      case Scalar(value) =>
        if !value.Null? {
          visited := [(path, value)];
        }
      case List(items) =>
        for i := 0 to |items|
          invariant visited == ItemVisits(t, path, i)
        {
          var below := WalkLeaves(items[i], path);
          visited := visited + below;
        }
      case Node(members) =>
        for i := 0 to |members|
          invariant visited == MemberVisits(t, path + ".", i)
        {
          var below := WalkLeaves(members[i].below, path + "." + members[i].key);
          visited := visited + below;
        }
    }
  }

  /** `for_each_leaf` on a whole source. The leaves come in document order: they are the values at the
      positions of the walk, one after another. Order forgotten, they are the source's leaves. */
  method ForEachLeaf(source: Tree) returns (visited: seq<(string, Value)>)
    requires source.Node?
    ensures Leaves(visited) == ValuesAt(source, Walk(source)) && InOrder(false, source, Walk(source))
    ensures WellFormed(source) ==> multiset(visited) == Values.SourceLeaves(PlainMembers(source))
  {
    visited := [];
    for i := 0 to |source.members|
      invariant visited == MemberVisits(source, "", i)
    {
      var below := WalkLeaves(source.members[i].below, source.members[i].key);
      assert "" + source.members[i].key == source.members[i].key;
      visited := visited + below;
    }
    hide *;
    SourceVisited(source);
  }

  lemma SourceVisited(source: Tree)
    requires source.Node?
    ensures var visited := MemberVisits(source, "", |source.members|);
            && Leaves(visited) == ValuesAt(source, Walk(source)) && InOrder(false, source, Walk(source))
            && (WellFormed(source) ==> multiset(visited) == Values.SourceLeaves(PlainMembers(source)))
  {
    var n := |source.members|;
    WalkInDocumentOrder(source);
    MemberVisitsFollow(source, "", n);
    assert WalkBlocks(source)[..n] == WalkBlocks(source);
    if WellFormed(source) {
      MembersWalked(source, "", n);
      assert source.members[..n] == source.members;
      assert KeySet(source.members) == PlainMembers(source).Keys;
    }
  }

  function Leaves(visits: seq<(string, Value)>): (r: seq<Value>) {
    seq(|visits|, i requires 0 <= i < |visits| => visits[i].1)
  }

  lemma LeavesConcat(a: seq<(string, Value)>, b: seq<(string, Value)>)
    ensures Leaves(a + b) == Leaves(a) + Leaves(b)
  {
  }

  /** The leaves visited are those at the positions of the walk, one after another. */
  lemma {:induction false} VisitsFollowWalk(t: Tree, at: string)
    ensures Leaves(Visits(t, at)) == ValuesAt(t, Walk(t))
    decreases t, 2, 0
  {
    if !t.Scalar? {
      var blocks := WalkBlocks(t);
      assert blocks[..Size(t)] == blocks;
      if t.List? { ItemVisitsFollow(t, at, Size(t)); } else { MemberVisitsFollow(t, at + ".", Size(t)); }
    }
  }

  lemma {:induction false} ItemVisitsFollow(t: Tree, at: string, n: nat)
    requires t.List? && n <= |t.items|
    ensures Leaves(ItemVisits(t, at, n)) == ValuesAt(t, Flatten(WalkBlocks(t)[..n]))
    decreases t, 1, n
  {
    if n > 0 {
      ItemVisitsFollow(t, at, n - 1);
      VisitsFollowWalk(t.items[n - 1], at);
      ValuesStep(t, WalkBlocks(t), n - 1);
      NoValues(t.items[n - 1]);
      hide Flatten, Walk, Visits;
      LeavesConcat(ItemVisits(t, at, n - 1), Visits(t.items[n - 1], at));
    }
  }

  lemma {:induction false} MemberVisitsFollow(t: Tree, prefix: string, n: nat)
    requires t.Node? && n <= |t.members|
    ensures Leaves(MemberVisits(t, prefix, n)) == ValuesAt(t, Flatten(WalkBlocks(t)[..n]))
    decreases t, 1, n
  {
    if n > 0 {
      var m := t.members[n - 1];
      MemberVisitsFollow(t, prefix, n - 1);
      VisitsFollowWalk(m.below, prefix + m.key);
      ValuesStep(t, WalkBlocks(t), n - 1);
      NoValues(m.below);
      hide Flatten, Walk, Visits;
      LeavesConcat(MemberVisits(t, prefix, n - 1), Visits(m.below, prefix + m.key));
    }
  }

  /** Order forgotten, the visits are those of the unordered walk. */
  lemma {:induction false} WalkIsWalk(t: Tree, at: string)
    requires WellFormed(t)
    ensures multiset(Visits(t, at)) == Values.Leaves(Plain(t), at)
    decreases t, 2, 0
  {
    LeavesAre(t, at);
    hide *;
    match t
    case Scalar(_) =>
    case List(items) => ItemsWalked(t, at, |items|);
    case Node(members) => MembersWalked(t, at + ".", |members|);
  }

  lemma LeavesAre(t: Tree, at: string)
    requires WellFormed(t)
    ensures t.Scalar? ==> multiset(Visits(t, at)) == Values.Leaves(Plain(t), at)
    ensures t.List? ==>
              && Visits(t, at) == ItemVisits(t, at, |t.items|) && |Plain(t).items| == |t.items|
              && Values.Leaves(Plain(t), at) == Values.ItemLeaves(Plain(t).items[..|t.items|], at)
    ensures t.Node? ==>
              && Visits(t, at) == MemberVisits(t, at + ".", |t.members|)
              && KeySet(t.members[..|t.members|]) <= PlainMembers(t).Keys
              && Values.Leaves(Plain(t), at)
                 == Values.MemberLeaves(PlainMembers(t), KeySet(t.members[..|t.members|]), at + ".")
  {
    hide ItemVisits, MemberVisits, Values.ItemLeaves, Values.MemberLeaves;
    if t.List? { assert Plain(t).items[..|t.items|] == Plain(t).items; }
    if t.Node? {
      assert t.members[..|t.members|] == t.members;
      assert KeySet(t.members) == PlainMembers(t).Keys;
    }
  }

  lemma {:induction false} ItemsWalked(t: Tree, at: string, n: nat)
    requires WellFormed(t) && t.List? && n <= |t.items|
    ensures multiset(ItemVisits(t, at, n)) == Values.ItemLeaves(Plain(t).items[..n], at)
    decreases t, 1, n
  {
    if n > 0 {
      var plain := Plain(t).items;
      ItemsWalked(t, at, n - 1);
      WellFormedChild(t, n - 1);
      WalkIsWalk(t.items[n - 1], at);
      PlainItem(t, n);
      hide *;
      ItemVisitsStep(t, at, n);
      ItemLeavesStep(plain[..n], at);
    }
  }

  lemma WellFormedChild(t: Tree, i: nat)
    requires WellFormed(t) && i < Size(t)
    ensures WellFormed(Child(t, i))
  {
  }

  lemma PlainItem(t: Tree, n: nat)
    requires t.List? && 0 < n <= |t.items|
    ensures |Plain(t).items| == |t.items|
    ensures var plain := Plain(t).items[..n];
            plain[..n - 1] == Plain(t).items[..n - 1] && plain[n - 1] == Plain(t.items[n - 1])
  {
  }

  lemma ItemVisitsStep(t: Tree, at: string, n: nat)
    requires t.List? && 0 < n <= |t.items|
    ensures multiset(ItemVisits(t, at, n)) == multiset(ItemVisits(t, at, n - 1)) + multiset(Visits(t.items[n - 1], at))
  {
    hide Visits;
  }

  lemma ItemLeavesStep(items: seq<Value>, at: string)
    requires items != []
    ensures Values.ItemLeaves(items, at)
         == Values.ItemLeaves(items[..|items| - 1], at) + Values.Leaves(items[|items| - 1], at)
  {
    hide Values.Leaves;
  }

  lemma {:induction false} MembersWalked(t: Tree, prefix: string, n: nat)
    requires WellFormed(t) && t.Node? && n <= |t.members|
    ensures KeySet(t.members[..n]) <= PlainMembers(t).Keys
    ensures multiset(MemberVisits(t, prefix, n))
         == Values.MemberLeaves(PlainMembers(t), KeySet(t.members[..n]), prefix)
    decreases t, 1, n
  {
    if n > 0 {
      var m, fields := t.members[n - 1], PlainMembers(t);
      MembersWalked(t, prefix, n - 1);
      WellFormedChild(t, n - 1);
      WalkIsWalk(m.below, prefix + m.key);
      LastKey(t, n);
      hide *;
      Values.MemberLeavesPick(fields, KeySet(t.members[..n]), prefix, m.key);
      VisitsStep(t, prefix, n);
    }
  }

  lemma VisitsStep(t: Tree, prefix: string, n: nat)
    requires t.Node? && 0 < n <= |t.members|
    ensures multiset(MemberVisits(t, prefix, n))
         == multiset(MemberVisits(t, prefix, n - 1))
            + multiset(Visits(t.members[n - 1].below, prefix + t.members[n - 1].key))
  {
    hide Visits;
  }

  lemma LastKey(t: Tree, n: nat)
    requires WellFormed(t) && t.Node? && 0 < n <= |t.members|
    ensures var m := t.members[n - 1];
            && m.key in KeySet(t.members[..n]) && KeySet(t.members[..n]) <= PlainMembers(t).Keys
            && KeySet(t.members[..n]) - {m.key} == KeySet(t.members[..n - 1])
            && m.key in PlainMembers(t) && PlainMembers(t)[m.key] == Plain(m.below)
  {
    var m := t.members[n - 1];
    assert t.members[..n][n - 1] == m;
    forall key | key in KeySet(t.members[..n]) ensures key in KeySet(t.members) {
      var i :| 0 <= i < n && t.members[..n][i].key == key;
      assert t.members[i].key == key;
    }
    forall key ensures key in KeySet(t.members[..n]) - {m.key} <==> key in KeySet(t.members[..n - 1]) {
      if key in KeySet(t.members[..n]) - {m.key} {
        var i :| 0 <= i < n && t.members[..n][i].key == key;
        assert t.members[..n - 1][i].key == key;
      }
      if key in KeySet(t.members[..n - 1]) {
        var i :| 0 <= i < n - 1 && t.members[..n - 1][i].key == key;
        assert t.members[..n][i].key == key;
      }
    }
    PlainAt(t, m.key);
    assert Find(t.members, m.key) == n - 1;
  }
}
