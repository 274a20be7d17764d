/** Reading the values at a path against walking every leaf
    (crates/loams-collection/src/values.rs). */
module Values {
  import opened Strings
  import opened Documents

  predicate IsLeaf(v: Value) {
    v.Bool? || v.Number? || v.String?
  }

  // ---- extract ----

  /** `extract_at`: arrays are transparent; a scalar with segments left has no value. */
  function ExtractAt(v: Value, segments: seq<string>): (out: seq<Value>)
    decreases v, 2, 0
  {
    match v
    case Array(items) => ExtractItems(items, segments)
    case Object(fields) => if segments == [] then [v] else ExtractIn(fields, segments, |segments|)
    case _ => if segments == [] then [v] else []
  }

  function ExtractItems(items: seq<Value>, segments: seq<string>): (out: seq<Value>)
    decreases items
  {
    if items == [] then []
    else ExtractItems(items[..|items| - 1], segments) + ExtractAt(items[|items| - 1], segments)
  }

  /** `extract_in` for the keys made of the first 1 to `upto` segments. */
  function ExtractIn(fields: Source, segments: seq<string>, upto: nat): (out: seq<Value>)
    requires upto <= |segments|
    decreases Object(fields), 0, upto
  {
    if upto == 0 then []
    else
      var key := Join(segments[..upto], '.');
      ExtractIn(fields, segments, upto - 1)
      + (if key in fields then ExtractAt(fields[key], segments[upto..]) else [])
  }

  /** Every value at `path`; the empty path gives the whole source. */
  function Extract(source: Source, path: string): (out: seq<Value>) {
    if path == "" then [Object(source)]
    else ExtractIn(source, Split(path, '.'), |Split(path, '.')|)
  }

  method ExtractAtInto(v: Value, segments: seq<string>, out: seq<Value>) returns (r: seq<Value>)
    ensures r == out + ExtractAt(v, segments)
    decreases v, 2, 0
  {
    match v
    case Array(items) =>
      r := out;
      for i := 0 to |items|
        invariant r == out + ExtractItems(items[..i], segments)
      {
        assert items[..i + 1][..i] == items[..i];
        r := ExtractAtInto(items[i], segments, r);
      }
      assert items[..|items|] == items;
    case Object(fields) =>
      if segments == [] {
        r := out + [v];
      } else {
        r := ExtractInto(fields, segments, out);
      }
    case _ =>
      r := if segments == [] then out + [v] else out;
  }

  /** `extract_in`: every way of grouping the leading segments into one key. */
  method ExtractInto(fields: Source, segments: seq<string>, out: seq<Value>) returns (r: seq<Value>)
    ensures r == out + ExtractIn(fields, segments, |segments|)
    decreases Object(fields), 1, 0
  {
    r := out;
    for k := 0 to |segments|
      invariant r == out + ExtractIn(fields, segments, k)
    {
      var key := Join(segments[..k + 1], '.');
      if key in fields {
        r := ExtractAtInto(fields[key], segments[k + 1..], r);
      }
    }
  }

  // ---- for_each_leaf ----

  /** Every leaf of `v` with its path, when the path buffer holds `at`. */
  ghost function Leaves(v: Value, at: string): (m: multiset<(string, Value)>)
    decreases v, 1, 0
  {
    match v
    case Null => multiset{}
    case Array(items) => ItemLeaves(items, at)
    case Object(fields) => MemberLeaves(fields, fields.Keys, at + ".")
    case _ => multiset{(at, v)}
  }

  ghost function ItemLeaves(items: seq<Value>, at: string): (m: multiset<(string, Value)>)
    decreases items
  {
    if items == [] then multiset{}
    else ItemLeaves(items[..|items| - 1], at) + Leaves(items[|items| - 1], at)
  }

  /** The leaves below the members `keys`, whatever order the walk takes them in. */
  ghost function MemberLeaves(fields: Source, keys: set<string>, prefix: string)
    : (m: multiset<(string, Value)>)
    requires keys <= fields.Keys
    decreases Object(fields), 0, |keys|
  {
    if keys == {} then multiset{}
    else
      var key :| key in keys;
      Leaves(fields[key], prefix + key) + MemberLeaves(fields, keys - {key}, prefix)
  }

  /** What `for_each_leaf` visits. */
  ghost function SourceLeaves(source: Source): (m: multiset<(string, Value)>) {
    MemberLeaves(source, source.Keys, "")
  }

  /** The walk may take any member first. */
  lemma {:induction false} MemberLeavesPick(fields: Source, keys: set<string>, prefix: string, key: string)
    requires key in keys && keys <= fields.Keys
    ensures MemberLeaves(fields, keys, prefix)
         == Leaves(fields[key], prefix + key) + MemberLeaves(fields, keys - {key}, prefix)
    decreases |keys|
  {
    var first :| first in keys && MemberLeaves(fields, keys, prefix)
      == Leaves(fields[first], prefix + first) + MemberLeaves(fields, keys - {first}, prefix);
    if first != key {
      MemberLeavesPick(fields, keys - {first}, prefix, key);
      MemberLeavesPick(fields, keys - {key}, prefix, first);
      assert keys - {first} - {key} == keys - {key} - {first};
    }
  }

  // ---- Every value and its path ----

  /** Every value of `v` that is not an array, nulls and objects among them, with its path, when the
      path so far is `at`. */
  ghost function Nodes(v: Value, at: string): (m: multiset<(string, Value)>)
    decreases v, 1, 0
  {
    match v
    case Array(items) => ItemNodes(items, at)
    case Object(fields) => multiset{(at, v)} + MemberNodes(fields, fields.Keys, at + ".")
    case _ => multiset{(at, v)}
  }

  ghost function ItemNodes(items: seq<Value>, at: string): (m: multiset<(string, Value)>)
    decreases items
  {
    if items == [] then multiset{}
    else ItemNodes(items[..|items| - 1], at) + Nodes(items[|items| - 1], at)
  }

  ghost function MemberNodes(fields: Source, keys: set<string>, prefix: string)
    : (m: multiset<(string, Value)>)
    requires keys <= fields.Keys
    decreases Object(fields), 0, |keys|
  {
    if keys == {} then multiset{}
    else
      var key :| key in keys;
      Nodes(fields[key], prefix + key) + MemberNodes(fields, keys - {key}, prefix)
  }

  lemma {:induction false} MemberNodesPick(fields: Source, keys: set<string>, prefix: string, key: string)
    requires key in keys && keys <= fields.Keys
    ensures MemberNodes(fields, keys, prefix)
         == Nodes(fields[key], prefix + key) + MemberNodes(fields, keys - {key}, prefix)
    decreases |keys|
  {
    var first :| first in keys && MemberNodes(fields, keys, prefix)
      == Nodes(fields[first], prefix + first) + MemberNodes(fields, keys - {first}, prefix);
    if first != key {
      MemberNodesPick(fields, keys - {first}, prefix, key);
      MemberNodesPick(fields, keys - {key}, prefix, first);
      assert keys - {first} - {key} == keys - {key} - {first};
    }
  }

  // ---- The two agree ----

  /** `path` is `at`, or continues it after a dot. */
  predicate Under(path: string, at: string) {
    |path| >= |at| && path[..|at|] == at && (|path| > |at| ==> path[|at|] == '.')
  }

  lemma {:induction false} NodesUnder(v: Value, at: string, node: (string, Value))
    requires node in Nodes(v, at)
    ensures Under(node.0, at)
    decreases v, 1, 0
  {
    match v
    case Array(items) => ItemNodesUnder(items, at, node);
    case Object(fields) =>
      if node != (at, v) {
        var key := MemberOfNode(fields, fields.Keys, at + ".", node);
        NodesUnder(fields[key], at + "." + key, node);
        assert node.0[..|at|] == (at + "." + key)[..|at|];
        assert node.0[|at|] == (at + "." + key)[|at|];
      }
    case _ =>
  }

  lemma {:induction false} ItemNodesUnder(items: seq<Value>, at: string, node: (string, Value))
    requires node in ItemNodes(items, at)
    ensures Under(node.0, at)
    decreases items
  {
    if node in Nodes(items[|items| - 1], at) {
      NodesUnder(items[|items| - 1], at, node);
    } else {
      ItemNodesUnder(items[..|items| - 1], at, node);
    }
  }

  lemma {:induction false} MemberOfNode(fields: Source, keys: set<string>, prefix: string, node: (string, Value))
    returns (key: string)
    requires keys <= fields.Keys
    requires node in MemberNodes(fields, keys, prefix)
    ensures key in keys && node in Nodes(fields[key], prefix + key)
    decreases |keys|
  {
    key :| key in keys;
    MemberNodesPick(fields, keys, prefix, key);
    if node !in Nodes(fields[key], prefix + key) {
      key := MemberOfNode(fields, keys - {key}, prefix, node);
    }
  }

  /** The keys `extract_in` looks up: the first 1 to `upto` segments joined. */
  function Groups(segments: seq<string>, upto: nat): set<string>
    requires upto <= |segments|
  {
    set i | 1 <= i <= upto :: Join(segments[..i], '.')
  }

  ghost predicate Dotless(segments: seq<string>) {
    forall i :: 0 <= i < |segments| ==> '.' !in segments[i]
  }

  lemma GroupSplits(segments: seq<string>, i: nat)
    requires 1 <= i <= |segments| && Dotless(segments)
    ensures Split(Join(segments[..i], '.'), '.') == segments[..i]
  {
    SplitOfJoin(segments[..i], '.');
  }

  lemma UnderStripped(prefix: string, path: string, at: string)
    requires Under(prefix + path, prefix + at)
    ensures Under(path, at)
  {
    var whole := prefix + path;
    assert whole[..|prefix + at|][|prefix|..] == at;
    assert path[..|at|] == at;
    if |path| > |at| {
      assert whole[|prefix| + |at|] == path[|at|];
    }
  }

  lemma SplitUnder(joined: string, key: string)
    requires Under(joined, key)
    ensures |Split(key, '.')| <= |Split(joined, '.')|
    ensures Split(joined, '.')[..|Split(key, '.')|] == Split(key, '.')
  {
    if |joined| == |key| {
      assert joined == key;
    } else {
      var rest := joined[|key| + 1..];
      assert joined == key + ['.'] + rest;
      SplitAround(key, rest, '.');
    }
  }

  /** Only a member named by a group of leading segments can hold a value at the whole path. */
  lemma HolderIsGroup(segments: seq<string>, key: string)
    requires segments != [] && Dotless(segments)
    requires Under(Join(segments, '.'), key)
    ensures key in Groups(segments, |segments|)
  {
    SplitUnder(Join(segments, '.'), key);
    SplitOfJoin(segments, '.');
    JoinOfSplit(key, '.');
    var i := |Split(key, '.')|;
    assert Join(segments[..i], '.') == key;
  }

  /** What is left of the target path below a value reached at `at`. */
  function Target(at: string, segments: seq<string>): string {
    if segments == [] then at else at + "." + Join(segments, '.')
  }

  /** Values read at a path and values walked at it agree in number, value by value. */
  lemma {:induction false} AtAgrees(v: Value, at: string, segments: seq<string>, node: Value)
    requires !node.Array? && Dotless(segments)
    ensures multiset(ExtractAt(v, segments))[node] == Nodes(v, at)[(Target(at, segments), node)]
    decreases v, 2, 0
  {
    match v
    case Array(items) => ItemsAgree(items, at, segments, node);
    case Object(fields) =>
      if segments != [] { MembersAgree(fields, at + ".", segments, node); }
      hide *;
      ObjectAgrees(fields, at, segments, node);
    case _ =>
  }

  lemma ObjectAgrees(fields: Source, at: string, segments: seq<string>, node: Value)
    requires segments != [] ==>
               multiset(ExtractIn(fields, segments, |segments|))[node]
               == MemberNodes(fields, fields.Keys, at + ".")[(at + "." + Join(segments, '.'), node)]
    ensures multiset(ExtractAt(Object(fields), segments))[node]
         == Nodes(Object(fields), at)[(Target(at, segments), node)]
  {
    ObjectNodes(fields, at);
    if segments == [] {
      NotBelow(fields, at, node);
    } else {
      TargetDeeper(at, segments);
    }
    hide Nodes, MemberNodes, Join, Target, ExtractIn;
  }

  lemma ObjectNodes(fields: Source, at: string)
    ensures Nodes(Object(fields), at) == multiset{(at, Object(fields))} + MemberNodes(fields, fields.Keys, at + ".")
  {
  }

  /** No member of an object stands at the object's own path. */
  lemma NotBelow(fields: Source, at: string, node: Value)
    ensures MemberNodes(fields, fields.Keys, at + ".")[(at, node)] == 0
  {
    if (at, node) in MemberNodes(fields, fields.Keys, at + ".") {
      var key := MemberOfNode(fields, fields.Keys, at + ".", (at, node));
      NodesUnder(fields[key], at + "." + key, (at, node));
    }
  }

  lemma TargetDeeper(at: string, segments: seq<string>)
    requires segments != []
    ensures Target(at, segments) == at + "." + Join(segments, '.') != at
  {
    assert |Target(at, segments)| > |at|;
  }

  lemma {:induction false} ItemsAgree(items: seq<Value>, at: string, segments: seq<string>, node: Value)
    requires !node.Array? && Dotless(segments)
    ensures multiset(ExtractItems(items, segments))[node]
         == ItemNodes(items, at)[(Target(at, segments), node)]
    decreases items
  {
    if items != [] {
      ItemsAgree(items[..|items| - 1], at, segments, node);
      AtAgrees(items[|items| - 1], at, segments, node);
    }
  }

  lemma {:induction false} MembersAgree(fields: Source, prefix: string, segments: seq<string>, node: Value)
    requires !node.Array? && segments != [] && Dotless(segments)
    ensures multiset(ExtractIn(fields, segments, |segments|))[node]
         == MemberNodes(fields, fields.Keys, prefix)[(prefix + Join(segments, '.'), node)]
    decreases Object(fields), 1, 0
  {
    GroupsAgree(fields, prefix, segments, |segments|, node);
    OtherMembersMiss(fields, fields.Keys, prefix, segments, node);
  }

  lemma GroupIsNew(segments: seq<string>, upto: nat)
    requires 1 <= upto <= |segments| && Dotless(segments)
    ensures Join(segments[..upto], '.') !in Groups(segments, upto - 1)
    ensures Groups(segments, upto) == Groups(segments, upto - 1) + {Join(segments[..upto], '.')}
  {
    forall i | 1 <= i <= upto - 1
      ensures Join(segments[..i], '.') != Join(segments[..upto], '.')
    {
      GroupSplits(segments, i);
      GroupSplits(segments, upto);
      assert |segments[..i]| != |segments[..upto]|;
    }
  }

  lemma TargetBelow(prefix: string, segments: seq<string>, upto: nat)
    requires 1 <= upto <= |segments|
    ensures Target(prefix + Join(segments[..upto], '.'), segments[upto..]) == prefix + Join(segments, '.')
  {
    hide Join;
    var head, tail := segments[..upto], segments[upto..];
    assert segments == head + tail;
    if tail != [] {
      JoinConcat(head, tail, '.');
      Reassociate(prefix, Join(head, '.'), Join(tail, '.'));
    } else {
      assert segments == head;
    }
  }

  lemma Reassociate(a: string, b: string, c: string)
    ensures a + (b + ['.'] + c) == a + b + "." + c
  {
  }

  lemma {:induction false} GroupsAgree(fields: Source, prefix: string, segments: seq<string>, upto: nat, node: Value)
    requires !node.Array? && Dotless(segments) && upto <= |segments|
    ensures multiset(ExtractIn(fields, segments, upto))[node]
         == MemberNodes(fields, Groups(segments, upto) * fields.Keys, prefix)[(prefix + Join(segments, '.'), node)]
    decreases Object(fields), 0, upto
  {
    if upto > 0 {
      GroupsAgree(fields, prefix, segments, upto - 1, node);
      var key := Join(segments[..upto], '.');
      if key in fields {
        AtAgrees(fields[key], prefix + key, segments[upto..], node);
        TargetBelow(prefix, segments, upto);
      }
      hide *;
      ExtractInStep(fields, segments, upto);
      GroupMembers(fields, prefix, segments, upto);
    }
  }

  lemma ExtractInStep(fields: Source, segments: seq<string>, upto: nat)
    requires 1 <= upto <= |segments|
    ensures var key := Join(segments[..upto], '.');
            multiset(ExtractIn(fields, segments, upto))
            == multiset(ExtractIn(fields, segments, upto - 1))
               + if key in fields then multiset(ExtractAt(fields[key], segments[upto..])) else multiset{}
  {
  }

  lemma GroupMembers(fields: Source, prefix: string, segments: seq<string>, upto: nat)
    requires 1 <= upto <= |segments| && Dotless(segments)
    ensures var key := Join(segments[..upto], '.');
            MemberNodes(fields, Groups(segments, upto) * fields.Keys, prefix)
            == MemberNodes(fields, Groups(segments, upto - 1) * fields.Keys, prefix)
               + if key in fields then Nodes(fields[key], prefix + key) else multiset{}
  {
    hide Join, Groups, MemberNodes, Nodes;
    var key := Join(segments[..upto], '.');
    var before, now := Groups(segments, upto - 1) * fields.Keys, Groups(segments, upto) * fields.Keys;
    GroupIsNew(segments, upto);
    if key in fields {
      MemberNodesPick(fields, now, prefix, key);
      assert now - {key} == before;
    } else {
      assert now == before;
    }
  }

  lemma {:induction false} OtherMembersMiss(
    fields: Source, keys: set<string>, prefix: string, segments: seq<string>, node: Value)
    requires segments != [] && Dotless(segments)
    requires Groups(segments, |segments|) * fields.Keys <= keys <= fields.Keys
    ensures MemberNodes(fields, keys, prefix)[(prefix + Join(segments, '.'), node)]
         == MemberNodes(fields, Groups(segments, |segments|) * fields.Keys, prefix)[(prefix + Join(segments,
             '.'), node)]
    decreases |keys|
  {
    var hits := Groups(segments, |segments|) * fields.Keys;
    if keys != hits {
      assert keys == hits + (keys - hits);
      var key :| key in keys - hits;
      MemberNodesPick(fields, keys, prefix, key);
      OtherMembersMiss(fields, keys - {key}, prefix, segments, node);
      var target := (prefix + Join(segments, '.'), node);
      if target in Nodes(fields[key], prefix + key) {
        NodesUnder(fields[key], prefix + key, target);
        UnderStripped(prefix, Join(segments, '.'), key);
        HolderIsGroup(segments, key);
        assert false;
      }
    }
  }

  // ---- Leaves ----

  /** The leaf walk visits a scalar wherever it stands, and as often. */
  lemma {:induction false} LeavesAreNodes(v: Value, at: string, path: string, leaf: Value)
    requires IsLeaf(leaf)
    ensures Leaves(v, at)[(path, leaf)] == Nodes(v, at)[(path, leaf)]
    decreases v, 1, 0
  {
    match v
    case Array(items) => ItemLeavesAreNodes(items, at, path, leaf);
    case Object(fields) => MemberLeavesAreNodes(fields, fields.Keys, at + ".", path, leaf);
    case _ =>
  }

  lemma {:induction false} ItemLeavesAreNodes(items: seq<Value>, at: string, path: string, leaf: Value)
    requires IsLeaf(leaf)
    ensures ItemLeaves(items, at)[(path, leaf)] == ItemNodes(items, at)[(path, leaf)]
    decreases items
  {
    if items != [] {
      ItemLeavesAreNodes(items[..|items| - 1], at, path, leaf);
      LeavesAreNodes(items[|items| - 1], at, path, leaf);
    }
  }

  lemma {:induction false} MemberLeavesAreNodes(
    fields: Source, keys: set<string>, prefix: string, path: string, leaf: Value)
    requires IsLeaf(leaf) && keys <= fields.Keys
    ensures MemberLeaves(fields, keys, prefix)[(path, leaf)] == MemberNodes(fields, keys, prefix)[(path, leaf)]
    decreases Object(fields), 0, |keys|
  {
    if keys != {} {
      var key :| key in keys && MemberLeaves(fields, keys, prefix)
        == Leaves(fields[key], prefix + key) + MemberLeaves(fields, keys - {key}, prefix);
      MemberNodesPick(fields, keys, prefix, key);
      LeavesAreNodes(fields[key], prefix + key, path, leaf);
      MemberLeavesAreNodes(fields, keys - {key}, prefix, path, leaf);
    }
  }

  /** Reading never gives an array: arrays are transparent. */
  lemma {:induction false} NoArrays(v: Value, segments: seq<string>, x: Value)
    requires x in ExtractAt(v, segments)
    ensures !x.Array?
    decreases v, 2, 0
  {
    match v
    case Array(items) => NoItemArrays(items, segments, x);
    case Object(fields) => if segments != [] { NoMemberArrays(fields, segments, |segments|, x); }
    case _ =>
  }

  lemma {:induction false} NoItemArrays(items: seq<Value>, segments: seq<string>, x: Value)
    requires x in ExtractItems(items, segments)
    ensures !x.Array?
    decreases items
  {
    if x in ExtractAt(items[|items| - 1], segments) {
      NoArrays(items[|items| - 1], segments, x);
    } else {
      NoItemArrays(items[..|items| - 1], segments, x);
    }
  }

  lemma {:induction false} NoMemberArrays(fields: Source, segments: seq<string>, upto: nat, x: Value)
    requires upto <= |segments| && x in ExtractIn(fields, segments, upto)
    ensures !x.Array?
    decreases Object(fields), 0, upto
  {
    var key := Join(segments[..upto], '.');
    if x in ExtractIn(fields, segments, upto - 1) {
      NoMemberArrays(fields, segments, upto - 1, x);
    } else {
      NoArrays(fields[key], segments[upto..], x);
    }
  }

  /** For every source and non-empty path, every value that is not an array, null and objects included,
      is read at the path exactly as many times as it stands there; and no array is. */
  lemma ExtractFindsAll(source: Source, path: string, value: Value)
    requires path != ""
    ensures multiset(Extract(source, path))[value]
         == if value.Array? then 0 else MemberNodes(source, source.Keys, "")[(path, value)]
  {
    var segments := Split(path, '.');
    if value.Array? {
      if value in ExtractIn(source, segments, |segments|) { NoMemberArrays(source, segments, |segments|, value); }
    } else {
      SplitParts(path, '.');
      MembersAgree(source, "", segments, value);
      JoinOfSplit(path, '.');
      assert "" + Join(segments, '.') == path;
    }
  }

  /** For every source and non-empty path, each non-null scalar is read at the path exactly as many
      times as the leaf walk visits it there. */
  lemma ExtractAgreesWithLeafWalk(source: Source, path: string, leaf: Value)
    requires path != "" && IsLeaf(leaf)
    ensures multiset(Extract(source, path))[leaf] == SourceLeaves(source)[(path, leaf)]
  {
    hide Extract, MemberNodes, MemberLeaves;
    ExtractFindsAll(source, path, leaf);
    MemberLeavesAreNodes(source, source.Keys, "", path, leaf);
  }
}
