/** Consistency tokens (crates/loams-collection/src/token.rs). */
module Tokens {
  import opened Prelude
  import opened Strings
  import opened Sorting
  import opened Decimals

  /** The next offset of one partition of one stream. */
  datatype Item = Item(stream: nat, partition: nat, offset: nat) {
    predicate Valid() { stream <= U64_MAX && partition <= U32_MAX && offset <= U64_MAX }

    function Pair(): (nat, nat) { (stream, partition) }
  }

  type Token = seq<Item>

  // ---- The text form ----

  function PrintItem(item: Item): string {
    "s" + Print(item.stream) + "/p" + Print(item.partition) + "@" + Print(item.offset)
  }

  function ParseItem(s: string): Option<Item> {
    if !("s" <= s) then None
    else
      match SplitOnce(s[1..], "/p")
      case None => None
      case Some((stream, rest)) =>
        match SplitOnce(rest, "@")
        case None => None
        case Some((partition, offset)) =>
          match (Parse(stream), Parse(partition), Parse(offset))
          case (Some(s), Some(p), Some(o)) => if p <= U32_MAX then Some(Item(s, p, o)) else None
          case _ => None
  }

  lemma NotInDigits(s: string, c: char)
    requires Digits(s) && !IsDigit(c)
    ensures c !in s
  {
  }

  lemma PrintedDigits(n: nat, c: char)
    requires !IsDigit(c)
    ensures c !in Print(n)
  {
    PrintCanonical(n);
    NotInDigits(Print(n), c);
  }

  lemma ItemRoundTrip(item: Item)
    requires item.Valid()
    ensures ParseItem(PrintItem(item)) == Some(item)
  {
    var a, b, c := Print(item.stream), Print(item.partition), Print(item.offset);
    var s := PrintItem(item);
    PrintedDigits(item.stream, '/');
    PrintedDigits(item.partition, '@');
    assert s[1..] == a + "/p" + (b + "@" + c);
    SplitOnceAt(a, "/p", b + "@" + c);
    SplitOnceAt(b, "@", c);
    ParsePrint(a, item.stream);
    ParsePrint(b, item.partition);
    ParsePrint(c, item.offset);
  }

  lemma ItemOneSpelling(s: string)
    ensures var r := ParseItem(s); r.Some? ==> r.value.Valid() && PrintItem(r.value) == s
  {
    var r := ParseItem(s);
    if r.Some? {
      var rest := SplitOnce(s[1..], "/p").value.1;
      SplitOnceJoins(s[1..], "/p");
      SplitOnceJoins(rest, "@");
      var a, b, c := SplitOnce(s[1..], "/p").value.0, SplitOnce(rest, "@").value.0, SplitOnce(rest, "@").value.1;
      ParsePrint(a, r.value.stream);
      ParsePrint(b, r.value.partition);
      ParsePrint(c, r.value.offset);
      hide SplitOnce, Print, Parse;
      Spelled(s, a, b, c);
    }
  }

  lemma Spelled(s: string, a: string, b: string, c: string)
    requires "s" <= s && s[1..] == a + "/p" + (b + "@" + c)
    ensures s == "s" + a + "/p" + b + "@" + c
  {
    assert s == "s" + s[1..];
    assert "s" + (a + "/p" + (b + "@" + c)) == "s" + a + "/p" + b + "@" + c;
  }

  function PrintItems(token: Token): (r: seq<string>)
    ensures |r| == |token|
    ensures forall i :: 0 <= i < |token| ==> r[i] == PrintItem(token[i])
  {
    seq(|token|, i requires 0 <= i < |token| => PrintItem(token[i]))
  }

  /** All items, or `None` if one does not parse. */
  function ParseItems(parts: seq<string>): (r: Option<Token>)
  {
    if parts == [] then Some([])
    else
      match (ParseItems(parts[..|parts| - 1]), ParseItem(parts[|parts| - 1]))
      case (Some(items), Some(item)) => Some(items + [item])
      case _ => None
  }

  const PREFIX := "v1:"

  function Display(token: Token): string {
    PREFIX + Join(PrintItems(token), ',')
  }

  lemma JoinFew(parts: seq<string>)
    ensures Join(parts[..0], ',') == "" && (|parts| == 1 ==> Join(parts, ',') == parts[0])
  {
  }

  lemma JoinOneMore(parts: seq<string>, i: nat)
    requires i < |parts|
    ensures PREFIX + Join(parts[..i + 1], ',')
         == if i == 0 then PREFIX + Join(parts[..i], ',') + parts[i]
             else PREFIX + Join(parts[..i], ',') + "," + parts[i]
  {
    hide Join;
    JoinFew(parts);
    JoinFew([parts[i]]);
    assert parts[..i + 1] == parts[..i] + [parts[i]];
    if i == 0 {
      assert parts[..1] == [parts[0]];
    } else {
      JoinConcat(parts[..i], [parts[i]], ',');
    }
  }

  method DisplayToken(token: Token) returns (s: string)
    ensures s == Display(token)
  {
    hide PrintItem, Join;
    s := PREFIX;
    JoinFew(PrintItems(token));
    for i := 0 to |token|
      invariant s == PREFIX + Join(PrintItems(token)[..i], ',')
    {
      var parts := PrintItems(token);
      JoinOneMore(parts, i);
      if i > 0 {
        s := s + ",";
      }
      s := s + PrintItem(token[i]);
    }
    assert PrintItems(token)[..|token|] == PrintItems(token);
  }

  lemma PrintSpells()
    ensures Print(0) == "0" && Print(3) == "3" && Print(7) == "7" && Print(918274) == "918274"
  {
    assert Print(91) == "91" && Print(918) == Print(91) + "8";
    assert Print(9182) == Print(918) + "2" && Print(91827) == Print(9182) + "7";
    assert Print(918274) == Print(91827) + "4";
  }

  lemma ItemSpells()
    ensures PrintItem(Item(0, 0, 0)) == "s0/p0@0" && PrintItem(Item(7, 3, 918274)) == "s7/p3@918274"
  {
    hide Print;
    PrintSpells();
  }

  lemma JoinTwo(a: string, b: string)
    ensures Join([a, b], ',') == a + "," + b
  {
    JoinCons(a, [b], ',');
    assert [a] + [b] == [a, b];
  }

  lemma DisplayFew(a: Item, b: Item)
    ensures Display([]) == "v1:" && Display([a]) == "v1:" + PrintItem(a)
    ensures Display([a, b]) == "v1:" + (PrintItem(a) + "," + PrintItem(b))
  {
    hide PrintItem, Join;
    assert PrintItems([]) == [] && PrintItems([a]) == [PrintItem(a)];
    assert PrintItems([a, b]) == [PrintItem(a), PrintItem(b)];
    JoinFew([PrintItem(a)]);
    JoinTwo(PrintItem(a), PrintItem(b));
    assert [PrintItem(a)][..0] == [];
    assert PREFIX + "" == PREFIX;
  }

  /** Some tokens as the text form spells them. */
  lemma DisplaySpells()
    ensures Display([]) == "v1:" && Display([Item(7, 3, 918274)]) == "v1:s7/p3@918274"
    ensures Display([Item(0, 0, 0), Item(7, 3, 918274)]) == "v1:s0/p0@0,s7/p3@918274"
  {
    hide *;
    ItemSpells();
    DisplayFew(Item(7, 3, 918274), Item(0, 0, 0));
    DisplayFew(Item(0, 0, 0), Item(7, 3, 918274));
  }

  function FromStr(s: string): Option<Token> {
    if !(PREFIX <= s) then None
    else
      var body := s[|PREFIX|..];
      if body == "" then Some([]) else ParseItems(Split(body, ','))
  }

  ghost predicate ValidToken(token: Token) {
    forall i :: 0 <= i < |token| ==> token[i].Valid()
  }

  lemma {:induction false} ItemsRoundTrip(token: Token)
    requires ValidToken(token)
    ensures ParseItems(PrintItems(token)) == Some(token)
  {
    hide ParseItem, PrintItem;
    if token != [] {
      var n := |token| - 1;
      ItemsRoundTrip(token[..n]);
      assert PrintItems(token)[..n] == PrintItems(token[..n]);
      ItemRoundTrip(token[n]);
      assert token == token[..n] + [token[n]];
    }
  }

  lemma {:induction false} ItemsOneSpelling(parts: seq<string>)
    ensures var r := ParseItems(parts); r.Some? ==> ValidToken(r.value) && PrintItems(r.value) == parts
  {
    hide ParseItem, PrintItem;
    if parts != [] {
      var n := |parts| - 1;
      ItemsOneSpelling(parts[..n]);
      ItemOneSpelling(parts[n]);
      var r := ParseItems(parts);
      if r.Some? {
        assert parts == parts[..n] + [parts[n]];
      }
    }
  }

  lemma ItemText(item: Item)
    ensures ',' !in PrintItem(item) && PrintItem(item) != ""
  {
    PrintedDigits(item.stream, ',');
    PrintedDigits(item.partition, ',');
    PrintedDigits(item.offset, ',');
  }

  /** Parsing undoes printing, and a string that parses is the one spelling of its token. */
  lemma ParseDisplay(s: string, token: Token)
    ensures FromStr(s) == Some(token) <==> ValidToken(token) && s == Display(token)
  {
    if ValidToken(token) && s == Display(token) {
      DisplayParses(token);
    }
    if FromStr(s) == Some(token) {
      ParsedDisplays(s, token);
    }
  }

  lemma DisplayParses(token: Token)
    requires ValidToken(token)
    ensures FromStr(Display(token)) == Some(token)
  {
    var parts := PrintItems(token);
    var s := Display(token);
    assert s[|PREFIX|..] == Join(parts, ',');
    forall i | 0 <= i < |parts| ensures ',' !in parts[i] && parts[i] != "" {
      ItemText(token[i]);
    }
    if token != [] {
      SplitOfJoin(parts, ',');
      ItemsRoundTrip(token);
      JoinNonEmpty(parts, ',');
    }
  }

  lemma JoinNonEmpty(parts: seq<string>, c: char)
    requires parts != [] && parts[0] != ""
    ensures Join(parts, c) != ""
  {
  }

  lemma ParsedDisplays(s: string, token: Token)
    requires FromStr(s) == Some(token)
    ensures ValidToken(token) && s == Display(token)
  {
    var body := s[|PREFIX|..];
    assert s == PREFIX + body;
    if body != "" {
      ItemsOneSpelling(Split(body, ','));
      JoinOfSplit(body, ',');
    } else {
      assert PrintItems([]) == [];
    }
  }

  // ---- Offsets and merging ----

  function Max(a: Option<nat>, b: nat): Option<nat> {
    if a.Some? && a.value >= b then a else Some(b)
  }

  /** The offset `token` has for a pair, the largest if it is listed more than once. */
  function Offset(token: Token, pair: (nat, nat)): (r: Option<nat>)
  {
    if token == [] then None
    else
      var before := Offset(token[..|token| - 1], pair);
      if token[|token| - 1].Pair() == pair then Max(before, token[|token| - 1].offset) else before
  }

  lemma OffsetStep(token: Token, item: Item, pair: (nat, nat))
    ensures Offset(token + [item], pair)
         == if item.Pair() == pair then Max(Offset(token, pair), item.offset) else Offset(token, pair)
  {
    assert (token + [item])[..|token|] == token;
  }

  /** `r` is the largest offset listed for `pair`. */
  ghost predicate Largest(token: Token, pair: (nat, nat), r: Option<nat>) {
    && (r.Some? ==> Item(pair.0, pair.1, r.value) in token)
    && (forall i :: 0 <= i < |token| && token[i].Pair() == pair ==> r.Some? && token[i].offset <= r.value)
  }

  lemma {:induction false} OffsetLargest(token: Token, pair: (nat, nat))
    ensures Largest(token, pair, Offset(token, pair))
  {
    if token != [] {
      var n := |token| - 1;
      OffsetLargest(token[..n], pair);
      assert token == token[..n] + [token[n]];
    }
  }

  lemma LargestUnique(a: Token, b: Token, pair: (nat, nat), r: Option<nat>, q: Option<nat>)
    requires Largest(a, pair, r) && Largest(b, pair, q)
    requires forall x :: x in a ==> x in b
    ensures r.Some? ==> q.Some? && r.value <= q.value
  {
    if r.Some? {
      var x := Item(pair.0, pair.1, r.value);
      var i :| 0 <= i < |b| && b[i] == x;
    }
  }

  /** The order of the items does not matter to their offsets. */
  lemma OffsetPermuted(a: Token, b: Token, pair: (nat, nat))
    requires multiset(a) == multiset(b)
    ensures Offset(a, pair) == Offset(b, pair)
  {
    OffsetLargest(a, pair);
    OffsetLargest(b, pair);
    forall x | x in a ensures x in b { assert x in multiset(a); }
    forall x | x in b ensures x in a { assert x in multiset(b); }
    LargestUnique(a, b, pair, Offset(a, pair), Offset(b, pair));
    LargestUnique(b, a, pair, Offset(b, pair), Offset(a, pair));
  }

  predicate PairLt(a: Item, b: Item) {
    a.stream < b.stream || (a.stream == b.stream && a.partition < b.partition)
  }

  predicate ItemLe(a: Item, b: Item) {
    PairLt(a, b) || (a.Pair() == b.Pair() && a.offset <= b.offset)
  }

  /** Sorted by pair, each pair once. */
  ghost predicate Normal(token: Token) {
    forall i, j :: 0 <= i < j < |token| ==> PairLt(token[i], token[j])
  }

  /** The last item replaced or a new one added, as `normalized` goes through the sorted items. */
  function Push(items: Token, item: Item): Token {
    if items != [] && items[|items| - 1].Pair() == item.Pair() then items[..|items| - 1] + [item] else items + [item]
  }

  function Dedup(sorted: Token): (r: Token)
    ensures sorted == [] <==> r == []
  {
    if sorted == [] then [] else Push(Dedup(sorted[..|sorted| - 1]), sorted[|sorted| - 1])
  }

  function Normalized(token: Token): Token {
    Dedup(Sort(ItemLe, token))
  }

  method Normalize(token: Token) returns (items: Token)
    ensures items == Normalized(token)
  {
    var sorted := Sort(ItemLe, token);
    items := [];
    for i := 0 to |sorted|
      invariant items == Dedup(sorted[..i])
    {
      assert sorted[..i + 1][..i] == sorted[..i];
      var item := sorted[i];
      if items != [] && (items[|items| - 1].stream, items[|items| - 1].partition) == (item.stream, item.partition) {
        items := items[|items| - 1 := item];
      } else {
        items := items + [item];
      }
    }
    assert sorted[..|sorted|] == sorted;
  }

  lemma {:induction false} DedupNormal(sorted: Token)
    requires SortedBy(ItemLe, sorted)
    ensures Normal(Dedup(sorted))
    ensures sorted != [] ==> Dedup(sorted)[|Dedup(sorted)| - 1] == sorted[|sorted| - 1]
    ensures forall pair :: Offset(Dedup(sorted), pair) == Offset(sorted, pair)
  {
    if sorted != [] {
      var n := |sorted| - 1;
      var front, item := sorted[..n], sorted[n];
      assert sorted == front + [item] && SortedBy(ItemLe, front);
      var items := Dedup(front);
      if front != [] { assert ItemLe(front[n - 1], item); }
      assert Dedup(sorted) == Push(items, item);
      hide Dedup, Offset, ItemLe, SortedBy;
      DedupNormal(front);
      PushNormal(items, item);
      forall pair ensures Offset(Dedup(sorted), pair) == Offset(sorted, pair) {
        PushOffset(items, item, pair);
        OffsetStep(front, item, pair);
      }
    }
  }

  lemma PushNormal(items: Token, item: Item)
    requires Normal(items) && (items != [] ==> ItemLe(items[|items| - 1], item))
    ensures Normal(Push(items, item))
  {
  }

  lemma PushOffset(items: Token, item: Item, pair: (nat, nat))
    requires items != [] ==> ItemLe(items[|items| - 1], item)
    ensures Offset(Push(items, item), pair)
         == if item.Pair() == pair then Max(Offset(items, pair), item.offset) else Offset(items, pair)
  {
    if items != [] && items[|items| - 1].Pair() == item.Pair() {
      var front, last := items[..|items| - 1], items[|items| - 1];
      assert items == front + [last];
      OffsetStep(front, last, pair);
      OffsetStep(front, item, pair);
    } else {
      OffsetStep(items, item, pair);
    }
  }

  lemma ItemOrder()
    ensures TotalPreorder(ItemLe)
  {
  }

  /** Normalizing keeps every offset and leaves each pair once, in order. */
  lemma NormalizedIsNormal(token: Token)
    ensures Normal(Normalized(token)) && forall pair :: Offset(Normalized(token), pair) == Offset(token, pair)
  {
    ItemOrder();
    SortSorts(ItemLe, token);
    DedupNormal(Sort(ItemLe, token));
    hide Dedup, Sort, Offset;
    forall pair ensures Offset(Normalized(token), pair) == Offset(token, pair) {
      OffsetPermuted(Sort(ItemLe, token), token, pair);
    }
  }

  lemma NormalOffset(token: Token, i: nat)
    requires Normal(token) && i < |token|
    ensures Offset(token, token[i].Pair()) == Some(token[i].offset)
  {
    var pair := token[i].Pair();
    OffsetLargest(token, pair);
    var r := Offset(token, pair);
    var j :| 0 <= j < |token| && token[j] == Item(pair.0, pair.1, r.value);
    OnePair(token, i, j);
  }

  lemma OnePair(token: Token, i: nat, j: nat)
    requires Normal(token) && i < |token| && j < |token| && token[i].Pair() == token[j].Pair()
    ensures i == j
  {
  }

  lemma NoOffset(token: Token, pair: (nat, nat))
    requires forall i :: 0 <= i < |token| ==> token[i].Pair() != pair
    ensures Offset(token, pair) == None
  {
    OffsetLargest(token, pair);
  }

  /** A normal token is determined by its offsets. */
  lemma {:induction false} NormalUnique(a: Token, b: Token)
    requires Normal(a) && Normal(b) && forall pair :: Offset(a, pair) == Offset(b, pair)
    ensures a == b
    decreases |a|
  {
    if a == [] || b == [] {
      if a != [] { NormalOffset(a, 0); }
      if b != [] { NormalOffset(b, 0); }
    } else {
      var m, n := |a| - 1, |b| - 1;
      LastsEqual(a, b);
      forall pair ensures Offset(a[..m], pair) == Offset(b[..n], pair) {
        FrontOffset(a, pair);
        FrontOffset(b, pair);
      }
      NormalUnique(a[..m], b[..n]);
      assert a == a[..m] + [a[m]] && b == b[..n] + [b[n]];
    }
  }

  lemma FrontOffset(token: Token, pair: (nat, nat))
    requires Normal(token) && token != []
    ensures Offset(token[..|token| - 1], pair)
         == if token[|token| - 1].Pair() == pair then None else Offset(token, pair)
  {
    if token[|token| - 1].Pair() == pair {
      NoOffset(token[..|token| - 1], pair);
    }
  }

  lemma NotAbove(a: Token, b: Token)
    requires Normal(a) && Normal(b) && a != [] && b != []
    requires forall pair :: Offset(a, pair) == Offset(b, pair)
    ensures a[|a| - 1].Pair() == b[|b| - 1].Pair() || PairLt(a[|a| - 1], b[|b| - 1])
  {
    var x := a[|a| - 1];
    NormalOffset(a, |a| - 1);
    OffsetLargest(b, x.Pair());
    var i :| 0 <= i < |b| && b[i] == Item(x.stream, x.partition, Offset(b, x.Pair()).value);
    if i < |b| - 1 { assert PairLt(b[i], b[|b| - 1]); }
  }

  lemma LastsEqual(a: Token, b: Token)
    requires Normal(a) && Normal(b) && a != [] && b != []
    requires forall pair :: Offset(a, pair) == Offset(b, pair)
    ensures a[|a| - 1] == b[|b| - 1]
  {
    NotAbove(a, b);
    NotAbove(b, a);
    NormalOffset(a, |a| - 1);
    NormalOffset(b, |b| - 1);
  }

  // ---- merge ----

  function Merge(a: Token, b: Token): Token {
    Normalized(a + b)
  }

  function Larger(a: Option<nat>, b: Option<nat>): Option<nat> {
    if b.None? then a else Max(a, b.value)
  }

  lemma {:induction false} OffsetConcat(a: Token, b: Token, pair: (nat, nat))
    ensures Offset(a + b, pair) == Larger(Offset(a, pair), Offset(b, pair))
    decreases |b|
  {
    if b == [] {
      assert a + b == a;
    } else {
      var n := |b| - 1;
      OffsetConcat(a, b[..n], pair);
      assert (a + b)[..|a + b| - 1] == a + b[..n];
    }
  }

  /** A merged token is normal, and each pair's offset is the larger of the two. */
  lemma MergeOffset(a: Token, b: Token, pair: (nat, nat))
    ensures Normal(Merge(a, b)) && Offset(Merge(a, b), pair) == Larger(Offset(a, pair), Offset(b, pair))
  {
    hide Normalized, Offset;
    NormalizedIsNormal(a + b);
    OffsetConcat(a, b, pair);
  }

  lemma MergeCommutes(a: Token, b: Token)
    ensures Merge(a, b) == Merge(b, a)
  {
    hide Merge, Offset;
    forall pair ensures Normal(Merge(a, b)) && Normal(Merge(b, a))
        && Offset(Merge(a, b), pair) == Offset(Merge(b, a), pair) {
      MergeOffset(a, b, pair);
      MergeOffset(b, a, pair);
    }
    MergeOffset(a, b, (0, 0));
    MergeOffset(b, a, (0, 0));
    NormalUnique(Merge(a, b), Merge(b, a));
  }

  lemma MergeAssociates(a: Token, b: Token, c: Token)
    ensures Merge(Merge(a, b), c) == Merge(a, Merge(b, c))
  {
    hide Merge, Offset;
    var left, right := Merge(Merge(a, b), c), Merge(a, Merge(b, c));
    forall pair ensures Offset(left, pair) == Offset(right, pair) {
      MergeOffset(a, b, pair);
      MergeOffset(Merge(a, b), c, pair);
      MergeOffset(b, c, pair);
      MergeOffset(a, Merge(b, c), pair);
    }
    MergeOffset(Merge(a, b), c, (0, 0));
    MergeOffset(a, Merge(b, c), (0, 0));
    NormalUnique(left, right);
  }

  /** Merging a token with itself changes nothing exactly when it is normal. */
  lemma MergeIdempotent(a: Token)
    ensures Merge(a, a) == a <==> Normal(a)
  {
    hide Merge, Offset;
    MergeOffset(a, a, (0, 0));
    if Normal(a) {
      forall pair ensures Offset(Merge(a, a), pair) == Offset(a, pair) {
        MergeOffset(a, a, pair);
      }
      NormalUnique(Merge(a, a), a);
    }
  }
}
