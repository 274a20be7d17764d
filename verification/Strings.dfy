/** Splitting and joining text. */
module Strings {
  import opened Prelude

  /** `x` in front of the first part. */
  function Onto(x: char, parts: seq<string>): (r: seq<string>)
    requires parts != []
    ensures r != []
  {
    [[x] + parts[0]] + parts[1..]
  }

  /** `str::split(c)`. */
  function Split(s: string, c: char): (parts: seq<string>)
    ensures parts != []
  {
    if s == "" then [""]
    else if s[0] == c then [""] + Split(s[1..], c)
    else Onto(s[0], Split(s[1..], c))
  }

  /** `join` with the separator `c`. */
  function Join(parts: seq<string>, c: char): (s: string)
  {
    if parts == [] then ""
    else if |parts| == 1 then parts[0]
    else parts[0] + [c] + Join(parts[1..], c)
  }

  lemma SplitCons(x: char, s: string, c: char)
    ensures Split([x] + s, c) == if x == c then [""] + Split(s, c) else Onto(x, Split(s, c))
  {
    assert ([x] + s)[1..] == s;
  }

  lemma JoinCons(p: string, parts: seq<string>, c: char)
    requires parts != []
    ensures Join([p] + parts, c) == p + [c] + Join(parts, c)
  {
    assert ([p] + parts)[1..] == parts;
  }

  lemma JoinOnto(x: char, parts: seq<string>, c: char)
    requires parts != []
    ensures Join(Onto(x, parts), c) == [x] + Join(parts, c)
  {
    if |parts| > 1 {
      hide Join;
      JoinCons([x] + parts[0], parts[1..], c);
      JoinCons(parts[0], parts[1..], c);
      assert parts == [parts[0]] + parts[1..];
      assert [x] + parts[0] + [c] == [x] + (parts[0] + [c]);
    }
  }

  lemma OntoConcat(x: char, a: seq<string>, b: seq<string>)
    requires a != []
    ensures Onto(x, a + b) == Onto(x, a) + b
  {
  }

  /** No part contains the separator. */
  lemma {:induction false} SplitParts(s: string, c: char)
    ensures forall i :: 0 <= i < |Split(s, c)| ==> c !in Split(s, c)[i]
  {
    if s != "" {
      SplitParts(s[1..], c);
    }
  }

  lemma {:induction false} JoinOfSplit(s: string, c: char)
    ensures Join(Split(s, c), c) == s
  {
    if s != "" {
      hide Split, Join, Onto;
      JoinOfSplit(s[1..], c);
      assert s == [s[0]] + s[1..];
      SplitCons(s[0], s[1..], c);
      JoinCons("", Split(s[1..], c), c);
      JoinOnto(s[0], Split(s[1..], c), c);
    }
  }

  lemma Regroup(a: string, c: char, b: string)
    requires a != ""
    ensures a == [a[0]] + a[1..] && a + [c] + b == [a[0]] + (a[1..] + [c] + b)
  {
  }

  /** Splitting around one separator splits both sides. */
  lemma {:induction false} SplitAround(a: string, b: string, c: char)
    ensures Split(a + [c] + b, c) == Split(a, c) + Split(b, c)
    decreases |a|
  {
    if a == "" {
      SplitCons(c, b, c);
      assert a + [c] + b == [c] + b;
    } else {
      hide Split, Onto;
      SplitAround(a[1..], b, c);
      OntoConcat(a[0], Split(a[1..], c), Split(b, c));
      Regroup(a, c, b);
      SplitCons(a[0], a[1..] + [c] + b, c);
      SplitCons(a[0], a[1..], c);
    }
  }

  lemma {:induction false} SplitAtom(s: string, c: char)
    requires c !in s
    ensures Split(s, c) == [s]
  {
    if s != "" {
      SplitAtom(s[1..], c);
      assert s == [s[0]] + s[1..];
    }
  }

  lemma {:induction false} SplitOfJoin(parts: seq<string>, c: char)
    requires parts != []
    requires forall i :: 0 <= i < |parts| ==> c !in parts[i]
    ensures Split(Join(parts, c), c) == parts
  {
    SplitAtom(parts[0], c);
    if |parts| > 1 {
      hide Split, Join;
      SplitOfJoin(parts[1..], c);
      assert parts == [parts[0]] + parts[1..];
      JoinCons(parts[0], parts[1..], c);
      SplitAround(parts[0], Join(parts[1..], c), c);
    }
  }

  /** Joining two lists puts one separator between them. */
  lemma {:induction false} JoinConcat(a: seq<string>, b: seq<string>, c: char)
    requires a != [] && b != []
    ensures Join(a + b, c) == Join(a, c) + [c] + Join(b, c)
  {
    if |a| == 1 {
      assert (a + b)[1..] == b;
    } else {
      hide Join;
      assert a == [a[0]] + a[1..] && a + b == [a[0]] + (a[1..] + b);
      JoinConcat(a[1..], b, c);
      JoinCons(a[0], a[1..], c);
      JoinCons(a[0], a[1..] + b, c);
      assert a[0] + [c] + (Join(a[1..], c) + [c] + Join(b, c)) == a[0] + [c] + Join(a[1..], c) + [c] + Join(b, c);
    }
  }

  // ---- split_once ----

  /** The text before and after the first `sep`. */
  function SplitOnce(s: string, sep: string): (r: Option<(string, string)>)
  {
    if sep <= s then Some(("", s[|sep|..]))
    else if s == "" then None
    else
      match SplitOnce(s[1..], sep)
      case None => None
      case Some((a, b)) => Some(([s[0]] + a, b))
  }

  lemma {:induction false} SplitOnceJoins(s: string, sep: string)
    ensures var r := SplitOnce(s, sep); r.Some? ==> s == r.value.0 + sep + r.value.1
  {
    if !(sep <= s) && s != "" {
      SplitOnceJoins(s[1..], sep);
      assert s == [s[0]] + s[1..];
    }
  }

  /** Text without the separator's first character is not split early. */
  lemma {:induction false} SplitOnceAt(a: string, sep: string, b: string)
    requires sep != "" && sep[0] !in a
    ensures SplitOnce(a + sep + b, sep) == Some((a, b))
  {
    var s := a + sep + b;
    if a == "" {
      assert s == sep + b;
    } else {
      assert s[0] == a[0] && s[1..] == a[1..] + sep + b;
      SplitOnceAt(a[1..], sep, b);
      assert [a[0]] + a[1..] == a;
    }
  }
}
