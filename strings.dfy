/**
 * String helpers shared by the model: the JavaScript `Array.prototype.join`,
 * `String.prototype.split` on a single character, and the character filter
 * behind `s.replace(/[^...]/g, "")`.
 */
module Strings {

  /** `parts.join(sep)`: the parts with `sep` between neighbours; `[].join(sep)` is "". */
  function Join(parts: seq<string>, sep: string): string
  {
    if |parts| == 0 then ""
    else if |parts| == 1 then parts[0]
    else parts[0] + sep + Join(parts[1..], sep)
  }

  /** A join of at least two parts begins with the first part and the separator, and ends with the separator and the last part. */
  lemma {:induction false} JoinSnoc(parts: seq<string>, sep: string, x: string)
    requires |parts| >= 1
    ensures Join(parts + [x], sep) == Join(parts, sep) + sep + x
    ensures |Join(parts + [x], sep)| >= |parts[0]| + |sep|
    ensures Join(parts + [x], sep)[..|parts[0]| + |sep|] == parts[0] + sep
  {
    var all := parts + [x];
    if |parts| == 1 {
      assert all[1..] == [x];
    } else {
      assert all[1..] == parts[1..] + [x];
      JoinSnoc(parts[1..], sep, x);
      AppendAssoc(parts[0], sep, Join(parts[1..], sep) + sep + x);
    }
  }

  /** `s.split(c)` for a one-character separator: "" splits into [""]. */
  function SplitOn(s: string, c: char): (r: seq<string>)
    ensures |r| >= 1
  {
    if s == [] then [""]
    else
      var rest := SplitOn(s[1..], c);
      if s[0] == c then [""] + rest else [[s[0]] + rest[0]] + rest[1..]
  }

  /** How many times `c` occurs in `s`. */
  function Count(s: string, c: char): nat
  {
    if s == [] then 0 else (if s[0] == c then 1 else 0) + Count(s[1..], c)
  }

  /** The pieces of every part, split on `c`, one after the other. */
  function SplitAll(parts: seq<string>, c: char): seq<string>
  {
    if parts == [] then [] else SplitOn(parts[0], c) + SplitAll(parts[1..], c)
  }

  /** The characters of `s` that satisfy `keep`, in order: `s.replace(/[^...]/g, "")`. */
  function Filter(s: string, keep: char -> bool): (r: string)
    ensures |r| <= |s|
    ensures forall i :: 0 <= i < |r| ==> keep(r[i])
  {
    if s == [] then [] else (if keep(s[0]) then [s[0]] else []) + Filter(s[1..], keep)
  }

  /** Filtering keeps every occurrence of a kept character and none of the others. */
  lemma {:induction false} FilterCounts(s: string, keep: char -> bool, c: char)
    ensures multiset(Filter(s, keep))[c] == if keep(c) then multiset(s)[c] else 0
  {
    if s != [] {
      FilterCounts(s[1..], keep, c);
      assert s == [s[0]] + s[1..];
    }
  }

  /** Splitting yields one more piece than there are separators. */
  lemma {:induction false} SplitCount(s: string, c: char)
    ensures |SplitOn(s, c)| == Count(s, c) + 1
  {
    if s != [] {
      SplitCount(s[1..], c);
    }
  }

  /** A string without the separator splits into itself alone. */
  lemma {:induction false} SplitWithout(s: string, c: char)
    requires c !in s
    ensures SplitOn(s, c) == [s]
  {
    if s != [] {
      SplitWithout(s[1..], c);
      assert [s[0]] + s[1..] == s;
    }
  }

  /** Concatenation is associative; stated for any element type, the proof never compares elements. */
  lemma AppendAssoc<T>(x: seq<T>, y: seq<T>, z: seq<T>)
    ensures x + (y + z) == (x + y) + z
  {
  }

  /** How one leading character enters the split of the rest. */
  lemma {:induction false} SplitCons(x: char, s: string, c: char)
    ensures SplitOn([x] + s, c)
         == if x == c then [""] + SplitOn(s, c)
            else [[x] + SplitOn(s, c)[0]] + SplitOn(s, c)[1..]
  {
    assert ([x] + s)[0] == x && ([x] + s)[1..] == s;
  }

  /** One separator between `a` and `b` splits exactly there. */
  lemma {:induction false} SplitAround(a: string, c: char, b: string)
    ensures SplitOn(a + [c] + b, c) == SplitOn(a, c) + SplitOn(b, c)
  {
    if a == [] {
      assert a + [c] + b == [c] + b;
      SplitCons(c, b, c);
    } else {
      assert a == [a[0]] + a[1..];
      SplitAround(a[1..], c, b);
      SplitAroundStep(a[0], a[1..], c, b);
    }
  }

  /** The step of `SplitAround`: a leading character enters both sides' first piece alike. */
  lemma SplitAroundStep(x: char, s: string, c: char, b: string)
    requires SplitOn(s + [c] + b, c) == SplitOn(s, c) + SplitOn(b, c)
    ensures SplitOn([x] + s + [c] + b, c) == SplitOn([x] + s, c) + SplitOn(b, c)
  {
    var t := s + [c] + b;
    AppendAssoc([x], s + [c], b);
    AppendAssoc([x], s, [c]);
    SplitCons(x, t, c);
    SplitCons(x, s, c);
    SplitHeadAppend(x, c, SplitOn(s, c), SplitOn(b, c));
  }

  /** Prepending a character's effect to a split commutes with appending further pieces. */
  lemma SplitHeadAppend(x: char, c: char, left: seq<string>, right: seq<string>)
    requires |left| >= 1
    ensures (if x == c then [""] + (left + right) else [[x] + (left + right)[0]] + (left + right)[1..])
         == (if x == c then [""] + left else [[x] + left[0]] + left[1..]) + right
  {
    if x == c {
      AppendAssoc([""], left, right);
    } else {
      assert (left + right)[1..] == left[1..] + right;
      AppendAssoc([[x] + left[0]], left[1..], right);
    }
  }

  /** Splitting a join on its one-character separator gives back the pieces of the parts. */
  lemma {:induction false} SplitJoin(parts: seq<string>, c: char)
    requires |parts| >= 1
    ensures SplitOn(Join(parts, [c]), c) == SplitAll(parts, c)
  {
    if |parts| == 1 {
      assert SplitAll(parts[1..], c) == [];
    } else {
      SplitJoin(parts[1..], c);
      SplitAround(parts[0], c, Join(parts[1..], [c]));
    }
  }

  /** When no part holds the separator, split undoes join. */
  lemma {:induction false} SplitAllWithout(parts: seq<string>, c: char)
    requires forall i :: 0 <= i < |parts| ==> c !in parts[i]
    ensures SplitAll(parts, c) == parts
  {
    if parts != [] {
      SplitWithout(parts[0], c);
      SplitAllWithout(parts[1..], c);
    }
  }

  /** Filtering distributes over concatenation. */
  lemma {:induction false} FilterAppend(a: string, b: string, keep: char -> bool)
    ensures Filter(a + b, keep) == Filter(a, keep) + Filter(b, keep)
  {
    if a != [] {
      FilterAppend(a[1..], b, keep);
      assert (a + b)[0] == a[0] && (a + b)[1..] == a[1..] + b;
    } else {
      assert a + b == b;
    }
  }

  /** Filtering a string whose characters are all kept changes nothing. */
  lemma {:induction false} FilterKeepsAll(s: string, keep: char -> bool)
    requires forall i :: 0 <= i < |s| ==> keep(s[i])
    ensures Filter(s, keep) == s
  {
    if s != [] {
      FilterKeepsAll(s[1..], keep);
      assert [s[0]] + s[1..] == s;
    }
  }

  /** A join holds a character only if a part or the separator does. */
  lemma {:induction false} JoinWithout(parts: seq<string>, sep: string, c: char)
    requires c !in sep
    requires forall i :: 0 <= i < |parts| ==> c !in parts[i]
    ensures c !in Join(parts, sep)
  {
    if |parts| > 1 {
      JoinWithout(parts[1..], sep, c);
    }
  }

  /** Splitting the parts of `a + b` is splitting those of `a`, then those of `b`. */
  lemma {:induction false} SplitAllAppend(a: seq<string>, b: seq<string>, c: char)
    ensures SplitAll(a + b, c) == SplitAll(a, c) + SplitAll(b, c)
  {
    if a == [] {
      assert a + b == b;
    } else {
      SplitAllAppend(a[1..], b, c);
      assert (a + b)[1..] == a[1..] + b;
    }
  }
}
