/**
 * The Python string operations the scraper relies on: substring search (`w in s`),
 * `s.split(w)[0]`, `s.replace(c, "")`, `s.replace(w, n)` and `s.split(c)`.
 */
module Text {
  import opened Wrappers

  /** `w` occurs in `s` starting at index `i`. */
  predicate OccursAt(s: string, w: string, i: int)
  {
    0 <= i && i + |w| <= |s| && s[i..i + |w|] == w
  }

  /** The first index at or after `i` where `w` occurs in `s`. */
  function IndexFrom(s: string, w: string, i: nat): (r: Option<nat>)
    ensures r.Some? ==> i <= r.value && OccursAt(s, w, r.value)
    ensures r.Some? ==> forall j :: i <= j < r.value ==> !OccursAt(s, w, j)
    ensures r.None? ==> forall j :: i <= j ==> !OccursAt(s, w, j)
    decreases |s| + 1 - i
  {
    if i + |w| > |s| then None
    else if s[i..i + |w|] == w then Some(i)
    else IndexFrom(s, w, i + 1)
  }

  /** Python's `w in s`. */
  function Contains(s: string, w: string): (b: bool)
    ensures b <==> exists i :: OccursAt(s, w, i)
  {
    IndexFrom(s, w, 0).Some?
  }

  /** Python's `s.split(w)[0]`: the text before the first occurrence of `w`, or all of `s`. */
  function Before(s: string, w: string): (r: string)
    requires |w| > 0
    ensures r <= s
    ensures forall i :: !OccursAt(r, w, i)
    ensures r == s || OccursAt(s, w, |r|)
    ensures forall i :: 0 <= i < |r| ==> !OccursAt(s, w, i)
  {
    match IndexFrom(s, w, 0)
    case Some(k) =>
      assert forall i :: OccursAt(s[..k], w, i) ==> OccursAt(s, w, i) by {
        forall i | OccursAt(s[..k], w, i) ensures OccursAt(s, w, i) {
          assert s[..k][i..i + |w|] == s[i..i + |w|];
        }
      }
      s[..k]
    case None => s
  }

  /** Without an occurrence of `w`, `s.split(w)[0]` is all of `s`. */
  lemma BeforeAbsent(s: string, w: string)
    requires |w| > 0 && !Contains(s, w)
    ensures Before(s, w) == s
  {
  }

  /** Python's `s.replace(c, "")` for a single character `c`. */
  function RemoveChar(s: string, c: char): (r: string)
    ensures c !in r
    ensures |r| <= |s|
  {
    if s == [] then []
    else (if s[0] == c then [] else [s[0]]) + RemoveChar(s[1..], c)
  }

  /** Deleting a character never brings in another one. */
  lemma {:induction false} RemoveCharAbsentStays(s: string, c: char, x: char)
    requires x !in s
    ensures x !in RemoveChar(s, c)
  {
    if s != [] {
      RemoveCharAbsentStays(s[1..], c, x);
    }
  }

  /** Deleting `c` keeps every other character, as many times as it occurred. */
  lemma {:induction false} RemoveCharKeeps(s: string, c: char)
    ensures multiset(RemoveChar(s, c)) == multiset(s)[c := 0]
  {
    if s != [] {
      var x, rest := s[0], s[1..];
      RemoveCharKeeps(rest, c);
      assert s == [x] + rest;
      ZeroAdded(multiset(rest), x, c);
      if x == c {
        assert RemoveChar(s, c) == RemoveChar(rest, c);
      } else {
        assert RemoveChar(s, c) == [x] + RemoveChar(rest, c);
      }
    }
  }

  /** Zeroing the count of `c` after adding one `x`. */
  lemma ZeroAdded(m: multiset<char>, x: char, c: char)
    ensures (multiset{x} + m)[c := 0] == if x == c then m[c := 0] else multiset{x} + m[c := 0]
  {
    var l := (multiset{x} + m)[c := 0];
    var r := if x == c then m[c := 0] else multiset{x} + m[c := 0];
    forall y ensures l[y] == r[y] {
    }
    assert l == r;
  }

  /** Deleting `c` from a one-character text. */
  lemma RemoveCharOne(x: char, c: char)
    ensures RemoveChar([x], c) == if x == c then [] else [x]
  {
    assert [x][1..] == [];
  }

  lemma {:induction false} RemoveCharAbsent(s: string, c: char)
    requires c !in s
    ensures RemoveChar(s, c) == s
  {
    if s != [] {
      RemoveCharAbsent(s[1..], c);
    }
  }

  /** Deleting a character from a concatenation deletes it from both halves. */
  lemma {:induction false} RemoveCharConcat(a: string, b: string, c: char)
    ensures RemoveChar(a + b, c) == RemoveChar(a, c) + RemoveChar(b, c)
    decreases |a|
  {
    if a == [] {
      assert a + b == b;
    } else {
      var h, x, y := if a[0] == c then [] else [a[0]], RemoveChar(a[1..], c), RemoveChar(b, c);
      assert (a + b)[0] == a[0] && (a + b)[1..] == a[1..] + b;
      assert RemoveChar(a + b, c) == h + RemoveChar(a[1..] + b, c);
      RemoveCharConcat(a[1..], b, c);
      assert RemoveChar(a, c) == h + x;
      assert h + (x + y) == (h + x) + y;
    }
  }

  /** Joins `parts` with `sep` between consecutive parts: the inverse of `Split`. */
  function Join(parts: seq<string>, sep: char): string
  {
    if |parts| == 0 then []
    else if |parts| == 1 then parts[0]
    else parts[0] + [sep] + Join(parts[1..], sep)
  }

  /** Python's `s.split(sep)` for a single-character separator. */
  function Split(s: string, sep: char): (r: seq<string>)
    ensures |r| >= 1
    ensures forall i :: 0 <= i < |r| ==> sep !in r[i]
    decreases |s|
  {
    if s == [] then [[]]
    else
      var rest := Split(s[1..], sep);
      if s[0] == sep then [[]] + rest
      else [[s[0]] + rest[0]] + rest[1..]
  }

  /** Joining the parts again gives back the text. */
  lemma {:induction false} SplitJoin(s: string, sep: char)
    ensures Join(Split(s, sep), sep) == s
    decreases |s|
  {
    if s != [] {
      var rest := Split(s[1..], sep);
      SplitJoin(s[1..], sep);
      assert s == [s[0]] + s[1..];
      if s[0] == sep {
        JoinEmptyHead(rest, sep);
      } else {
        JoinCons(s[0], rest, sep);
      }
    }
  }

  /** An empty first part joins to a leading separator. */
  lemma JoinEmptyHead(rest: seq<string>, sep: char)
    requires |rest| >= 1
    ensures Join([[]] + rest, sep) == [sep] + Join(rest, sep)
  {
    assert ([[]] + rest)[1..] == rest;
  }

  /** A character put in front of the first part comes out in front of the joined text. */
  lemma JoinCons(c: char, rest: seq<string>, sep: char)
    requires |rest| >= 1
    ensures Join([[c] + rest[0]] + rest[1..], sep) == [c] + Join(rest, sep)
  {
    var r := [[c] + rest[0]] + rest[1..];
    if |rest| > 1 {
      assert r[1..] == rest[1..];
      assert Join(r, sep) == [c] + rest[0] + [sep] + Join(rest[1..], sep);
    }
  }

  /** There is one more part than there are separators. */
  lemma {:induction false} SplitCount(s: string, sep: char)
    ensures |Split(s, sep)| == multiset(s)[sep] + 1
    decreases |s|
  {
    if s != [] {
      SplitCount(s[1..], sep);
      assert s == [s[0]] + s[1..];
      assert multiset(s) == multiset{s[0]} + multiset(s[1..]);
    }
  }

  lemma SplitWithout(s: string, sep: char)
    requires sep !in s
    ensures Split(s, sep) == [s]
  {
    SplitCount(s, sep);
    SplitJoin(s, sep);
    assert multiset(s)[sep] == 0;
  }

  /** One step of `Split`, for a text given as its first character and the rest. */
  lemma SplitCons(c: char, t: string, sep: char)
    ensures Split([c] + t, sep) ==
      if c == sep then [[]] + Split(t, sep) else [[c] + Split(t, sep)[0]] + Split(t, sep)[1..]
  {
    assert ([c] + t)[0] == c && ([c] + t)[1..] == t;
  }

  /** Splitting at one separator splits the text into the parts on either side. */
  lemma {:induction false} SplitAround(x: string, sep: char, y: string)
    ensures Split(x + [sep] + y, sep) == Split(x, sep) + Split(y, sep)
    decreases |x|
  {
    if x == [] {
      assert x + [sep] + y == [sep] + y;
      SplitCons(sep, y, sep);
    } else {
      var t := x[1..] + [sep] + y;
      assert x + [sep] + y == [x[0]] + t;
      assert x == [x[0]] + x[1..];
      SplitAround(x[1..], sep, y);
      SplitCons(x[0], t, sep);
      SplitCons(x[0], x[1..], sep);
      PartsJoin(x[0] == sep, [x[0]], Split(x[1..], sep), Split(y, sep));
    }
  }

  /** Putting the head back in front of the tail of `s`, before `t`. */
  lemma ConsTail<T>(s: seq<T>, t: seq<T>)
    requires |s| > 0
    ensures [s[0]] + (s[1..] + t) == s + t
  {
    assert s == [s[0]] + s[1..];
  }

  /** A first part without the separator is split off whole. */
  lemma SplitLine(x: string, sep: char, y: string)
    requires sep !in x
    ensures Split(x + [sep] + y, sep) == [x] + Split(y, sep)
  {
    SplitAround(x, sep, y);
    SplitWithout(x, sep);
  }

  /**
   * One step of `Split` on parts `a + b` equals that step on `a`, followed by `b`: a new
   * empty part in front, or `c` prepended to the first part.
   */
  lemma PartsJoin(split: bool, c: string, a: seq<string>, b: seq<string>)
    requires |a| >= 1
    ensures (if split then [[]] + (a + b) else [c + (a + b)[0]] + (a + b)[1..])
         == (if split then [[]] + a else [c + a[0]] + a[1..]) + b
  {
    if split {
      assert [[]] + (a + b) == ([[]] + a) + b;
    } else {
      var h := c + a[0];
      assert (a + b)[0] == a[0];
      assert (a + b)[1..] == a[1..] + b;
      assert [h] + (a[1..] + b) == ([h] + a[1..]) + b;
    }
  }

  /** Text without the separator stays at the head of the first part. */
  lemma {:induction false} SplitFirst(a: string, z: string, sep: char)
    requires sep !in a
    ensures Split(a + z, sep)[0] == a + Split(z, sep)[0]
    decreases |a|
  {
    if a == [] {
      assert a + z == z;
    } else {
      assert a + z == [a[0]] + (a[1..] + z);
      SplitCons(a[0], a[1..] + z, sep);
      SplitFirst(a[1..], z, sep);
      assert [a[0]] + (a[1..] + Split(z, sep)[0]) == a + Split(z, sep)[0];
    }
  }

  /** Python's `s.split('"')[1]`: the text between the first and second double quote. */
  function QuotedField(s: string): (r: string)
    requires '"' in s
    ensures '"' !in r
  {
    SplitCount(s, '"');
    Split(s, '"')[1]
  }

  /** The field between the first two quotes of `a + '"' + b + '"' + c`, when `a` and `b` hold no quote. */
  lemma QuotedFieldOf(a: string, b: string, c: string)
    requires '"' !in a && '"' !in b
    ensures QuotedField(a + ['"'] + b + ['"'] + c) == b
  {
    var s := a + ['"'] + b + ['"'] + c;
    assert s == a + ['"'] + (b + ['"'] + c);
    SplitAround(a, '"', b + ['"'] + c);
    SplitAround(b, '"', c);
    SplitWithout(a, '"');
    SplitWithout(b, '"');
  }

  /** Python's `s.replace(w, n)`: every occurrence of `w`, scanned left to right without overlap. */
  function ReplaceAll(s: string, w: string, n: string): (r: string)
    requires |w| > 0
    ensures (forall i :: !OccursAt(s, w, i)) ==> r == s
    decreases |s|
  {
    if |s| < |w| then s
    else if s[..|w|] == w then
      assert OccursAt(s, w, 0);
      n + ReplaceAll(s[|w|..], w, n)
    else
      assert !OccursAt(s, w, 0);
      assert forall i :: OccursAt(s[1..], w, i) ==> OccursAt(s, w, i + 1) by {
        forall i | OccursAt(s[1..], w, i) ensures OccursAt(s, w, i + 1) {
          assert s[1..][i..i + |w|] == s[i + 1..i + 1 + |w|];
        }
      }
      [s[0]] + ReplaceAll(s[1..], w, n)
  }

  /** Deleting `w` from `p + w` gives back `p` when `w` first occurs at the end. */
  lemma {:induction false} DeleteTrailing(p: string, w: string)
    requires |w| > 0
    requires forall i :: 0 <= i < |p| ==> !OccursAt(p + w, w, i)
    ensures ReplaceAll(p + w, w, []) == p
    decreases |p|
  {
    if p == [] {
      assert p + w == w;
      assert w[|w|..] == [];
    } else {
      assert !OccursAt(p + w, w, 0);
      assert (p + w)[1..] == p[1..] + w;
      forall i | 0 <= i < |p[1..]| ensures !OccursAt(p[1..] + w, w, i) {
        assert !OccursAt(p + w, w, i + 1);
        assert (p + w)[i + 1..i + 1 + |w|] == (p[1..] + w)[i..i + |w|];
      }
      DeleteTrailing(p[1..], w);
      assert [p[0]] + p[1..] == p;
    }
  }

  /** Deleting `w` from `w + t` deletes the leading copy and continues in `t`. */
  lemma DeleteLeading(w: string, t: string)
    requires |w| > 0
    ensures ReplaceAll(w + t, w, []) == ReplaceAll(t, w, [])
  {
    assert (w + t)[..|w|] == w;
    assert (w + t)[|w|..] == t;
  }
}
