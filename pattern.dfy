/**
 * The first match of a regular expression of the shape `prefix.*?suffix`, where the
 * prefix and suffix are literal text and `.` is any character but a line break, as
 * Python's `re.findall(...)[0]` finds it: the match that starts leftmost, and of the
 * matches starting there the shortest (the gap is lazy).
 */
module Pattern {
  import opened Wrappers
  import opened Text

  /** No line break in `s[from..to]`, and that range lies inside `s`. */
  predicate NoBreak(s: string, from: int, to: int)
  {
    && (from < to ==> 0 <= from && to <= |s|)
    && forall t :: from <= t < to ==> s[t] != '\n'
  }

  /** `pre` starts at `a`, the gap runs from `a + |pre|` to `p`, and `suf` starts at `p`. */
  predicate MatchAt(s: string, pre: string, suf: string, a: int, p: int)
  {
    OccursAt(s, pre, a) && a + |pre| <= p && NoBreak(s, a + |pre|, p) && OccursAt(s, suf, p)
  }

  /** The match at `(a, p)` is the one a left-to-right lazy search reports first. */
  ghost predicate FirstMatchAt(s: string, pre: string, suf: string, a: int, p: int)
  {
    && MatchAt(s, pre, suf, a, p)
    && (forall a', p' :: a' < a ==> !MatchAt(s, pre, suf, a', p'))
    && (forall p' :: p' < p ==> !MatchAt(s, pre, suf, a, p'))
  }

  lemma NoBreakStep(s: string, e: int, q: int)
    requires 0 <= e < |s| && s[e] != '\n'
    ensures NoBreak(s, e, q) <==> NoBreak(s, e + 1, q)
  {
    if NoBreak(s, e + 1, q) {
      forall t | e <= t < q ensures s[t] != '\n' {
        if t > e {
          assert e + 1 <= t < q;
        }
      }
    }
  }

  /** The smallest `p >= e` at which `suf` occurs with no line break in `s[e..p]`. */
  function LazyEnd(s: string, suf: string, e: nat): (r: Option<nat>)
    ensures r.Some? ==> e <= r.value && OccursAt(s, suf, r.value) && NoBreak(s, e, r.value)
    ensures r.Some? ==> forall q :: e <= q < r.value ==> !OccursAt(s, suf, q)
    ensures r.None? ==> forall q :: e <= q && NoBreak(s, e, q) ==> !OccursAt(s, suf, q)
    decreases |s| - e
  {
    if OccursAt(s, suf, e) then Some(e)
    else if e < |s| && s[e] != '\n' then
      var r := LazyEnd(s, suf, e + 1);
      assert forall q :: NoBreak(s, e, q) <==> NoBreak(s, e + 1, q) by {
        forall q { NoBreakStep(s, e, q); }
      }
      r
    else
      assert forall q :: e < q ==> !NoBreak(s, e, q) by {
        forall q | e < q ensures !NoBreak(s, e, q) {
          assert e <= e < q;
        }
      }
      None
  }

  /** The first match starting at or after index `i`, as (start, start of the suffix). */
  function FindFrom(s: string, pre: string, suf: string, i: nat): (r: Option<(nat, nat)>)
    ensures r.Some? ==> i <= r.value.0 && FirstMatchAtFrom(s, pre, suf, i, r.value.0, r.value.1)
    ensures r.None? ==> forall a, p :: i <= a ==> !MatchAt(s, pre, suf, a, p)
    decreases |s| + 1 - i
  {
    if i > |s| then None
    else if OccursAt(s, pre, i) && LazyEnd(s, suf, i + |pre|).Some? then
      Some((i, LazyEnd(s, suf, i + |pre|).value))
    else
      FindFrom(s, pre, suf, i + 1)
  }

  /** `FirstMatchAt`, with the search starting at index `i`. */
  ghost predicate FirstMatchAtFrom(s: string, pre: string, suf: string, i: int, a: int, p: int)
  {
    && MatchAt(s, pre, suf, a, p)
    && (forall a', p' :: i <= a' < a ==> !MatchAt(s, pre, suf, a', p'))
    && (forall p' :: p' < p ==> !MatchAt(s, pre, suf, a, p'))
  }

  /**
   * `re.findall(pre + ".*?" + suf, s)[0]`: the text of the first match, or `None`
   * when `findall` returns the empty list.
   */
  function FirstMatch(s: string, pre: string, suf: string): (r: Option<string>)
    ensures r.Some? <==> exists a, p :: MatchAt(s, pre, suf, a, p)
    ensures r.Some? ==> exists a, p :: FirstMatchAt(s, pre, suf, a, p) && r.value == s[a..p + |suf|]
    ensures r.Some? ==> |pre| + |suf| <= |r.value| && r.value[..|pre|] == pre
    ensures r.Some? ==> r.value[|r.value| - |suf|..] == suf && '\n' !in r.value[|pre|..|r.value| - |suf|]
  {
    match FindFrom(s, pre, suf, 0)
    case None => None
    case Some((a, p)) =>
      assert FirstMatchAt(s, pre, suf, a, p);
      MatchText(s, pre, suf, a, p);
      var m := s[a..p + |suf|];
      assert m[..|pre|] == pre && m[|m| - |suf|..] == suf && m[|pre|..|m| - |suf|] == s[a + |pre|..p];
      Some(m)
  }

  /** The matched text is the prefix, then a gap without line breaks, then the suffix. */
  lemma MatchText(s: string, pre: string, suf: string, a: int, p: int)
    requires MatchAt(s, pre, suf, a, p)
    ensures s[a..p + |suf|] == pre + s[a + |pre|..p] + suf
    ensures '\n' !in s[a + |pre|..p]
  {
    assert s[a..p + |suf|] == s[a..a + |pre|] + s[a + |pre|..p] + s[p..p + |suf|];
    var gap := s[a + |pre|..p];
    forall t | 0 <= t < |gap| ensures gap[t] != '\n' {
      assert gap[t] == s[a + |pre| + t];
    }
  }

  /**
   * A text that opens with the prefix, a gap without line breaks or the suffix's first
   * character, and the suffix matches exactly there, whatever follows.
   */
  lemma FirstMatchOfHead(pre: string, gap: string, suf: string, rest: string)
    requires |suf| > 0 && suf[0] !in gap && '\n' !in gap
    ensures FirstMatch(pre + gap + suf + rest, pre, suf) == Some(pre + gap + suf)
  {
    var s := pre + gap + suf + rest;
    var e := |pre| + |gap|;
    assert s[..e + |suf|] == pre + gap + suf;
    assert s[..|pre|] == pre && s[e..e + |suf|] == suf;
    forall t | |pre| <= t < e ensures s[t] != '\n' && s[t] != suf[0] {
      assert s[t] == gap[t - |pre|];
    }
    FirstMatchAtStart(s, pre, suf, e);
  }

  /**
   * When the prefix opens the text and the suffix's first character first appears at `e`,
   * after a gap without line breaks, the first match ends with the suffix at `e`.
   */
  lemma FirstMatchAtStart(s: string, pre: string, suf: string, e: int)
    requires |suf| > 0 && |pre| <= e && OccursAt(s, pre, 0) && OccursAt(s, suf, e)
    requires forall t :: |pre| <= t < e ==> s[t] != '\n' && s[t] != suf[0]
    ensures FirstMatch(s, pre, suf) == Some(s[..e + |suf|])
  {
    var end := LazyEnd(s, suf, |pre|);
    assert NoBreak(s, |pre|, e);
    assert end.Some?;
    var v := end.value;
    assert s[v..v + |suf|][0] == suf[0];
    assert v == e;
    assert FindFrom(s, pre, suf, 0) == Some((0, e));
    assert s[0..e + |suf|] == s[..e + |suf|];
  }
}
