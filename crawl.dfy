/**
 * The crawler, `get_all_categories`: drop the anchors of pages the site links from
 * everywhere (home, the soundboard index, contact, privacy), take the soundboard URL
 * out of each remaining anchor, and either descend into it as a category or scrape it
 * as a soundboard, depending on the title of the page being crawled.
 */
module Crawl {
  import opened Wrappers
  import opened Text
  import opened Pattern
  import opened Web
  import opened Soundboard
  import opened Download

  /** Pages linked from everywhere on the site, whose anchors the crawler drops. */
  const UnwantedUrls: seq<string> := [
    "https://www.realmofdarkness.net/sb/",
    "https://www.realmofdarkness.net/sb/soundboards",
    "https://www.realmofdarkness.net/sb/contact",
    "https://www.realmofdarkness.net/sb/privacy"
  ]

  /** The opening tag `<a href="u">` searched for in an anchor's text. */
  function AnchorTag(u: string): string
  {
    HrefOpen + "\"" + u + LinkSuffix
  }

  /** The anchor contains the opening tag of the `k`-th unwanted URL. */
  predicate Flags(tag: string, k: nat)
    requires k < |UnwantedUrls|
  {
    Contains(tag, AnchorTag(UnwantedUrls[k]))
  }

  /** One of the first `j` unwanted URLs flags the anchor. */
  predicate FlaggedBefore(tag: string, j: nat)
  {
    exists k :: 0 <= k < j && k < |UnwantedUrls| && Flags(tag, k)
  }

  lemma FlaggedBeforeStep(tag: string, j: nat)
    requires j < |UnwantedUrls|
    ensures FlaggedBefore(tag, j + 1) <==> FlaggedBefore(tag, j) || Flags(tag, j)
  {
    if FlaggedBefore(tag, j + 1) && !Flags(tag, j) {
      var k :| 0 <= k < j + 1 && k < |UnwantedUrls| && Flags(tag, k);
      assert k < j;
    }
  }

  /** Some unwanted URL flags the anchor. */
  predicate Unwanted(tag: string)
  {
    FlaggedBefore(tag, |UnwantedUrls|)
  }

  /**
   * One of the first three unwanted URLs flags the anchor, so that after popping it the
   * inner loop still has an unwanted URL left to check at the same index.
   */
  predicate EarlyFlagged(tag: string)
  {
    FlaggedBefore(tag, |UnwantedUrls| - 1)
  }

  /** The anchors no unwanted URL flags, in their original order. */
  function Kept(tags: seq<string>): (r: seq<string>)
    ensures |r| <= |tags|
    ensures forall i :: 0 <= i < |r| ==> !Unwanted(r[i])
    decreases |tags|
  {
    if tags == [] then [] else (if Unwanted(tags[0]) then [] else [tags[0]]) + Kept(tags[1..])
  }

  /** An anchor survives exactly when it was there and nothing flags it. */
  lemma {:induction false} KeptMembers(tags: seq<string>, t: string)
    ensures t in Kept(tags) <==> t in tags && !Unwanted(t)
    decreases |tags|
  {
    if tags != [] {
      KeptMembers(tags[1..], t);
      assert tags == [tags[0]] + tags[1..];
    }
  }

  /** Filtering works on each part separately, so the surviving anchors keep their order. */
  lemma {:induction false} KeptConcat(a: seq<string>, b: seq<string>)
    ensures Kept(a + b) == Kept(a) + Kept(b)
    decreases |a|
  {
    if a == [] {
      assert a + b == b;
    } else {
      assert (a + b)[0] == a[0] && (a + b)[1..] == a[1..] + b;
      KeptConcat(a[1..], b);
    }
  }

  /**
   * The pruning loop raises `IndexError`: processing the list from the back, it pops an
   * anchor flagged by one of the first three unwanted URLs while no anchor after it
   * survives, and the next unwanted URL is then checked at an index past the end.
   */
  function PruneFails(tags: seq<string>): bool
    decreases |tags|
  {
    if tags == [] then false
    else PruneFails(tags[1..]) || (EarlyFlagged(tags[0]) && Kept(tags[1..]) == [])
  }

  /** The pruning fails exactly when some early-flagged anchor is followed only by dropped anchors. */
  lemma {:induction false} PruneFailsAt(tags: seq<string>)
    ensures PruneFails(tags) <==>
      exists x :: 0 <= x < |tags| && EarlyFlagged(tags[x]) && Kept(tags[x + 1..]) == []
    decreases |tags|
  {
    if tags != [] {
      PruneFailsAt(tags[1..]);
      if PruneFails(tags[1..]) {
        var x :| 0 <= x < |tags[1..]| && EarlyFlagged(tags[1..][x]) && Kept(tags[1..][x + 1..]) == [];
        assert tags[1..][x + 1..] == tags[x + 2..];
        assert EarlyFlagged(tags[x + 1]) && Kept(tags[x + 2..]) == [];
      } else if EarlyFlagged(tags[0]) && Kept(tags[1..]) == [] {
        assert EarlyFlagged(tags[0]) && Kept(tags[0 + 1..]) == [];
      } else {
        forall x | 0 <= x < |tags| && EarlyFlagged(tags[x]) ensures Kept(tags[x + 1..]) != [] {
          if x > 0 {
            assert tags[1..][x - 1] == tags[x] && tags[1..][x - 1 + 1..] == tags[x + 1..];
          }
        }
      }
    }
  }

  /** The quirk: a page whose last anchor is flagged by an early unwanted URL always fails. */
  lemma LastFlaggedFails(tags: seq<string>, e: string)
    requires EarlyFlagged(e)
    ensures PruneFails(tags + [e])
  {
    var t := tags + [e];
    assert t[|tags|] == e && t[|tags| + 1..] == [];
    PruneFailsAt(t);
  }

  /** A page whose last anchor is wanted never fails: some anchor always survives after the popped one. */
  lemma LastWantedSucceeds(tags: seq<string>, w: string)
    requires !Unwanted(w)
    ensures !PruneFails(tags + [w])
  {
    var t := tags + [w];
    PruneFailsAt(t);
    WantedNotEarly(w);
    assert t[|tags|] == w;
    forall x | 0 <= x < |t| && EarlyFlagged(t[x]) ensures Kept(t[x + 1..]) != [] {
      KeptBeforeWanted(tags, w, x);
    }
  }

  /** An anchor no unwanted URL flags is not flagged by the first three either. */
  lemma WantedNotEarly(w: string)
    requires !Unwanted(w)
    ensures !EarlyFlagged(w)
  {
  }

  /** The wanted last anchor survives after any earlier index. */
  lemma KeptBeforeWanted(tags: seq<string>, w: string, x: nat)
    requires !Unwanted(w) && x < |tags|
    ensures Kept((tags + [w])[x + 1..]) != []
  {
    DropAppend(tags, w, x + 1);
    KeptConcat(tags[x + 1..], [w]);
    assert Kept([w]) == [w];
  }

  lemma DropAppend(s: seq<string>, v: string, i: nat)
    requires i <= |s|
    ensures (s + [v])[i..] == s[i..] + [v]
  {
  }

  /** The list after the loop has handled index `x`, given that the anchors after it are pruned. */
  lemma PruneStep(tags: seq<string>, x: nat)
    requires x < |tags|
    ensures Kept(tags[x..]) == (if Unwanted(tags[x]) then [] else [tags[x]]) + Kept(tags[x + 1..])
    ensures PruneFails(tags[x..]) == (PruneFails(tags[x + 1..]) || (EarlyFlagged(tags[x]) && Kept(tags[x + 1..]) == []))
  {
    assert tags[x..][0] == tags[x] && tags[x..][1..] == tags[x + 1..];
  }

  /** A failure in a tail of the list is a failure of the whole loop. */
  lemma {:induction false} PruneFailsSuffix(tags: seq<string>, x: nat)
    requires x <= |tags| && PruneFails(tags[x..])
    ensures PruneFails(tags)
    decreases x
  {
    if x > 0 {
      PruneStep(tags, x - 1);
      PruneFailsSuffix(tags, x - 1);
    } else {
      assert tags[0..] == tags;
    }
  }

  /**
   * The inner loop of the pruning at index `x = |pre|`, where `e` stands and every anchor
   * after it survives: check the anchor at `x` against each unwanted URL in turn and pop it
   * when flagged. After a pop the next check reads the anchor that moved into `x`, or past
   * the end when `e` was the last anchor.
   */
  method PruneAt(pre: seq<string>, e: string, rest: seq<string>)
    returns (kept: seq<string>, error: Option<Error>)
    requires forall i :: 0 <= i < |rest| ==> !Unwanted(rest[i])
    ensures error.None? <==> !(EarlyFlagged(e) && rest == [])
    ensures error.None? ==> kept == pre + (if Unwanted(e) then [] else [e]) + rest
    ensures error.Some? ==> error.value == IndexError
  {
    kept := pre + [e] + rest;
    error := None;
    var j := 0;
    while j < |UnwantedUrls| && error.None?
      invariant 0 <= j <= |UnwantedUrls|
      invariant error.None? ==> kept == pre + (if FlaggedBefore(e, j) then [] else [e]) + rest
      invariant error.None? && FlaggedBefore(e, j) && rest == [] ==> !FlaggedBefore(e, j - 1)
      invariant error.Some? ==> error.value == IndexError && EarlyFlagged(e) && rest == []
    {
      kept, error := PruneCheck(pre, e, rest, j, kept);
      j := j + 1;
    }
  }

  /**
   * One turn of the inner loop: check the anchor at index `x = |pre|` against the `j`-th
   * unwanted URL, and pop it when flagged; past the end of the list the check raises.
   */
  method PruneCheck(pre: seq<string>, ghost e: string, ghost rest: seq<string>, j: nat, kept: seq<string>)
    returns (next: seq<string>, error: Option<Error>)
    requires j < |UnwantedUrls|
    requires forall i :: 0 <= i < |rest| ==> !Unwanted(rest[i])
    requires kept == pre + (if FlaggedBefore(e, j) then [] else [e]) + rest
    requires FlaggedBefore(e, j) && rest == [] ==> !FlaggedBefore(e, j - 1)
    ensures error.None? ==> next == pre + (if FlaggedBefore(e, j + 1) then [] else [e]) + rest
    ensures error.None? && FlaggedBefore(e, j + 1) && rest == [] ==> !FlaggedBefore(e, j)
    ensures error.Some? ==> error.value == IndexError && EarlyFlagged(e) && rest == []
  {
    var x := |pre|;
    next, error := kept, None;
    FlaggedBeforeStep(e, j);
    if FlaggedBefore(e, j) && x < |kept| {
      assert kept[x] == rest[0] && !Unwanted(rest[0]);
      assert !Flags(kept[x], j);
    }
    if x >= |kept| {
      assert FlaggedBefore(e, |UnwantedUrls| - 1) by {
        var k :| 0 <= k < j && k < |UnwantedUrls| && Flags(e, k);
      }
      error := Some(IndexError);
    } else if Flags(kept[x], j) {
      assert kept[x] == e;
      next := kept[..x] + kept[x + 1..];
      assert next == pre + rest;
    } else if !FlaggedBefore(e, j) {
      assert kept[x] == e;
    }
  }

  /**
   * The pruning loop of `get_all_categories`: from the last index down, run the inner
   * loop at each index. The first `IndexError` ends the crawl.
   */
  method PruneUnwanted(tags: seq<string>) returns (kept: seq<string>, error: Option<Error>)
    ensures error.None? <==> !PruneFails(tags)
    ensures error.None? ==> kept == Kept(tags)
    ensures error.Some? ==> error.value == IndexError
  {
    kept := tags;
    error := None;
    var x := |tags| - 1;
    while x >= 0 && error.None?
      invariant -1 <= x < |tags|
      invariant error.None? ==> kept == tags[..x + 1] + Kept(tags[x + 1..]) && !PruneFails(tags[x + 1..])
      invariant error.Some? ==> error.value == IndexError && PruneFails(tags)
    {
      kept, error := PruneAt(tags[..x], tags[x], Kept(tags[x + 1..]));
      PruneStep(tags, x);
      if error.Some? {
        PruneFailsSuffix(tags, x);
      } else {
        PruneKeeps(tags, x);
      }
      x := x - 1;
    }
    if error.None? {
      assert tags[0..] == tags;
    }
  }

  /** The list once the inner loop has handled index `x` without a failure. */
  lemma PruneKeeps(tags: seq<string>, x: nat)
    requires x < |tags|
    ensures tags[..x] + (if Unwanted(tags[x]) then [] else [tags[x]]) + Kept(tags[x + 1..]) == tags[..x] + Kept(tags[x..])
  {
    var pre, head, rest := tags[..x], if Unwanted(tags[x]) then [] else [tags[x]], Kept(tags[x + 1..]);
    PruneStep(tags, x);
    assert pre + head + rest == pre + (head + rest);
  }

  /** Every soundboard and category page lives under this URL. */
  const SbRoot := "https://www.realmofdarkness.net/sb/"

  /** The literal parts of the link pattern `<a href="https://www\.realmofdarkness\.net/sb/.*?">`. */
  const HrefOpen := "<a href="
  const LinkPrefix := HrefOpen + "\"" + SbRoot
  const LinkSuffix := "\">"

  /**
   * The soundboard URL of an anchor: the first match of the link pattern, cut at its
   * quotes. `None` when the anchor does not link into the soundboard pages.
   */
  function ExtractLink(tag: string): (r: Option<string>)
    ensures r.None? <==> FirstMatch(tag, LinkPrefix, LinkSuffix).None?
    ensures r.Some? ==> SbRoot <= r.value && '"' !in r.value
    ensures r.Some? ==> r.value == SbRoot + Split(FirstMatch(tag, LinkPrefix, LinkSuffix).value[|LinkPrefix|..], '"')[0]
  {
    match FirstMatch(tag, LinkPrefix, LinkSuffix)
    case None => None
    case Some(m) =>
      NoQuoteInPrefix();
      QuotedAfter(HrefOpen, SbRoot, m);
      Some(QuotedField(m))
  }

  lemma NoQuoteInPrefix()
    ensures '"' !in HrefOpen && '"' !in SbRoot
  {
  }

  /**
   * The field after the first quote of a text that starts `h"root`, when neither `h` nor
   * `root` holds a quote: `root`, then the rest up to the next quote.
   */
  lemma QuotedAfter(h: string, root: string, m: string)
    requires '"' !in h && '"' !in root
    requires |h + "\"" + root| <= |m| && m[..|h + "\"" + root|] == h + "\"" + root
    ensures '"' in m
    ensures QuotedField(m) == root + Split(m[|h + "\"" + root|..], '"')[0]
  {
    var z := m[|h + "\"" + root|..];
    assert m == h + "\"" + (root + z);
    SplitAround(h, '"', root + z);
    SplitWithout(h, '"');
    SplitFirst(root, z, '"');
  }

  /** The link of every anchor, in order. */
  function Links(tags: seq<string>): (r: seq<Option<string>>)
    ensures |r| == |tags|
    ensures forall i :: 0 <= i < |r| ==> r[i] == ExtractLink(tags[i])
    ensures forall i :: 0 <= i < |r| && r[i].Some? ==> SbRoot <= r[i].value
  {
    seq(|tags|, i requires 0 <= i < |tags| => ExtractLink(tags[i]))
  }

  /**
   * An anchor `<a href="https://www.realmofdarkness.net/sb/u">…` links to
   * `https://www.realmofdarkness.net/sb/u`, whatever text follows the opening tag.
   */
  lemma LinkOfAnchor(u: string, rest: string)
    requires '"' !in u && '\n' !in u
    ensures ExtractLink(AnchorTag(SbRoot + u) + rest) == Some(SbRoot + u)
  {
    var tag := AnchorTag(SbRoot + u) + rest;
    assert tag == LinkPrefix + u + LinkSuffix + rest;
    FirstMatchOfHead(LinkPrefix, u, LinkSuffix, rest);
    LinkOfMatch(tag, u);
  }

  /** The link of an anchor whose first match is `<a href="https://www.realmofdarkness.net/sb/u">`. */
  lemma LinkOfMatch(tag: string, u: string)
    requires '"' !in u
    requires FirstMatch(tag, LinkPrefix, LinkSuffix) == Some(LinkPrefix + u + LinkSuffix)
    ensures ExtractLink(tag) == Some(SbRoot + u)
  {
    var m := LinkPrefix + u + LinkSuffix;
    assert ExtractLink(tag).value == SbRoot + Split(m[|LinkPrefix|..], '"')[0];
    QuoteEnds(LinkPrefix, u, LinkSuffix);
  }

  /** Cutting `p + u + q` after `p` and at the next quote leaves `u`, when `q` starts with a quote. */
  lemma QuoteEnds(p: string, u: string, q: string)
    requires '"' !in u && |q| > 0 && q[0] == '"'
    ensures Split((p + u + q)[|p|..], '"')[0] == u
  {
    assert (p + u + q)[|p|..] == u + [q[0]] + q[1..];
    SplitAround(u, '"', q[1..]);
    SplitWithout(u, '"');
  }

  /** How `get_all_categories` treats the links of a page, by that page's title. */
  datatype PageKind = CategoryPage | SoundboardPage | OtherPage

  /**
   * A title naming "Soundboards" marks a category, one naming "Soundboard" a soundboard;
   * both tests read the sanitised title.
   */
  function Classify(titleText: string): (r: PageKind)
    ensures r == CategoryPage <==> Contains(WebsiteTitle(titleText), "Soundboards")
    ensures r == OtherPage <==> !Contains(WebsiteTitle(titleText), "Soundboard")
  {
    var name := WebsiteTitle(titleText);
    if Contains(name, "Soundboards") then
      CategoryNamesSoundboard(name);
      CategoryPage
    else if Contains(name, "Soundboard") then SoundboardPage
    else OtherPage
  }

  /** Every category title also names a soundboard, which is why the category test comes first. */
  lemma CategoryNamesSoundboard(name: string)
    requires Contains(name, "Soundboards")
    ensures Contains(name, "Soundboard")
  {
    var i :| OccursAt(name, "Soundboards", i);
    assert name[i..i + |"Soundboard"|] == name[i..i + |"Soundboards"|][..|"Soundboard"|];
    assert OccursAt(name, "Soundboard", i);
  }

  /**
   * The site's own suffix " - Realm of Darkness.net - Soundboards for Mobile…" is cut away
   * before classifying, so it does not make every page a category.
   */
  lemma ClassifyIgnoresTail(x: string, y: string)
    requires forall i :: 0 <= i < |x| ==> !OccursAt(x + TitleMarker + y, TitleMarker, i)
    ensures Classify(x + TitleMarker + y) == Classify(x)
  {
    TitleBeforeMarker(x, y);
  }

  /** The links `get_all_categories` reads from a page: one per anchor left after pruning. */
  function PageLinks(page: Response): seq<Option<string>>
  {
    Links(Kept(page.anchors))
  }

  /** The kind of a page by its title, `None` for a page without one. */
  function KindOf(title: Option<string>): Option<PageKind>
  {
    if title.Some? then Some(Classify(title.value)) else None
  }

  /**
   * A page as `get_all_categories` sees it: whether pruning its anchors raises, its kind
   * by title, and the link of each anchor left after pruning.
   */
  datatype PageView = PageView(fails: bool, kind: Option<PageKind>, links: seq<Option<string>>)

  function ViewOf(page: Response): PageView
  {
    PageView(PruneFails(page.anchors), KindOf(page.title), PageLinks(page))
  }

  /** Every link on every page is a soundboard-site URL. */
  predicate Rooted(view: map<string, PageView>)
  {
    forall u, i :: u in view && 0 <= i < |view[u].links| && view[u].links[i].Some? ==> SbRoot <= view[u].links[i].value
  }

  /** Every page of the site as `get_all_categories` sees it. */
  function SiteView(site: Site): (view: map<string, PageView>)
    ensures view.Keys == site.Keys
    ensures forall u :: u in site ==> view[u] == ViewOf(site[u])
    ensures Rooted(view)
  {
    map u | u in site :: ViewOf(site[u])
  }

  /** Every link present in `links` is one of the `marked` URLs. */
  predicate AllIn(links: seq<Option<string>>, marked: set<string>)
  {
    forall i :: 0 <= i < |links| && links[i].Some? ==> links[i].value in marked
  }

  /**
   * A page that `get_all_categories` finished: it answers, its pruning did not raise, and
   * every link the loop acts on is in one of the `marked` lists. The loop acts on the
   * links of a category page, a soundboard page, and a page without a title.
   */
  predicate Explored(view: map<string, PageView>, u: string, marked: set<string>)
  {
    && u in view
    && !view[u].fails
    && (view[u].kind != Some(OtherPage) ==> AllIn(view[u].links, marked))
  }

  /** A list of links with one more link in front: its first link, then the rest, all listed. */
  lemma AllInCons(links: seq<Option<string>>, marked: set<string>)
    requires links != []
    requires links[0].Some? ==> links[0].value in marked
    requires AllIn(links[1..], marked)
    ensures AllIn(links, marked)
  {
    forall i | 0 <= i < |links| && links[i].Some? ensures links[i].value in marked {
      if i > 0 {
        assert links[i] == links[1..][i - 1];
      }
    }
  }

  /** Listing more URLs keeps a finished page finished. */
  lemma ExploredGrows(view: map<string, PageView>, u: string, marked: set<string>, more: set<string>)
    requires Explored(view, u, marked) && marked <= more
    ensures Explored(view, u, more)
  {
  }

  /** No URL occurs twice. */
  predicate NoDup(xs: seq<string>)
  {
    forall i, j :: 0 <= i < j < |xs| ==> xs[i] != xs[j]
  }

  /** A list without duplicates holds each URL at most once. */
  lemma {:induction false} NoDupCount(xs: seq<string>, u: string)
    requires NoDup(xs)
    ensures multiset(xs)[u] == if u in xs then 1 else 0
    decreases |xs|
  {
    if xs != [] {
      assert xs == [xs[0]] + xs[1..];
      assert NoDup(xs[1..]) by {
        forall i, j | 0 <= i < j < |xs[1..]| ensures xs[1..][i] != xs[1..][j] {
          assert xs[1..][i] == xs[i + 1] && xs[1..][j] == xs[j + 1];
        }
      }
      NoDupCount(xs[1..], u);
      if u == xs[0] {
        assert u !in xs[1..] by {
          forall j | 0 <= j < |xs[1..]| ensures xs[1..][j] != u {
            assert xs[1..][j] == xs[j + 1];
          }
        }
      }
    }
  }

  /** Marking more URLs never leaves more site URLs unmarked. */
  lemma UnmarkedShrinks(keys: set<string>, before: set<string>, after: set<string>)
    requires before <= after
    ensures |keys - after| <= |keys - before|
  {
    var gone := (keys - before) * after;
    assert keys - before == (keys - after) + gone;
    assert (keys - after) * gone == {};
  }

  /** Marking a site URL that was not marked leaves fewer site URLs unmarked. */
  lemma MarkShrinks(keys: set<string>, before: set<string>, after: set<string>, u: string)
    requires before <= after && u in after && u !in before
    ensures |keys - after| <= |keys - before|
    ensures u in keys ==> |keys - after| < |keys - before|
  {
    var gone := (keys - before) * after;
    assert keys - before == (keys - after) + gone;
    assert (keys - after) * gone == {};
    if u in keys {
      assert u in gone;
    }
  }

  /** Appending a URL the list lacks keeps it free of duplicates. */
  lemma NoDupAppend(xs: seq<string>, u: string)
    requires NoDup(xs) && u !in xs
    ensures NoDup(xs + [u])
  {
    forall i, j | 0 <= i < j < |xs + [u]| ensures (xs + [u])[i] != (xs + [u])[j] {
      assert (xs + [u])[i] == xs[i];
    }
  }

  /**
   * The state shared by every call of `get_all_categories` in one crawl: the soundboard
   * and category lists it appends to, and the disk that `scrape_soundboard` writes.
   */
  datatype CrawlState = CrawlState(soundboards: seq<string>, visited: seq<string>, disk: Disk)

  /** The state `scrap_soundboard_website` starts from: both lists empty. */
  function Start(disk: Disk): CrawlState
  {
    CrawlState([], [], disk)
  }

  /** The URLs in either list: those the crawler skips. */
  function MarkedIn(st: CrawlState): set<string>
  {
    (set u | u in st.soundboards) + (set u | u in st.visited)
  }

  /** Marking a category adds just that URL to those the crawler skips. */
  lemma MarkedAfterMark(st: CrawlState, url: string)
    ensures MarkedIn(Mark(st, url)) == MarkedIn(st) + {url}
  {
  }

  /** Appending a soundboard adds just that URL to those the crawler skips. */
  lemma MarkedAfterScrape(st: CrawlState, url: string, disk: Disk)
    ensures MarkedIn(CrawlState(st.soundboards + [url], st.visited, disk)) == MarkedIn(st) + {url}
  {
  }

  /** Neither list repeats a URL, and they share none. */
  predicate Distinct(st: CrawlState)
  {
    && NoDup(st.soundboards)
    && NoDup(st.visited)
    && (forall u :: u in st.soundboards ==> u !in st.visited)
  }

  /** Every URL in either list is a soundboard-site URL. */
  predicate UnderRoot(st: CrawlState)
  {
    forall u :: u in MarkedIn(st) ==> SbRoot <= u
  }

  /** Neither list repeats a URL, they share none, and all of them are soundboard-site URLs. */
  predicate ValidState(st: CrawlState)
  {
    Distinct(st) && UnderRoot(st)
  }

  /** A link the crawler has not met: present, and in neither list. */
  predicate IsNew(st: CrawlState, link: Option<string>)
  {
    link.Some? && link.value !in st.soundboards && link.value !in st.visited
  }

  /** The state after `visited_list.append(url)`. */
  function Mark(st: CrawlState, url: string): CrawlState
  {
    st.(visited := st.visited + [url])
  }

  /** A later state of the same crawl: both lists extended at their ends. */
  predicate Extends(st: CrawlState, later: CrawlState)
  {
    && st.soundboards <= later.soundboards
    && st.visited <= later.visited
    && MarkedIn(st) <= MarkedIn(later)
  }

  lemma ExtendsTrans(a: CrawlState, b: CrawlState, c: CrawlState)
    requires Extends(a, b) && Extends(b, c)
    ensures Extends(a, c)
  {
  }

  /** `scrape_soundboard` as a step of the crawl: the disk before, the soundboard URL, and the disk after with the error that ended it. */
  type Scraper = (Disk, string) -> (Disk, Option<Error>)

  /** The crawler's own step: `Download.Scrape` on this site. */
  function ScrapeStep(site: Site): Scraper
  {
    (disk, url) => Scrape(site, disk, url)
  }

  /** A step that only ever adds files and directories. */
  ghost predicate OnlyAdds(scrape: Scraper)
  {
    forall disk, url :: Grows(disk, scrape(disk, url).0)
  }

  /** Scraping never deletes a file. */
  lemma ScrapeStepOnlyAdds(site: Site)
    ensures OnlyAdds(ScrapeStep(site))
  {
    forall disk, url ensures Grows(disk, ScrapeStep(site)(disk, url).0) {
      ScrapeGrows(site, disk, url);
    }
  }

  /**
   * What a part of the crawl leaves: the new state, the URL of every call of
   * `get_all_categories` it made, in call order, and the error that ended it.
   */
  datatype Outcome = Outcome(state: CrawlState, calls: seq<string>, error: Option<Error>)

  /**
   * `get_all_categories(target)` from state `st`: fetch the page, prune its anchors, and
   * follow the link of each remaining anchor in order. The first error ends the crawl.
   */
  function CrawlPage(scrape: Scraper, view: map<string, PageView>, st: CrawlState, target: string): (r: Outcome)
    decreases |view.Keys - MarkedIn(st)|, if target in view then 5 else 0, 0
    ensures Extends(st, r.state)
    ensures |r.calls| > 0 && r.calls[0] == target
  {
    if target !in view then Outcome(st, [target], Some(FetchError(target)))
    else if view[target].fails then Outcome(st, [target], Some(IndexError))
    else
      var rest := CrawlLinks(scrape, view, st, view[target].kind, view[target].links);
      Outcome(rest.state, [target] + rest.calls, rest.error)
  }

  /** The link loop of `get_all_categories` on a page of the given kind: one link after another until an error. */
  function CrawlLinks(scrape: Scraper, view: map<string, PageView>, st: CrawlState, kind: Option<PageKind>, links: seq<Option<string>>): (r: Outcome)
    decreases |view.Keys - MarkedIn(st)|, 4, |links|
    ensures Extends(st, r.state)
  {
    if links == [] then Outcome(st, [], None)
    else
      var first := CrawlLink(scrape, view, st, kind, links[0]);
      if first.error.Some? then first
      else
        UnmarkedShrinks(view.Keys, MarkedIn(st), MarkedIn(first.state));
        var rest := CrawlLinks(scrape, view, first.state, kind, links[1..]);
        ExtendsTrans(st, first.state, rest.state);
        Outcome(rest.state, first.calls + rest.calls, rest.error)
  }

  /**
   * One turn of the link loop: skip a missing link and a URL in either list; otherwise
   * raise for a page without a title, mark and descend into the URL on a category page,
   * append and scrape it on a soundboard page, and do nothing on any other page.
   */
  function CrawlLink(scrape: Scraper, view: map<string, PageView>, st: CrawlState, kind: Option<PageKind>, link: Option<string>): (r: Outcome)
    decreases |view.Keys - MarkedIn(st)|, 3, 0
    ensures Extends(st, r.state)
  {
    if link.None? || link.value in st.soundboards || link.value in st.visited then Outcome(st, [], None)
    else if kind.None? then Outcome(st, [], Some(NoTitle))
    else if kind.value == CategoryPage then
      var marked := st.(visited := st.visited + [link.value]);
      MarkShrinks(view.Keys, MarkedIn(st), MarkedIn(marked), link.value);
      var r := CrawlPage(scrape, view, marked, link.value);
      ExtendsTrans(st, marked, r.state);
      r
    else if kind.value == SoundboardPage then
      var scraped := scrape(st.disk, link.value);
      Outcome(CrawlState(st.soundboards + [link.value], st.visited, scraped.0), [], scraped.1)
    else Outcome(st, [], None)
  }

  /** `scrap_soundboard_website`: the crawl from the soundboard index with both lists empty. */
  function Crawl(site: Site, disk: Disk): Outcome
  {
    CrawlPage(ScrapeStep(site), SiteView(site), Start(disk), TargetUrl)
  }

  /** The link loop from link `k` on: link `k`, then, unless it raised, the links after it. */
  lemma LinksFrom(scrape: Scraper, view: map<string, PageView>, st: CrawlState, kind: Option<PageKind>, links: seq<Option<string>>, k: nat)
    requires k < |links|
    ensures var first := CrawlLink(scrape, view, st, kind, links[k]);
      CrawlLinks(scrape, view, st, kind, links[k..]) ==
        if first.error.Some? then first
        else
          var rest := CrawlLinks(scrape, view, first.state, kind, links[k + 1..]);
          Outcome(rest.state, first.calls + rest.calls, rest.error)
  {
    assert links[k..][0] == links[k] && links[k..][1..] == links[k + 1..];
  }

  /** A turn of the link loop that neither descends nor scrapes leaves the state as it was and makes no call. */
  lemma LinkSkips(scrape: Scraper, view: map<string, PageView>, st: CrawlState, kind: Option<PageKind>, link: Option<string>)
    ensures var r := CrawlLink(scrape, view, st, kind, link);
      !(IsNew(st, link) && (kind == Some(CategoryPage) || kind == Some(SoundboardPage))) ==> r.state == st && r.calls == []
  {
  }

  /** A new link on a soundboard page: appended to the soundboards, then scraped. */
  lemma LinkScrapes(scrape: Scraper, view: map<string, PageView>, st: CrawlState, url: string)
    requires url !in st.soundboards && url !in st.visited
    ensures CrawlLink(scrape, view, st, Some(SoundboardPage), Some(url)) ==
      Outcome(CrawlState(st.soundboards + [url], st.visited, scrape(st.disk, url).0), [], scrape(st.disk, url).1)
  {
  }

  /** A new link on a category page: marked, then crawled, which leaves fewer site URLs unmarked. */
  lemma LinkDescends(scrape: Scraper, view: map<string, PageView>, st: CrawlState, url: string)
    requires url !in st.soundboards && url !in st.visited
    ensures CrawlLink(scrape, view, st, Some(CategoryPage), Some(url)) == CrawlPage(scrape, view, Mark(st, url), url)
    ensures |view.Keys - MarkedIn(Mark(st, url))| <= |view.Keys - MarkedIn(st)|
    ensures url in view ==> |view.Keys - MarkedIn(Mark(st, url))| < |view.Keys - MarkedIn(st)|
  {
    MarkedAfterMark(st, url);
    MarkShrinks(view.Keys, MarkedIn(st), MarkedIn(Mark(st, url)), url);
  }

  /**
   * One step of the link loop: the first link, then, unless it raised, the rest from the
   * state it left, which has no more site URLs unmarked.
   */
  lemma LinksCases(scrape: Scraper, view: map<string, PageView>, st: CrawlState, kind: Option<PageKind>, links: seq<Option<string>>)
    requires links != []
    ensures var first := CrawlLink(scrape, view, st, kind, links[0]);
      var rest := CrawlLinks(scrape, view, first.state, kind, links[1..]);
      && |view.Keys - MarkedIn(first.state)| <= |view.Keys - MarkedIn(st)|
      && CrawlLinks(scrape, view, st, kind, links) ==
           if first.error.Some? then first else Outcome(rest.state, first.calls + rest.calls, rest.error)
  {
    UnmarkedShrinks(view.Keys, MarkedIn(st), MarkedIn(CrawlLink(scrape, view, st, kind, links[0]).state));
  }

  /** Marking a new category keeps the lists duplicate-free and disjoint. */
  lemma MarkKeepsDistinct(st: CrawlState, url: string)
    requires Distinct(st) && url !in st.soundboards && url !in st.visited
    ensures Distinct(Mark(st, url))
  {
    NoDupAppend(st.visited, url);
  }

  /** Appending a new soundboard keeps the lists duplicate-free and disjoint. */
  lemma ScrapeKeepsDistinct(st: CrawlState, url: string, disk: Disk)
    requires Distinct(st) && url !in st.soundboards && url !in st.visited
    ensures Distinct(CrawlState(st.soundboards + [url], st.visited, disk))
  {
    NoDupAppend(st.soundboards, url);
  }

  /** A crawl keeps the lists duplicate-free and disjoint. */
  lemma {:induction false} CrawlPageDistinct(scrape: Scraper, view: map<string, PageView>, st: CrawlState, target: string)
    requires Distinct(st)
    ensures Distinct(CrawlPage(scrape, view, st, target).state)
    decreases |view.Keys - MarkedIn(st)|, if target in view then 5 else 0, 0
  {
    if target in view && !view[target].fails {
      CrawlLinksDistinct(scrape, view, st, view[target].kind, view[target].links);
    }
  }

  lemma {:induction false} CrawlLinksDistinct(scrape: Scraper, view: map<string, PageView>, st: CrawlState, kind: Option<PageKind>, links: seq<Option<string>>)
    requires Distinct(st)
    ensures Distinct(CrawlLinks(scrape, view, st, kind, links).state)
    decreases |view.Keys - MarkedIn(st)|, 4, |links|
  {
    if links != [] {
      var head, tail := links[0], links[1..];
      LinksCases(scrape, view, st, kind, links);
      var first := CrawlLink(scrape, view, st, kind, head);
      CrawlLinkDistinct(scrape, view, st, kind, head);
      if first.error.None? {
        CrawlLinksDistinct(scrape, view, first.state, kind, tail);
      }
    }
  }

  lemma {:induction false} CrawlLinkDistinct(scrape: Scraper, view: map<string, PageView>, st: CrawlState, kind: Option<PageKind>, link: Option<string>)
    requires Distinct(st)
    ensures Distinct(CrawlLink(scrape, view, st, kind, link).state)
    decreases |view.Keys - MarkedIn(st)|, 3, 0
  {
    LinkSkips(scrape, view, st, kind, link);
    if IsNew(st, link) && kind == Some(CategoryPage) {
      LinkDescends(scrape, view, st, link.value);
      MarkKeepsDistinct(st, link.value);
      CrawlPageDistinct(scrape, view, Mark(st, link.value), link.value);
    } else if IsNew(st, link) && kind == Some(SoundboardPage) {
      LinkScrapes(scrape, view, st, link.value);
      ScrapeKeepsDistinct(st, link.value, scrape(st.disk, link.value).0);
    }
  }

  /** The calls after the state `v0` are those after `v`, then those after `v1`'s start. */
  lemma CallsSplit(v: seq<string>, v0: seq<string>, v1: seq<string>)
    requires v <= v0 <= v1
    ensures v1[|v|..] == v0[|v|..] + v1[|v0|..]
  {
  }

  /** A crawl whose scrape step only adds files never deletes one. */
  lemma {:induction false} CrawlPageGrows(scrape: Scraper, view: map<string, PageView>, st: CrawlState, target: string)
    requires OnlyAdds(scrape)
    ensures Grows(st.disk, CrawlPage(scrape, view, st, target).state.disk)
    decreases |view.Keys - MarkedIn(st)|, if target in view then 5 else 0, 0
  {
    if target in view && !view[target].fails {
      CrawlLinksGrows(scrape, view, st, view[target].kind, view[target].links);
    }
  }

  lemma {:induction false} CrawlLinksGrows(scrape: Scraper, view: map<string, PageView>, st: CrawlState, kind: Option<PageKind>, links: seq<Option<string>>)
    requires OnlyAdds(scrape)
    ensures Grows(st.disk, CrawlLinks(scrape, view, st, kind, links).state.disk)
    decreases |view.Keys - MarkedIn(st)|, 4, |links|
  {
    if links != [] {
      var head, tail := links[0], links[1..];
      LinksCases(scrape, view, st, kind, links);
      var first := CrawlLink(scrape, view, st, kind, head);
      CrawlLinkGrows(scrape, view, st, kind, head);
      if first.error.None? {
        CrawlLinksGrows(scrape, view, first.state, kind, tail);
      }
    }
  }

  lemma {:induction false} CrawlLinkGrows(scrape: Scraper, view: map<string, PageView>, st: CrawlState, kind: Option<PageKind>, link: Option<string>)
    requires OnlyAdds(scrape)
    ensures Grows(st.disk, CrawlLink(scrape, view, st, kind, link).state.disk)
    decreases |view.Keys - MarkedIn(st)|, 3, 0
  {
    LinkSkips(scrape, view, st, kind, link);
    if IsNew(st, link) && kind == Some(CategoryPage) {
      LinkDescends(scrape, view, st, link.value);
      CrawlPageGrows(scrape, view, Mark(st, link.value), link.value);
    }
  }

  /** The calls after marking `url`: that URL, then those after it. */
  lemma CallsAfterMark(v: seq<string>, url: string, v1: seq<string>)
    requires v + [url] <= v1
    ensures v1[|v|..] == [url] + v1[|v + [url]|..]
  {
    assert v1[|v|] == (v + [url])[|v|];
  }

  /**
   * The calls a crawl makes: the target, then one per category it marks, in the order
   * they were marked.
   */
  lemma {:induction false} CrawlPageCalls(scrape: Scraper, view: map<string, PageView>, st: CrawlState, target: string)
    ensures var r := CrawlPage(scrape, view, st, target);
      r.calls == [target] + r.state.visited[|st.visited|..]
    decreases |view.Keys - MarkedIn(st)|, if target in view then 5 else 0, 0
  {
    if target in view && !view[target].fails {
      CrawlLinksCalls(scrape, view, st, view[target].kind, view[target].links);
    }
  }

  lemma {:induction false} CrawlLinksCalls(scrape: Scraper, view: map<string, PageView>, st: CrawlState, kind: Option<PageKind>, links: seq<Option<string>>)
    ensures var r := CrawlLinks(scrape, view, st, kind, links);
      r.calls == r.state.visited[|st.visited|..]
    decreases |view.Keys - MarkedIn(st)|, 4, |links|
  {
    if links != [] {
      var head, tail := links[0], links[1..];
      LinksCases(scrape, view, st, kind, links);
      var first := CrawlLink(scrape, view, st, kind, head);
      CrawlLinkCalls(scrape, view, st, kind, head);
      if first.error.None? {
        var rest := CrawlLinks(scrape, view, first.state, kind, tail);
        CrawlLinksCalls(scrape, view, first.state, kind, tail);
        CallsSplit(st.visited, first.state.visited, rest.state.visited);
      }
    }
  }

  lemma {:induction false} CrawlLinkCalls(scrape: Scraper, view: map<string, PageView>, st: CrawlState, kind: Option<PageKind>, link: Option<string>)
    ensures var r := CrawlLink(scrape, view, st, kind, link);
      r.calls == r.state.visited[|st.visited|..]
    decreases |view.Keys - MarkedIn(st)|, 3, 0
  {
    LinkSkips(scrape, view, st, kind, link);
    if IsNew(st, link) && kind == Some(CategoryPage) {
      LinkDescends(scrape, view, st, link.value);
      var url := link.value;
      CrawlPageCalls(scrape, view, Mark(st, url), url);
      CallsAfterMark(st.visited, url, CrawlPage(scrape, view, Mark(st, url), url).state.visited);
    }
  }

  /** `u` is the link of a kept anchor on one of `pages`. */
  ghost predicate LinkedFrom(view: map<string, PageView>, pages: seq<string>, u: string)
  {
    exists p :: p in pages && p in view && Some(u) in view[p].links
  }

  /** A URL linked from some of the pages is linked from a longer list of pages. */
  lemma LinkedFromAppend(view: map<string, PageView>, a: seq<string>, b: seq<string>, u: string)
    requires LinkedFrom(view, a, u) || LinkedFrom(view, b, u)
    ensures LinkedFrom(view, a + b, u)
  {
    var p :| (p in a || p in b) && p in view && Some(u) in view[p].links;
    assert p in a + b;
  }

  /**
   * Every URL a crawl lists is the link of a kept anchor on a page it expanded: nothing
   * is listed that the site does not link to.
   */
  lemma {:induction false} CrawlPageSound(scrape: Scraper, view: map<string, PageView>, st: CrawlState, target: string)
    ensures var r := CrawlPage(scrape, view, st, target);
      forall u :: u in MarkedIn(r.state) && u !in MarkedIn(st) ==> LinkedFrom(view, r.calls, u)
    decreases |view.Keys - MarkedIn(st)|, if target in view then 5 else 0, 0
  {
    if target in view && !view[target].fails {
      var r := CrawlPage(scrape, view, st, target);
      var links := view[target].links;
      var rest := CrawlLinks(scrape, view, st, view[target].kind, links);
      CrawlLinksSound(scrape, view, st, view[target].kind, links);
      forall u | u in MarkedIn(r.state) && u !in MarkedIn(st) ensures LinkedFrom(view, r.calls, u) {
        if Some(u) in links {
          assert target in r.calls;
        } else {
          LinkedFromAppend(view, [target], rest.calls, u);
        }
      }
    }
  }

  lemma {:induction false} CrawlLinksSound(scrape: Scraper, view: map<string, PageView>, st: CrawlState, kind: Option<PageKind>, links: seq<Option<string>>)
    ensures var r := CrawlLinks(scrape, view, st, kind, links);
      forall u :: u in MarkedIn(r.state) && u !in MarkedIn(st) ==> Some(u) in links || LinkedFrom(view, r.calls, u)
    decreases |view.Keys - MarkedIn(st)|, 4, |links|
  {
    if links != [] {
      var head, tail := links[0], links[1..];
      LinksCases(scrape, view, st, kind, links);
      var first := CrawlLink(scrape, view, st, kind, head);
      CrawlLinkSound(scrape, view, st, kind, head);
      var rest := CrawlLinks(scrape, view, first.state, kind, tail);
      if first.error.None? {
        CrawlLinksSound(scrape, view, first.state, kind, tail);
      }
      SoundAcross(view, links, first.error.Some?, MarkedIn(st), MarkedIn(first.state), MarkedIn(rest.state), first.calls, rest.calls);
    }
  }

  /**
   * Listing by the first link, then, unless it raised, by the rest: each URL listed is a
   * link of the list or linked from a page expanded along the way.
   */
  lemma SoundAcross(view: map<string, PageView>, links: seq<Option<string>>, stopped: bool, before: set<string>,
                    mid: set<string>, after: set<string>, calls: seq<string>, more: seq<string>)
    requires links != []
    requires forall u :: u in mid && u !in before ==> Some(u) == links[0] || LinkedFrom(view, calls, u)
    requires !stopped ==> forall u :: u in after && u !in mid ==> Some(u) in links[1..] || LinkedFrom(view, more, u)
    ensures stopped ==> forall u :: u in mid && u !in before ==> Some(u) in links || LinkedFrom(view, calls, u)
    ensures !stopped ==> forall u :: u in after && u !in before ==> Some(u) in links || LinkedFrom(view, calls + more, u)
  {
    assert links[0] in links;
    if !stopped {
      forall u | u in after && u !in before ensures Some(u) in links || LinkedFrom(view, calls + more, u) {
        if u in mid {
          if Some(u) != links[0] {
            LinkedFromAppend(view, calls, more, u);
          }
        } else if Some(u) in links[1..] {
          InTail(links, Some(u));
        } else {
          LinkedFromAppend(view, calls, more, u);
        }
      }
    }
  }

  /** Whatever is in the tail of a list is in the list. */
  lemma InTail<T>(xs: seq<T>, x: T)
    requires xs != [] && x in xs[1..]
    ensures x in xs
  {
    var i :| 0 <= i < |xs[1..]| && xs[1..][i] == x;
    assert xs[i + 1] == x;
  }

  lemma {:induction false} CrawlLinkSound(scrape: Scraper, view: map<string, PageView>, st: CrawlState, kind: Option<PageKind>, link: Option<string>)
    ensures var r := CrawlLink(scrape, view, st, kind, link);
      forall u :: u in MarkedIn(r.state) && u !in MarkedIn(st) ==> Some(u) == link || LinkedFrom(view, r.calls, u)
    decreases |view.Keys - MarkedIn(st)|, 3, 0
  {
    LinkSkips(scrape, view, st, kind, link);
    if IsNew(st, link) && kind == Some(SoundboardPage) {
      LinkScrapes(scrape, view, st, link.value);
      MarkedAfterScrape(st, link.value, scrape(st.disk, link.value).0);
    } else if IsNew(st, link) && kind == Some(CategoryPage) {
      LinkDescends(scrape, view, st, link.value);
      MarkedAfterMark(st, link.value);
      CrawlPageSound(scrape, view, Mark(st, link.value), link.value);
    }
  }

  /**
   * A crawl that ends without error finished every page it expanded: each answered, its
   * pruning did not raise, and every link its loop acts on is in one of the lists.
   */
  lemma {:induction false} CrawlPageExplored(scrape: Scraper, view: map<string, PageView>, st: CrawlState, target: string)
    ensures var r := CrawlPage(scrape, view, st, target);
      r.error.None? ==> forall p :: p in r.calls ==> Explored(view, p, MarkedIn(r.state))
    decreases |view.Keys - MarkedIn(st)|, if target in view then 5 else 0, 0
  {
    if target in view && !view[target].fails {
      CrawlLinksExplored(scrape, view, st, view[target].kind, view[target].links);
    }
  }

  lemma {:induction false} CrawlLinksExplored(scrape: Scraper, view: map<string, PageView>, st: CrawlState, kind: Option<PageKind>, links: seq<Option<string>>)
    ensures var r := CrawlLinks(scrape, view, st, kind, links);
      r.error.None? ==>
        && (kind != Some(OtherPage) ==> AllIn(links, MarkedIn(r.state)))
        && forall p :: p in r.calls ==> Explored(view, p, MarkedIn(r.state))
    decreases |view.Keys - MarkedIn(st)|, 4, |links|
  {
    if links != [] {
      var head, tail := links[0], links[1..];
      LinksCases(scrape, view, st, kind, links);
      var first := CrawlLink(scrape, view, st, kind, head);
      CrawlLinkExplored(scrape, view, st, kind, head);
      if first.error.None? {
        var rest := CrawlLinks(scrape, view, first.state, kind, tail);
        CrawlLinksExplored(scrape, view, first.state, kind, tail);
        if rest.error.None? {
          ExploredAcross(view, kind, links, MarkedIn(first.state), MarkedIn(rest.state), first.calls, rest.calls);
        }
      }
    }
  }

  /**
   * Finishing the first link, then the rest: every link is listed and every page expanded
   * along the way is finished, once the lists hold all of it.
   */
  lemma ExploredAcross(view: map<string, PageView>, kind: Option<PageKind>, links: seq<Option<string>>,
                       mid: set<string>, last: set<string>, calls: seq<string>, more: seq<string>)
    requires links != [] && mid <= last
    requires kind != Some(OtherPage) && links[0].Some? ==> links[0].value in mid
    requires forall p :: p in calls ==> Explored(view, p, mid)
    requires kind != Some(OtherPage) ==> AllIn(links[1..], last)
    requires forall p :: p in more ==> Explored(view, p, last)
    ensures kind != Some(OtherPage) ==> AllIn(links, last)
    ensures forall p :: p in calls + more ==> Explored(view, p, last)
  {
    if kind != Some(OtherPage) {
      AllInCons(links, last);
    }
    forall p | p in calls + more ensures Explored(view, p, last) {
      if p in calls {
        ExploredGrows(view, p, mid, last);
      }
    }
  }

  lemma {:induction false} CrawlLinkExplored(scrape: Scraper, view: map<string, PageView>, st: CrawlState, kind: Option<PageKind>, link: Option<string>)
    ensures var r := CrawlLink(scrape, view, st, kind, link);
      r.error.None? ==>
        && (kind != Some(OtherPage) && link.Some? ==> link.value in MarkedIn(r.state))
        && forall p :: p in r.calls ==> Explored(view, p, MarkedIn(r.state))
    decreases |view.Keys - MarkedIn(st)|, 3, 0
  {
    LinkSkips(scrape, view, st, kind, link);
    if IsNew(st, link) && kind == Some(SoundboardPage) {
      LinkScrapes(scrape, view, st, link.value);
      MarkedAfterScrape(st, link.value, scrape(st.disk, link.value).0);
    } else if IsNew(st, link) && kind == Some(CategoryPage) {
      LinkDescends(scrape, view, st, link.value);
      var marked := Mark(st, link.value);
      MarkedAfterMark(st, link.value);
      CrawlPageExplored(scrape, view, marked, link.value);
      assert Extends(marked, CrawlPage(scrape, view, marked, link.value).state);
    }
  }

  /**
   * What the kind of a page decides: only a category page marks categories and makes
   * calls, and a page of neither kind changes nothing and never raises.
   */
  lemma {:induction false} CrawlLinksKinds(scrape: Scraper, view: map<string, PageView>, st: CrawlState, kind: Option<PageKind>, links: seq<Option<string>>)
    ensures var r := CrawlLinks(scrape, view, st, kind, links);
      && (kind != Some(CategoryPage) ==> r.calls == [] && r.state.visited == st.visited)
      && (kind == Some(OtherPage) ==> r == Outcome(st, [], None))
    decreases |links|
  {
    if links != [] {
      var first := CrawlLink(scrape, view, st, kind, links[0]);
      if first.error.None? {
        CrawlLinksKinds(scrape, view, first.state, kind, links[1..]);
      }
    }
  }

  /** On a soundboard page the loop marks no category, makes no call, and appends only links of the page. */
  lemma SoundboardPageLinks(scrape: Scraper, view: map<string, PageView>, st: CrawlState, links: seq<Option<string>>)
    ensures var r := CrawlLinks(scrape, view, st, Some(SoundboardPage), links);
      && r.calls == [] && r.state.visited == st.visited
      && forall u :: u in MarkedIn(r.state) && u !in MarkedIn(st) ==> Some(u) in links
  {
    CrawlLinksKinds(scrape, view, st, Some(SoundboardPage), links);
    CrawlLinksSound(scrape, view, st, Some(SoundboardPage), links);
  }

  /**
   * The whole crawl: the lists stay duplicate-free and disjoint and the disk only grows;
   * the calls are the index, then every category marked; an unreachable index or one whose
   * pruning raises ends the crawl with nothing listed; every listed URL is linked from an
   * expanded page; and without error every expanded page is finished.
   */
  lemma CrawlFacts(site: Site, disk: Disk)
    ensures var r := Crawl(site, disk);
      && ValidState(r.state)
      && Grows(disk, r.state.disk)
      && r.calls == [TargetUrl] + r.state.visited
      && (TargetUrl !in site ==> r.error == Some(FetchError(TargetUrl)) && r.state == Start(disk))
      && (TargetUrl in site && PruneFails(site[TargetUrl].anchors) ==>
            r.error == Some(IndexError) && r.state == Start(disk))
      && (forall u :: u in MarkedIn(r.state) ==> LinkedFrom(SiteView(site), r.calls, u))
      && (r.error.None? ==> forall p :: p in r.calls ==> Explored(SiteView(site), p, MarkedIn(r.state)))
  {
    var scrape, view, st := ScrapeStep(site), SiteView(site), Start(disk);
    var r := Crawl(site, disk);
    CrawlPageDistinct(scrape, view, st, TargetUrl);
    CrawlPageCalls(scrape, view, st, TargetUrl);
    CrawlPageSound(scrape, view, st, TargetUrl);
    SoundUnderRoot(view, r.calls, r.state);
    CrawlPageExplored(scrape, view, st, TargetUrl);
    ScrapeStepOnlyAdds(site);
    CrawlPageGrows(scrape, view, st, TargetUrl);
  }

  /** A crawl whose every listed URL is linked from a page of the site lists only soundboard-site URLs. */
  lemma SoundUnderRoot(view: map<string, PageView>, calls: seq<string>, st: CrawlState)
    requires Rooted(view)
    requires forall u :: u in MarkedIn(st) ==> LinkedFrom(view, calls, u)
    ensures UnderRoot(st)
  {
    forall u | u in MarkedIn(st) ensures SbRoot <= u {
      var p :| p in calls && p in view && Some(u) in view[p].links;
      var i :| 0 <= i < |view[p].links| && view[p].links[i] == Some(u);
    }
  }

  /**
   * The kind of the target page decides as in the link loop: a page that is not a category
   * marks no category, and a page of neither kind scrapes nothing.
   */
  lemma CrawlPageKinds(scrape: Scraper, view: map<string, PageView>, st: CrawlState, target: string)
    requires target in view
    ensures var r := CrawlPage(scrape, view, st, target);
      && (view[target].kind != Some(CategoryPage) ==> r.state.visited == st.visited)
      && (view[target].kind == Some(OtherPage) ==> r.state == st && (r.error.None? <==> !view[target].fails))
  {
    if !view[target].fails {
      CrawlLinksKinds(scrape, view, st, view[target].kind, view[target].links);
    }
  }

  /**
   * The crawler's lists and disk, updated in place by every call of
   * `get_all_categories` in one crawl.
   */
  class Crawler {
    const site: Site
    var soundboards: seq<string>
    var visited: seq<string>
    var disk: Disk

    /** The crawler's current state as a value. */
    function State(): CrawlState
      reads this`soundboards, this`visited, this`disk
    {
      CrawlState(soundboards, visited, disk)
    }

    /** `visited_list.append(url)`. */
    method MarkCategory(url: string)
      modifies this`visited
      ensures visited == old(visited) + [url]
    {
      visited := visited + [url];
    }

    /** `soundboard_list.append(url)` and `scrape_soundboard(url)`. */
    method ScrapeNew(url: string) returns (error: Option<Error>)
      modifies this`soundboards, this`disk
      ensures soundboards == old(soundboards) + [url]
      ensures (disk, error) == Scrape(site, old(disk), url)
    {
      soundboards := soundboards + [url];
      disk, error := ScrapeSoundboard(site, disk, url);
    }

    /** The crawl of `scrap_soundboard_website`, before the first call: both lists empty. */
    constructor (site: Site, disk: Disk)
      ensures this.site == site && State() == Start(disk)
    {
      this.site := site;
      this.disk := disk;
      soundboards := [];
      visited := [];
    }

    /**
     * `get_all_categories(target)`: fetch the page, prune its anchors, and follow each
     * remaining link in order. The first error ends the whole crawl.
     */
    method GetAllCategories(target: string) returns (error: Option<Error>)
      modifies this
      decreases |site.Keys - MarkedIn(State())|, if target in site then 5 else 0
      ensures State() == CrawlPage(ScrapeStep(site), SiteView(site), old(State()), target).state
      ensures error == CrawlPage(ScrapeStep(site), SiteView(site), old(State()), target).error
    {
      var response := Get(site, target);
      if response.Failure? {
        return Some(response.error);
      }
      var page := response.value;
      var tags;
      tags, error := PruneUnwanted(page.anchors);
      if error.Some? {
        return;
      }
      error := FollowAll(KindOf(page.title), Links(tags));
    }

    /**
     * The link loop of `get_all_categories`, for the links taken from the pruned anchors of
     * a page of the given kind, in order. The first error ends it.
     */
    method FollowAll(kind: Option<PageKind>, links: seq<Option<string>>) returns (error: Option<Error>)
      modifies this
      decreases |site.Keys - MarkedIn(State())|, 4
      ensures State() == CrawlLinks(ScrapeStep(site), SiteView(site), old(State()), kind, links).state
      ensures error == CrawlLinks(ScrapeStep(site), SiteView(site), old(State()), kind, links).error
    {
      ghost var whole := CrawlLinks(ScrapeStep(site), SiteView(site), State(), kind, links);
      assert links[0..] == links;
      for k := 0 to |links|
        invariant MarkedIn(old(State())) <= MarkedIn(State())
        invariant Ends(CrawlLinks(ScrapeStep(site), SiteView(site), State(), kind, links[k..]), whole)
      {
        ghost var before := State();
        UnmarkedShrinks(site.Keys, MarkedIn(old(State())), MarkedIn(before));
        error := FollowLink(kind, links[k]);
        LinksFrom(ScrapeStep(site), SiteView(site), before, kind, links, k);
        if error.Some? {
          return;
        }
      }
      error := None;
    }

    /**
     * One turn of the link loop of `get_all_categories`, for the link taken from one
     * anchor, on a page of the given kind (`None` when the page has no title).
     */
    method FollowLink(kind: Option<PageKind>, link: Option<string>) returns (error: Option<Error>)
      modifies this
      decreases |site.Keys - MarkedIn(State())|, 2
      ensures State() == CrawlLink(ScrapeStep(site), SiteView(site), old(State()), kind, link).state
      ensures error == CrawlLink(ScrapeStep(site), SiteView(site), old(State()), kind, link).error
    {
      if link.None? || link.value in soundboards || link.value in visited {
        return None;
      }
      var url := link.value;
      if kind.None? {
        return Some(NoTitle);
      }
      if kind.value == CategoryPage {
        error := FollowCategory(url);
      } else if kind.value == SoundboardPage {
        error := ScrapeNew(url);
      } else {
        error := None;
      }
    }

    /** A category link in neither list: `visited_list.append(url)`, then `get_all_categories(url)`. */
    method FollowCategory(url: string) returns (error: Option<Error>)
      requires url !in soundboards && url !in visited
      modifies this
      decreases |site.Keys - MarkedIn(State())|, 1
      ensures State() == CrawlPage(ScrapeStep(site), SiteView(site), old(State()).(visited := old(visited) + [url]), url).state
      ensures error == CrawlPage(ScrapeStep(site), SiteView(site), old(State()).(visited := old(visited) + [url]), url).error
    {
      MarkCategory(url);
      MarkShrinks(site.Keys, MarkedIn(old(State())), MarkedIn(State()), url);
      error := GetAllCategories(url);
    }
  }

  /** Two outcomes leave the same state and the same error. */
  predicate Ends(a: Outcome, b: Outcome)
  {
    a.state == b.state && a.error == b.error
  }

  /** `scrap_soundboard_website`: crawl from the soundboard index with both lists empty. */
  method ScrapSoundboardWebsite(site: Site, disk: Disk) returns (crawler: Crawler, error: Option<Error>)
    ensures fresh(crawler) && crawler.site == site
    ensures crawler.State() == Crawl(site, disk).state && error == Crawl(site, disk).error
    ensures ValidState(crawler.State()) && Grows(disk, crawler.disk)
    ensures TargetUrl !in site ==>
      error == Some(FetchError(TargetUrl)) && crawler.soundboards == [] && crawler.visited == [] && crawler.disk == disk
    ensures TargetUrl in site && PruneFails(site[TargetUrl].anchors) ==>
      error == Some(IndexError) && crawler.soundboards == [] && crawler.visited == [] && crawler.disk == disk
    ensures forall u :: u in MarkedIn(crawler.State()) ==> LinkedFrom(SiteView(site), Crawl(site, disk).calls, u)
    ensures error.None? ==> forall p :: p in Crawl(site, disk).calls ==> Explored(SiteView(site), p, MarkedIn(crawler.State()))
  {
    crawler := new Crawler(site, disk);
    error := crawler.GetAllCategories(TargetUrl);
    CrawlFacts(site, disk);
  }

  /**
   * Of the calls a crawl makes, each URL but the starting one has at most one; the
   * starting URL is never marked beforehand, so it has a second one exactly when a
   * category page links back to it.
   */
  lemma ExpansionCount(root: string, visited: seq<string>, u: string)
    requires NoDup(visited)
    ensures u != root ==> multiset([root] + visited)[u] <= 1
    ensures multiset([root] + visited)[root] == if root in visited then 2 else 1
  {
    NoDupCount(visited, u);
    NoDupCount(visited, root);
  }

  /**
   * The calls of the whole crawl: every URL but the index is expanded at most once, and
   * the index twice exactly when some category page linked back to it.
   */
  lemma CrawlExpansions(site: Site, disk: Disk, u: string)
    ensures var r := Crawl(site, disk);
      && (u != TargetUrl ==> multiset(r.calls)[u] <= 1)
      && multiset(r.calls)[TargetUrl] == if TargetUrl in r.state.visited then 2 else 1
  {
    CrawlFacts(site, disk);
    ExpansionCount(TargetUrl, Crawl(site, disk).state.visited, u);
  }
}
