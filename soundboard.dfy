/**
 * Resolving one soundboard page: the directory name taken from its title
 * (`get_website_title`), the manifest parser (`get_all_soundboard_file_names` without
 * its GET) and the audio URL template derived from the manifest's script tag
 * (`scrape_soundboard`).
 */
module Soundboard {
  import opened Wrappers
  import opened Text
  import opened Pattern
  import opened Format
  import opened Web

  const TitleMarker := " - Realm"
  const MaxTitleLength := 250

  /** Python's `s[:n]`: the first `n` characters, or all of a shorter text. */
  function Truncate(s: string, n: nat): (r: string)
    ensures r <= s
    ensures |r| == if |s| < n then |s| else n
  {
    if |s| < n then s else s[..n]
  }

  lemma TruncateShort(s: string, n: nat)
    requires |s| <= n
    ensures Truncate(s, n) == s
  {
  }

  /**
   * `get_website_title`: the text before the first " - Realm", cut to its first 250
   * characters, with every ':' then deleted.
   */
  function WebsiteTitle(titleText: string): (r: string)
    ensures ':' !in r
    ensures |r| <= MaxTitleLength
  {
    RemoveChar(Truncate(Before(titleText, TitleMarker), MaxTitleLength), ':')
  }

  /**
   * The title is decided by the text before the first " - Realm": when `x` holds no
   * occurrence of it, whatever follows the marker is ignored.
   */
  lemma TitleBeforeMarker(x: string, y: string)
    requires forall i :: 0 <= i < |x| ==> !OccursAt(x + TitleMarker + y, TitleMarker, i)
    ensures WebsiteTitle(x + TitleMarker + y) == WebsiteTitle(x)
  {
    var s := x + TitleMarker + y;
    assert s[|x|..|x| + |TitleMarker|] == TitleMarker;
    assert OccursAt(s, TitleMarker, |x|);
    var r := Before(s, TitleMarker);
    assert !OccursAt(r, TitleMarker, |x|);
    assert |r| == |x|;
    assert r == s[..|x|] == x;
    forall i | 0 <= i < |x| ensures !OccursAt(x, TitleMarker, i) {
      if i + |TitleMarker| <= |x| {
        assert x[i..i + |TitleMarker|] == s[i..i + |TitleMarker|];
      }
    }
    assert Before(x, TitleMarker) == x;
  }

  /** A title within 250 characters and without " - Realm" only loses its colons. */
  lemma TitleWithoutMarker(titleText: string)
    requires |titleText| <= MaxTitleLength
    requires !Contains(titleText, TitleMarker)
    ensures WebsiteTitle(titleText) == RemoveChar(titleText, ':')
  {
    BeforeAbsent(titleText, TitleMarker);
    TitleOfPlain(titleText);
  }

  lemma TitleOfPlain(titleText: string)
    requires |titleText| <= MaxTitleLength
    requires Before(titleText, TitleMarker) == titleText
    ensures WebsiteTitle(titleText) == RemoveChar(titleText, ':')
  {
    TruncateShort(titleText, MaxTitleLength);
  }

  /** A title without colons, without " - Realm" and within 250 characters is kept as it is. */
  lemma TitleUnchanged(titleText: string)
    requires ':' !in titleText && |titleText| <= MaxTitleLength
    requires !Contains(titleText, TitleMarker)
    ensures WebsiteTitle(titleText) == titleText
  {
    TitleWithoutMarker(titleText);
    RemoveCharAbsent(titleText, ':');
  }

  /**
   * An occurrence of " - Realm" starting inside `x` would put its 'R' either inside `x`
   * or on one of the marker's first three characters; so without an 'R' in `x` there is none.
   */
  lemma NoMarkerInside(x: string, y: string)
    requires 'R' !in x
    ensures forall i :: 0 <= i < |x| ==> !OccursAt(x + TitleMarker + y, TitleMarker, i)
  {
    var s := x + TitleMarker + y;
    forall i | 0 <= i < |x| ensures !OccursAt(s, TitleMarker, i) {
      if i + 3 < |x| {
        assert s[i + 3] == x[i + 3] != 'R';
      } else {
        assert s[i + 3] == TitleMarker[i + 3 - |x|] != 'R';
      }
      if i + |TitleMarker| <= |s| {
        assert s[i..i + |TitleMarker|][3] == s[i + 3];
      }
    }
  }

  /** Text without an 'R' holds no " - Realm". */
  lemma NoMarkerWithoutR(x: string)
    requires 'R' !in x
    ensures !Contains(x, TitleMarker)
  {
    NoMarkerInside(x, []);
    var s := x + TitleMarker + [];
    forall i ensures !OccursAt(x, TitleMarker, i) {
      if 0 <= i && i + |TitleMarker| <= |x| {
        assert s[i..i + |TitleMarker|] == x[i..i + |TitleMarker|];
        assert !OccursAt(s, TitleMarker, i);
      }
    }
  }

  /** Deleting the colon between two colon-free texts joins them. */
  lemma RemoveMiddleColon(a: string, b: string)
    requires ':' !in a && ':' !in b
    ensures RemoveChar(a + ":" + b, ':') == a + b
  {
    RemoveCharConcat(a + ":", b, ':');
    RemoveCharConcat(a, ":", ':');
    RemoveCharAbsent(a, ':');
    assert RemoveChar(":", ':') == [];
    assert RemoveChar(a + ":", ':') == a;
    RemoveCharAbsent(b, ':');
  }

  /**
   * A title of the form `a:b - Realm…`, short enough and with no 'R' before the marker,
   * becomes `ab`.
   */
  lemma TitleOfColonAndMarker(a: string, b: string, y: string)
    requires ':' !in a && ':' !in b && 'R' !in a && 'R' !in b
    requires |a| + |b| < MaxTitleLength
    ensures WebsiteTitle(a + ":" + b + TitleMarker + y) == a + b
  {
    var x := a + ":" + b;
    assert 'R' !in x;
    NoMarkerInside(x, y);
    TitleBeforeMarker(x, y);
    NoMarkerWithoutR(x);
    TitleWithoutMarker(x);
    RemoveMiddleColon(a, b);
  }

  /** The site's text after " - Realm" in the worked example's title. */
  const ExampleTail := " of Darkness.net - Soundboards for Mobile, Android, iPhone, iPad, iOS, Tablet, PC, Sounds"

  /** The worked example of a soundboard page title, with the site's whole suffix. */
  lemma TitleExample()
    ensures WebsiteTitle("Hank Hill Soundboard" + ":" + " King of the Hill - Season 1" + TitleMarker + ExampleTail)
         == "Hank Hill Soundboard" + " King of the Hill - Season 1"
  {
    ExampleName();
    ExampleSubtitle();
    TitleOfColonAndMarker("Hank Hill Soundboard", " King of the Hill - Season 1", ExampleTail);
  }

  lemma ExampleName()
    ensures ':' !in "Hank Hill Soundboard" && 'R' !in "Hank Hill Soundboard"
  {
  }

  lemma ExampleSubtitle()
    ensures ':' !in " King of the Hill - Season 1" && 'R' !in " King of the Hill - Season 1"
  {
  }

  /** The characters that the manifest cleaning deletes. */
  predicate IsNoise(c: char)
  {
    c == '\t' || c == '\r' || c == ',' || c == '"'
  }

  /** One identifier line: no line break and no noise character. */
  predicate IsCleanLine(s: string)
  {
    forall i :: 0 <= i < |s| ==> s[i] != '\n' && !IsNoise(s[i])
  }

  /** The four `.replace(c, "")` calls applied to the manifest text. */
  function CleanManifest(text: string): (r: string)
    ensures '\t' !in r && '\r' !in r && ',' !in r && '"' !in r
  {
    var a := RemoveChar(text, '\t');
    var b := RemoveChar(a, '\r');
    var c := RemoveChar(b, ',');
    RemoveCharAbsentStays(a, '\r', '\t');
    RemoveCharAbsentStays(b, ',', '\t');
    RemoveCharAbsentStays(b, ',', '\r');
    RemoveCharAbsentStays(c, '"', '\t');
    RemoveCharAbsentStays(c, '"', '\r');
    RemoveCharAbsentStays(c, '"', ',');
    RemoveChar(c, '"')
  }

  /** The cleaning keeps every line break. */
  lemma CleanKeepsBreaks(text: string)
    ensures multiset(CleanManifest(text))['\n'] == multiset(text)['\n']
  {
    var a := RemoveChar(text, '\t');
    var b := RemoveChar(a, '\r');
    var c := RemoveChar(b, ',');
    RemoveCharKeeps(text, '\t');
    RemoveCharKeeps(a, '\r');
    RemoveCharKeeps(b, ',');
    RemoveCharKeeps(c, '"');
  }

  lemma {:induction false} JoinHas(parts: seq<string>, sep: char, i: int, c: char)
    requires 0 <= i < |parts| && c in parts[i]
    ensures c in Join(parts, sep)
    decreases |parts|
  {
    if i > 0 {
      JoinHas(parts[1..], sep, i - 1, c);
    }
  }

  /** Every line of a text without noise characters is a clean line. */
  lemma CleanLines(clean: string)
    requires '\t' !in clean && '\r' !in clean && ',' !in clean && '"' !in clean
    ensures forall i :: 0 <= i < |Split(clean, '\n')| ==> IsCleanLine(Split(clean, '\n')[i])
  {
    var lines := Split(clean, '\n');
    SplitJoin(clean, '\n');
    forall i, k | 0 <= i < |lines| && 0 <= k < |lines[i]|
      ensures lines[i][k] != '\n' && !IsNoise(lines[i][k])
    {
      JoinHas(lines, '\n', i, lines[i][k]);
    }
  }

  /**
   * `get_all_soundboard_file_names` after its GET: clean the text, split it into
   * lines, and drop the first two lines and the last one; with fewer than three lines
   * a `pop` raises.
   */
  function ParseManifest(text: string): (r: Result<seq<string>, Error>)
    ensures r.Failure? ==> r.error == IndexError
    ensures r.Success? ==> forall i :: 0 <= i < |r.value| ==> IsCleanLine(r.value[i])
  {
    var clean := CleanManifest(text);
    var lines := Split(clean, '\n');
    CleanLines(clean);
    if |lines| < 3 then Failure(IndexError)
    else
      var ids := lines[2..|lines| - 1];
      assert forall i :: 0 <= i < |ids| ==> ids[i] == lines[i + 2];
      Success(ids)
  }

  /**
   * The parse fails exactly when the text has fewer than two line breaks, and otherwise
   * yields one identifier per line break beyond the second.
   */
  lemma ParseManifestCount(text: string)
    ensures ParseManifest(text).Success? <==> multiset(text)['\n'] >= 2
    ensures ParseManifest(text).Success? ==> |ParseManifest(text).value| == multiset(text)['\n'] - 2
  {
    SplitCount(CleanManifest(text), '\n');
    CleanKeepsBreaks(text);
  }

  /** One line per identifier, each ended by a line break. */
  function Lines(ids: seq<string>): string
  {
    if ids == [] then [] else ids[0] + "\n" + Lines(ids[1..])
  }

  /** A manifest: two header lines, one line per identifier, then a last line. */
  function ManifestText(first: string, second: string, ids: seq<string>, last: string): string
  {
    first + "\n" + second + "\n" + Lines(ids) + last
  }

  lemma {:induction false} LinesClean(ids: seq<string>, c: char)
    requires forall i :: 0 <= i < |ids| ==> IsCleanLine(ids[i])
    requires IsNoise(c)
    ensures c !in Lines(ids)
    decreases |ids|
  {
    if ids != [] {
      LinesClean(ids[1..], c);
      assert c !in ids[0];
    }
  }

  lemma {:induction false} SplitLines(ids: seq<string>, last: string)
    requires forall i :: 0 <= i < |ids| ==> IsCleanLine(ids[i])
    requires IsCleanLine(last)
    ensures Split(Lines(ids) + last, '\n') == ids + [last]
    decreases |ids|
  {
    if ids == [] {
      assert '\n' !in last;
      assert Lines(ids) + last == last;
      SplitWithout(last, '\n');
    } else {
      var id, tail := ids[0], Lines(ids[1..]) + last;
      SplitLines(ids[1..], last);
      assert Lines(ids) + last == id + ['\n'] + tail;
      assert '\n' !in id;
      SplitLine(id, '\n', tail);
      ConsTail(ids, [last]);
    }
  }

  /** Text without noise characters is left as it is by the cleaning. */
  lemma CleanAbsent(s: string)
    requires '\t' !in s && '\r' !in s && ',' !in s && '"' !in s
    ensures CleanManifest(s) == s
  {
    RemoveCharAbsent(s, '\t');
    RemoveCharAbsent(s, '\r');
    RemoveCharAbsent(s, ',');
    RemoveCharAbsent(s, '"');
  }

  /** The cleaning works on each half of a concatenation separately. */
  lemma CleanConcat(x: string, y: string)
    ensures CleanManifest(x + y) == CleanManifest(x) + CleanManifest(y)
  {
    var x1, y1 := RemoveChar(x, '\t'), RemoveChar(y, '\t');
    var x2, y2 := RemoveChar(x1, '\r'), RemoveChar(y1, '\r');
    var x3, y3 := RemoveChar(x2, ','), RemoveChar(y2, ',');
    RemoveCharConcat(x, y, '\t');
    RemoveCharConcat(x1, y1, '\r');
    RemoveCharConcat(x2, y2, ',');
    RemoveCharConcat(x3, y3, '"');
  }

  /** A manifest built from clean lines has nothing for the cleaning to delete. */
  lemma ManifestClean(first: string, second: string, ids: seq<string>, last: string)
    requires IsCleanLine(first) && IsCleanLine(second) && IsCleanLine(last)
    requires forall i :: 0 <= i < |ids| ==> IsCleanLine(ids[i])
    ensures CleanManifest(ManifestText(first, second, ids, last)) == ManifestText(first, second, ids, last)
  {
    var text := ManifestText(first, second, ids, last);
    forall c | IsNoise(c) ensures c !in text {
      LinesClean(ids, c);
      assert c !in first && c !in second && c !in last;
    }
    CleanAbsent(text);
  }

  /** The lines of a manifest are its two header lines, its identifiers and its last line. */
  lemma ManifestLines(first: string, second: string, ids: seq<string>, last: string)
    requires IsCleanLine(first) && IsCleanLine(second) && IsCleanLine(last)
    requires forall i :: 0 <= i < |ids| ==> IsCleanLine(ids[i])
    ensures Split(ManifestText(first, second, ids, last), '\n') == [first, second] + ids + [last]
  {
    var rest := Lines(ids) + last;
    var tail := second + ['\n'] + rest;
    assert ManifestText(first, second, ids, last) == first + ['\n'] + tail;
    assert '\n' !in first && '\n' !in second;
    SplitLines(ids, last);
    SplitLine(second, '\n', rest);
    SplitLine(first, '\n', tail);
    ConsTail([first, second] + ids, [last]);
    ConsTail([second] + ids, [last]);
  }

  /** A text that cleans to a manifest parses to that manifest's identifiers. */
  lemma ParseCleaned(text: string, first: string, second: string, ids: seq<string>, last: string)
    requires IsCleanLine(first) && IsCleanLine(second) && IsCleanLine(last)
    requires forall i :: 0 <= i < |ids| ==> IsCleanLine(ids[i])
    requires CleanManifest(text) == ManifestText(first, second, ids, last)
    ensures ParseManifest(text) == Success(ids)
  {
    ManifestLines(first, second, ids, last);
    var lines := [first, second] + ids + [last];
    assert lines[2..|lines| - 1] == ids;
  }

  /** Parsing a manifest gives back exactly its identifier lines, in order. */
  lemma ParseManifestText(first: string, second: string, ids: seq<string>, last: string)
    requires IsCleanLine(first) && IsCleanLine(second) && IsCleanLine(last)
    requires forall i :: 0 <= i < |ids| ==> IsCleanLine(ids[i])
    ensures ParseManifest(ManifestText(first, second, ids, last)) == Success(ids)
  {
    ManifestClean(first, second, ids, last);
    ParseCleaned(ManifestText(first, second, ids, last), first, second, ids, last);
  }

  /** Identifier lines as the manifest writes them: each quoted and followed by a comma. */
  function QuotedLines(ids: seq<string>): string
  {
    if ids == [] then [] else "\"" + ids[0] + "\",\n" + QuotedLines(ids[1..])
  }

  /** The cleaning of a single character: deleted when it is noise, kept otherwise. */
  lemma CleanOne(x: char)
    ensures CleanManifest([x]) == if IsNoise(x) then [] else [x]
  {
    RemoveCharOne(x, '\t');
    RemoveCharOne(x, '\r');
    RemoveCharOne(x, ',');
    RemoveCharOne(x, '"');
  }

  lemma CleanQuoteMarks()
    ensures CleanManifest("\"") == []
    ensures CleanManifest("\",\n") == "\n"
  {
    assert "\",\n" == ['"'] + [','] + ['\n'];
    CleanOne('"');
    CleanOne(',');
    CleanOne('\n');
    CleanConcat(['"'], [',']);
    CleanConcat(['"'] + [','], ['\n']);
  }

  /** Cleaning one quoted line leaves the identifier and its line break. */
  lemma CleanQuotedLine(id: string)
    requires IsCleanLine(id)
    ensures CleanManifest("\"" + id + "\",\n") == id + "\n"
  {
    var tail := id + "\",\n";
    assert "\"" + id + "\",\n" == "\"" + tail;
    assert '\t' !in id && '\r' !in id && ',' !in id && '"' !in id;
    CleanAbsent(id);
    CleanQuoteMarks();
    CleanConcat(id, "\",\n");
    assert CleanManifest(tail) == id + "\n";
    CleanConcat("\"", tail);
    assert [] + (id + "\n") == id + "\n";
  }

  /** Cleaning strips the quotes and commas around every identifier. */
  lemma {:induction false} CleanQuoted(ids: seq<string>)
    requires forall i :: 0 <= i < |ids| ==> IsCleanLine(ids[i])
    ensures CleanManifest(QuotedLines(ids)) == Lines(ids)
    decreases |ids|
  {
    if ids != [] {
      var line := "\"" + ids[0] + "\",\n";
      CleanQuotedLine(ids[0]);
      CleanQuoted(ids[1..]);
      CleanConcat(line, QuotedLines(ids[1..]));
    }
  }

  /** A text free of noise characters. */
  predicate NoNoise(s: string)
  {
    '\t' !in s && '\r' !in s && ',' !in s && '"' !in s
  }

  lemma CleanLineNoNoise(s: string)
    requires IsCleanLine(s)
    ensures NoNoise(s)
  {
  }

  lemma CleanHeader(first: string, second: string)
    requires NoNoise(first) && NoNoise(second)
    ensures CleanManifest(first + "\n" + second + "\n") == first + "\n" + second + "\n"
  {
    var head := first + "\n" + second + "\n";
    assert NoNoise(head);
    CleanAbsent(head);
  }

  /** Cleaning a manifest with quoted identifier lines. */
  lemma CleanQuotedManifest(first: string, second: string, ids: seq<string>, last: string)
    requires NoNoise(first) && NoNoise(second) && NoNoise(last)
    requires forall i :: 0 <= i < |ids| ==> IsCleanLine(ids[i])
    ensures CleanManifest(first + "\n" + second + "\n" + QuotedLines(ids) + last)
         == first + "\n" + second + "\n" + Lines(ids) + last
  {
    var head := first + "\n" + second + "\n";
    CleanHeader(first, second);
    CleanAbsent(last);
    CleanQuoted(ids);
    CleanConcat(head, QuotedLines(ids));
    CleanConcat(head + QuotedLines(ids), last);
  }

  /**
   * A manifest whose identifier lines are quoted and comma-terminated parses to exactly
   * those identifiers.
   */
  lemma ParseQuotedManifest(first: string, second: string, ids: seq<string>, last: string)
    requires IsCleanLine(first) && IsCleanLine(second) && IsCleanLine(last)
    requires forall i :: 0 <= i < |ids| ==> IsCleanLine(ids[i])
    ensures ParseManifest(first + "\n" + second + "\n" + QuotedLines(ids) + last) == Success(ids)
  {
    CleanLineNoNoise(first);
    CleanLineNoNoise(second);
    CleanLineNoNoise(last);
    CleanQuotedManifest(first, second, ids, last);
    ParseCleaned(first + "\n" + second + "\n" + QuotedLines(ids) + last, first, second, ids, last);
  }

  lemma ExampleIdsClean()
    ensures IsCleanLine("header1") && IsCleanLine("header2") && IsCleanLine("")
    ensures IsCleanLine("a") && IsCleanLine("b") && IsCleanLine("footer")
  {
  }

  lemma ExampleQuoted()
    ensures "header1" + "\n" + "header2" + "\n" + QuotedLines(["a", "b"]) + "footer\n"
         == "header1\nheader2\n\"a\",\n\"b\",\nfooter\n"
  {
    var ids := ["a", "b"];
    assert ids[1..] == ["b"] && ["b"][1..] == [];
    assert QuotedLines(["b"]) == "\"b\",\n";
    assert QuotedLines(ids) == "\"a\",\n\"b\",\n";
    var x := "header1" + "\n" + "header2" + "\n";
    assert x == "header1\nheader2\n";
    var y := x + QuotedLines(ids);
    assert y == "header1\nheader2\n\"a\",\n\"b\",\n";
  }

  lemma ExampleLines()
    ensures "header1" + "\n" + "header2" + "\n" + Lines(["a", "b"]) + "footer\n"
         == ManifestText("header1", "header2", ["a", "b", "footer"], "")
  {
    assert Lines(["a", "b"]) == "a\nb\n";
    assert Lines(["a", "b", "footer"]) == "a\nb\nfooter\n";
  }

  lemma ExampleClean(text: string)
    requires text == "header1\nheader2\n\"a\",\n\"b\",\nfooter\n"
    ensures CleanManifest(text) == ManifestText("header1", "header2", ["a", "b", "footer"], "")
  {
    ExampleQuoted();
    assert NoNoise("header1") && NoNoise("header2") && NoNoise("footer\n");
    assert IsCleanLine("a") && IsCleanLine("b");
    CleanQuotedManifest("header1", "header2", ["a", "b"], "footer\n");
    ExampleLines();
  }

  /**
   * A manifest ending in a line break has an empty last line, so the line before it is
   * kept as an identifier: the footer line here comes back as a third identifier.
   */
  lemma ManifestExample(text: string)
    requires text == "header1\nheader2\n\"a\",\n\"b\",\nfooter\n"
    ensures ParseManifest(text) == Success(["a", "b", "footer"])
  {
    ExampleIdsClean();
    ExampleClean(text);
    ParseCleaned(text, "header1", "header2", ["a", "b", "footer"], "");
  }

  const ScriptPrefix := "<script src=\"/scripts/sb/"
  const ScriptSuffix := "/sounds.js\">"
  const ScriptDir := "/scripts/sb/"
  const ScriptFile := "/sounds.js"

  /** `audio_file_url` of `scrape_soundboard`, from the manifest's path. */
  function AudioTemplate(scriptPath: string): string
  {
    "/audio/" + ReplaceAll(ReplaceAll(scriptPath, ScriptDir, []), ScriptFile, []) + "/%s.mp3"
  }

  /** No occurrence of `w` in `p + w` begins inside `p` when `p` lacks `w` and `w[0]` recurs nowhere in `w`. */
  lemma NoStraddle(p: string, w: string)
    requires |w| > 0
    requires forall k :: 1 <= k < |w| ==> w[k] != w[0]
    requires !Contains(p, w)
    ensures forall i :: 0 <= i < |p| ==> !OccursAt(p + w, w, i)
  {
    forall i | 0 <= i < |p| ensures !OccursAt(p + w, w, i) {
      if i + |w| <= |p| {
        assert (p + w)[i..i + |w|] == p[i..i + |w|];
        assert !OccursAt(p, w, i);
      } else {
        var k := |p| - i;
        assert (p + w)[i..i + |w|][k] == (p + w)[|p|] == w[0];
        assert w[k] != w[0];
      }
    }
  }

  /**
   * The template for the manifest `/scripts/sb/P/sounds.js` is `/audio/P/%s.mp3`,
   * provided the two deleted pieces occur nowhere else.
   */
  lemma TemplateOfScript(p: string)
    requires !Contains(p + ScriptFile, ScriptDir)
    requires !Contains(p, ScriptFile)
    ensures AudioTemplate(ScriptDir + p + ScriptFile) == "/audio/" + p + "/%s.mp3"
  {
    assert ScriptDir + p + ScriptFile == ScriptDir + (p + ScriptFile);
    DeleteLeading(ScriptDir, p + ScriptFile);
    assert ReplaceAll(ScriptDir + p + ScriptFile, ScriptDir, []) == p + ScriptFile;
    NoStraddle(p, ScriptFile);
    DeleteTrailing(p, ScriptFile);
  }

  /** Substituting an identifier into `/audio/P/%s.mp3` gives `/audio/P/<id>.mp3`. */
  lemma AudioPathOf(p: string, id: string)
    requires '%' !in p
    ensures Percent("/audio/" + p + "/%s.mp3", id) == Success("/audio/" + p + "/" + id + ".mp3")
  {
    assert "/audio/" + p + "/%s.mp3" == ("/audio/" + p + "/") + "%s" + ".mp3";
    SingleSlot("/audio/" + p + "/", ".mp3", id);
    assert ("/audio/" + p + "/") + id + ".mp3" == "/audio/" + p + "/" + id + ".mp3";
  }

  /** What `scrape_soundboard` hands to the download step: directory, URL template, identifiers. */
  datatype Job = Job(dir: string, template: string, sounds: seq<string>)

  /**
   * The resolving half of `scrape_soundboard`: fetch the page, take its title, find
   * the first manifest script tag, fetch and parse the manifest. `None` when the page
   * has no such tag.
   */
  function Resolve(site: Site, url: string): (r: Result<Option<Job>, Error>)
    ensures r.Success? ==> url in site && site[url].title.Some?
    ensures r.Success? && r.value.Some? ==> r.value.value.dir == WebsiteTitle(site[url].title.value)
    ensures r.Success? && r.value.None? <==>
      url in site && site[url].title.Some? && FirstMatch(site[url].text, ScriptPrefix, ScriptSuffix).None?
    ensures r.Success? && r.value.Some? ==>
      var tag := FirstMatch(site[url].text, ScriptPrefix, ScriptSuffix);
      tag.Some? && '"' in tag.value && r.value.value.template == AudioTemplate(QuotedField(tag.value))
    ensures url !in site ==> r == Failure(FetchError(url))
    ensures url in site && site[url].title.None? ==> r == Failure(NoTitle)
    ensures url in site && site[url].title.Some? ==>
      var tag := FirstMatch(site[url].text, ScriptPrefix, ScriptSuffix);
      tag.Some? ==>
        && '"' in tag.value
        && var manifest := BaseUrl + QuotedField(tag.value);
           && (manifest !in site ==> r == Failure(FetchError(manifest)))
           && (manifest in site && ParseManifest(site[manifest].text).Failure? ==> r == Failure(IndexError))
           && (manifest in site && ParseManifest(site[manifest].text).Success? ==>
                 r.Success? && r.value.Some? && r.value.value.sounds == ParseManifest(site[manifest].text).value)
  {
    match Get(site, url)
    case Failure(e) => Failure(e)
    case Success(page) =>
      if page.title.None? then Failure(NoTitle)
      else
        var name := WebsiteTitle(page.title.value);
        match FirstMatch(page.text, ScriptPrefix, ScriptSuffix)
        case None => Success(None)
        case Some(tag) =>
          assert tag[12] == ScriptPrefix[12] == '"';
          var path := QuotedField(tag);
          match Get(site, BaseUrl + path)
          case Failure(e) => Failure(e)
          case Success(manifest) =>
            match ParseManifest(manifest.text)
            case Failure(e) => Failure(e)
            case Success(sounds) => Success(Some(Job(name, AudioTemplate(path), sounds)))
  }

  /** The path quoted in the script tag `<script src="/scripts/sb/P/sounds.js">`. */
  lemma ScriptTagPath(p: string)
    requires '"' !in p
    ensures QuotedField(ScriptPrefix + p + ScriptSuffix) == ScriptDir + p + ScriptFile
  {
    assert ScriptPrefix + p + ScriptSuffix == "<script src=" + ['"'] + (ScriptDir + p + ScriptFile) + ['"'] + ">";
    QuotedFieldOf("<script src=", ScriptDir + p + ScriptFile, ">");
  }

  /**
   * When the first manifest tag on the page names `/scripts/sb/P/sounds.js`, the job's
   * template is `/audio/P/%s.mp3` and every identifier becomes `/audio/P/<id>.mp3`.
   */
  lemma ResolveTemplate(site: Site, url: string, p: string)
    requires url in site
    requires FirstMatch(site[url].text, ScriptPrefix, ScriptSuffix) == Some(ScriptPrefix + p + ScriptSuffix)
    requires '"' !in p && '%' !in p
    requires !Contains(p + ScriptFile, ScriptDir) && !Contains(p, ScriptFile)
    ensures Resolve(site, url).Success? && Resolve(site, url).value.Some? ==>
      && Resolve(site, url).value.value.template == "/audio/" + p + "/%s.mp3"
      && forall id :: Percent(Resolve(site, url).value.value.template, id) == Success("/audio/" + p + "/" + id + ".mp3")
  {
    ScriptTagPath(p);
    TemplateOfScript(p);
    var r := Resolve(site, url);
    if r.Success? && r.value.Some? {
      assert r.value.value.template == AudioTemplate(QuotedField(ScriptPrefix + p + ScriptSuffix));
    }
    forall id ensures Percent("/audio/" + p + "/%s.mp3", id) == Success("/audio/" + p + "/" + id + ".mp3") {
      AudioPathOf(p, id);
    }
  }
}
