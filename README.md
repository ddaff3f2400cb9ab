# Realm of Darkness soundboard downloader — a Dafny model

This project models the scraper in `main.py`. The scraper walks the category pages of
`https://www.realmofdarkness.net/sb/soundboards/` and finds every soundboard page. For each
soundboard it reads the sound manifest (`/scripts/sb/P/sounds.js`) and downloads every sound
not already present to `sounds/<title>/<id>.mp3`.

The web and the filesystem are values:

- A `Site` maps each URL that answers to its `Response`. A response holds the `<title>` text,
  the string form of each `<a>` tag, the decoded body and the raw bytes.
- A `Disk` holds the set of existing directories and a map from file path to contents.

An exception in the source is an `Error` value that ends the run.

Modules:

- `Text`: the Python string operations the scraper uses.
  - `w in s`: `Contains`.
  - `s.split(w)[0]`: `Before`.
  - `s.replace(c, "")`: `RemoveChar`.
  - `s.replace(w, n)`: `ReplaceAll`.
  - `s.split('\n')`: `Split`, with its inverse `Join`.
  - `s.split('"')[1]`: `QuotedField`.
- `Pattern`: the first match of the two lazy regular expressions `prefix.*?suffix`, as a
  leftmost, shortest search (`FirstMatch`).
- `Format`: Python's `template % arg` for templates holding `%s` and `%%`. It also has the
  zero-padded `i/n` counters of the progress line.
- `Web`: the site, responses, the error kinds, and `requests.get`.
- `Soundboard`: three parts.
  - `get_website_title`.
  - The manifest parser, which is `get_all_soundboard_file_names` without its GET.
  - The resolving half of `scrape_soundboard`: title, manifest tag, audio URL template.
- `Download`:
  - the reconciler `download_all_soundboard_files`, as an imperative reverse-index pop loop;
  - the download loop `download_and_save_mp3s`;
  - `scrape_soundboard`, which ties the two together.
- `Crawl`: four parts.
  - The anchor pruning of `get_all_categories`, with its two nested loops.
  - Link extraction and page classification. `SiteView` gives every page as the crawler sees
    it: whether its pruning raises, its kind by title, and the link of each kept anchor.
  - The recursive crawl as functions on values: `CrawlPage` is one call of
    `get_all_categories`, `CrawlLinks` its link loop and `CrawlLink` one turn of that loop.
    Each takes the state shared by the whole crawl (both lists and the disk) and returns the
    new state, the URL of every call made, and the error that ended it. The scraping of a
    soundboard is a parameter of these functions; `ScrapeStep(site)` is `scrape_soundboard`
    on the site. The lemmas about the crawl are stated on these functions.
  - A `Crawler` class. It holds the shared `soundboard_list` and `visited_list`, and the disk
    that scraping writes. `get_all_categories` is the method `GetAllCategories`, its loop is
    `FollowAll`, and the loop body is `FollowLink`. Each method leaves the state and returns
    the error that the matching function gives from the state it started in. The recursion
    terminates on the number of site URLs in neither list.

Behaviour kept as the code has it:

- **Classification reads the current page.** Every link on a page is treated according to the
  *current* page's sanitised title: "Soundboards" means descend, "Soundboard" means scrape.
  The linked page's own title is never consulted.
- **The starting URL is never marked.** A category page that links back to
  `.../sb/soundboards/` therefore expands the index a second time. `ExpansionCount` and
  `CrawlExpansions` state this, and every other URL is expanded at most once.
- **The pruning loop can raise `IndexError`.** Its inner `continue` does not leave the loop
  over unwanted URLs. After a pop, the next unwanted URL is checked against whatever now sits
  at that index. When the popped anchor was the last one left, that index is past the end.
  `PruneFails` characterises exactly when this raises.
- **The manifest's last line is dropped by position.** A manifest whose text ends in a
  newline has an empty last line. Dropping it keeps the footer line before it:
  `"header1\nheader2\n\"a\",\n\"b\",\nfooter\n"` parses to `["a", "b", "footer"]`
  (`ManifestExample`).
- **A page with no manifest tag returns quietly.** `scrape_soundboard` downloads nothing and
  raises no error. It still reads the page title first, so a page without a `<title>` fails
  even when it has no manifest tag.

## Model

| member | source | states |
|---|---|---|
| Text.Contains | main.py:246 | `w in s` holds exactly when `w` occurs in `s` at some index |
| Text.Before | main.py:62 | `s.split(w)[0]` is a prefix of `s` with no occurrence of `w`; it is all of `s` or is followed by `w` |
| Text.RemoveChar | main.py:62 | `replace(c, "")` leaves no `c` and never lengthens the text |
| Text.RemoveCharKeeps | main.py:82-85 | deleting `c` keeps every other character, with its multiplicity |
| Text.Split | main.py:86 | `split('\n')` gives at least one part, and no part holds the separator |
| Text.SplitJoin | main.py:86 | joining the parts with the separator gives back the text |
| Text.SplitCount | main.py:86 | there is one more part than there are separators |
| Text.QuotedField | main.py:209 | `split('"')[1]` holds no quote |
| Text.QuotedFieldOf | main.py:209 | the field of `a"b"c` is `b` when `a` and `b` hold no quote |
| Text.ReplaceAll | main.py:212 | `replace(w, n)` on a text without `w` changes nothing |
| Text.DeleteLeading | main.py:212 | deleting `w` from `w + t` deletes the leading copy and continues in `t` |
| Text.DeleteTrailing | main.py:212 | deleting `w` from `p + w` gives `p` when `w` first occurs at the end |
| Pattern.FirstMatch | main.py:46 | a match exists iff some `pre…suf` occurs with no line break between; the result is the leftmost start with the shortest end, begins with `pre`, ends with `suf` |
| Pattern.FirstMatchOfHead | main.py:253 | a text beginning `pre + gap + suf`, with `gap` free of line breaks and of `suf[0]`, matches exactly that head |
| Format.Percent | main.py:132 | the definition: Python's `template % arg` for `%s` and `%%`; `SingleSlot` and `NoSlot` state its cases |
| Format.SingleSlot | main.py:132 | `(a + "%s" + b) % arg` is `a + arg + b` when `a`, `b` hold no `%` |
| Format.NoSlot | main.py:132 | a template without `%` raises "not all arguments converted" |
| Format.DecimalValue | main.py:122 | `str(n)` reads back as `n` |
| Format.ZeroPad | main.py:122 | `:0>w` pads to width `w` with leading zeros and keeps the text at the end |
| Format.PaddedValue | main.py:122 | the padded counter has the width of `str(n)` and still reads as `i` |
| Format.Counter | main.py:122-129 | the definition: `i` and `n`, each zero-padded to `len(str(n))`, around a `/`; `CounterShape` states its shape |
| Format.CounterShape | main.py:129 | the counter `i/n` is both numbers at width `len(str(n))` around a `/`; the left reads as `i` |
| Web.Get | main.py:198 | a GET succeeds exactly for a URL the site answers, with that URL's response; any other URL raises `FetchError` for it |
| Soundboard.Truncate | main.py:62 | `s[:n]` is a prefix of length `min(n, len(s))` |
| Soundboard.WebsiteTitle | main.py:49-62 | the title has no `:` and at most 250 characters |
| Soundboard.TitleBeforeMarker | main.py:62 | whatever follows the first " - Realm" does not affect the title |
| Soundboard.TitleWithoutMarker | main.py:62 | a short title without " - Realm" only loses its colons |
| Soundboard.TitleUnchanged | main.py:62 | a short title without " - Realm" and without `:` is unchanged |
| Soundboard.TitleOfColonAndMarker | main.py:60-62 | `a:b - Realm…` becomes `ab`, when neither `a` nor `b` holds a `:` or an `R` and together they are shorter than 250 characters |
| Soundboard.TitleExample | main.py:60-62 | the docstring's whole title, "Hank Hill Soundboard: King of the Hill - Season 1 - Realm of Darkness.net - Soundboards for Mobile, …, PC, Sounds", becomes "Hank Hill Soundboard King of the Hill - Season 1" |
| Soundboard.CleanManifest | main.py:80-85 | the cleaned text holds no tab, CR, comma or double quote |
| Soundboard.CleanKeepsBreaks | main.py:80-86 | cleaning keeps every line break |
| Soundboard.ParseManifest | main.py:80-94 | the only failure is `IndexError` from a pop; every identifier is one clean line |
| Soundboard.ParseManifestCount | main.py:86-92 | parsing succeeds iff the text has at least two line breaks, and then gives line breaks − 2 identifiers |
| Soundboard.ParseManifestText | main.py:80-94 | `first\nsecond\n` + one line per id + `last` parses to exactly the ids, in order |
| Soundboard.ParseQuotedManifest | main.py:80-94 | the same with each id written `"id",` as in `sounds.js` |
| Soundboard.ManifestExample | main.py:80-94 | the example manifest with a trailing newline parses to `["a", "b", "footer"]` |
| Soundboard.AudioTemplate | main.py:210-214 | the definition: `/audio/`, the script path with `/scripts/sb/` and `/sounds.js` deleted, then `/%s.mp3`; `TemplateOfScript` states its result |
| Soundboard.TemplateOfScript | main.py:209-214 | `/scripts/sb/P/sounds.js` gives the template `/audio/P/%s.mp3` |
| Soundboard.AudioPathOf | main.py:132 | substituting `id` into `/audio/P/%s.mp3` gives `/audio/P/id.mp3` |
| Soundboard.Resolve | main.py:198-216 | an unreachable page raises `FetchError`, a page without a title `NoTitle`; no job exactly when the page has no manifest tag; otherwise the manifest at `BASE_URL` + the path quoted in the first tag is fetched (`FetchError` when it does not answer) and parsed (`IndexError` when too short), and the job holds the sanitised title, the template built from that path, and exactly the parsed identifiers |
| Soundboard.ScriptTagPath | main.py:209 | the quoted path of `<script src="/scripts/sb/P/sounds.js">` is `/scripts/sb/P/sounds.js` |
| Soundboard.ResolveTemplate | main.py:199-214 | for a first manifest tag naming `P`, the job's template is `/audio/P/%s.mp3`, and every id maps to `/audio/P/id.mp3` |
| Download.FilePathInjective | main.py:134 | different ids in one directory have different file paths |
| Download.Missing | main.py:170-175 | no kept id has its file on disk; the list never grows |
| Download.MissingMembers | main.py:170-175 | an id is kept iff it was listed and its file is absent |
| Download.MissingConcat | main.py:170-175 | the filter works part by part, so kept ids keep their relative order |
| Download.Reconcile | main.py:164-177 | the directory exists afterwards; an existing directory filters the list to ids whose file is missing, a new one filters nothing; skipped + remaining = original length |
| Download.Fetch | main.py:132 | a fetch succeeds iff the template formats and `BASE_URL + path` answers, and then gives that response's body; a bad template raises `FormatError`, an unanswered URL `FetchError` for it |
| Download.SaveAll | main.py:124-136 | the definition: fetch and write each id in order until the first failure; `SaveAllOrder`, `SaveAllStops`, `SaveAllFrame` and `SaveAllContents` state it |
| Download.SaveAllOrder | main.py:124-136 | file `k` written is `sounds/<dir>/<id_k>.mp3`, in list order; without error every id is written |
| Download.SaveAllStops | main.py:124-136 | every written id was fetched; an error is the failed fetch or a missing directory at the first unwritten id |
| Download.SaveAllFrame | main.py:133-136 | the loop creates no directory; only written paths are added; every other file keeps its contents |
| Download.SaveAllContents | main.py:132-136 | each written file holds the body fetched for its id |
| Download.Progress | main.py:121-130 | after `done` items the line has shown `done + 1` counters |
| Download.ProgressEntry | main.py:121-130 | the `i`-th counter shown is `i/n`, and it prints as the zero-padded `Format.Counter(i, n)` |
| Download.StartProgress | main.py:121-123 | the line starts at `0/n` |
| Download.AdvanceProgress | main.py:128-130 | each item adds the counter `index+1/n` |
| Download.SaveAllStep | main.py:124-136 | one turn of the loop: fail on a failed fetch or a missing directory, otherwise write the file and continue |
| Download.SaveNext | main.py:132-136 | the loop after one more id is the loop's function applied one step further |
| Download.DownloadAndSave | main.py:97-137 | the disk and error are those of the download loop; the progress line shows a counter for every id attempted |
| Download.DownloadAll | main.py:164-182 | the definition: the download loop on the ids still missing from the prepared directory; `DownloadAllComplete`, `DownloadAllIdempotent` and `DownloadAllKeepsExisting` state it |
| Download.DownloadAllSoundboardFiles | main.py:140-182 | reconcile, then download what is left; with nothing left no file is written and no counter is shown |
| Download.DownloadAllComplete | main.py:140-182 | after a run without error the directory exists and every listed id has its file |
| Download.DownloadAllIdempotent | main.py:163-182 | a second run after a clean run finds nothing left and changes nothing |
| Download.DownloadAllKeepsExisting | main.py:169-175 | a file present before the run keeps its contents |
| Download.Scrape | main.py:198-218 | the definition: a resolve error leaves the disk, a page without a manifest tag writes nothing, otherwise `DownloadAll` of the job; `ScrapeGrows` states that it only adds |
| Download.ScrapeSoundboard | main.py:185-218 | the outcome is `Scrape`: resolve errors leave the disk, a page without a manifest tag writes nothing, otherwise the job is downloaded |
| Download.ScrapeGrows | main.py:185-218 | scraping never deletes a directory or a file |
| Crawl.Kept | main.py:244-248 | no kept anchor is unwanted; the list never grows |
| Crawl.KeptMembers | main.py:244-248 | an anchor survives iff it was there and no unwanted URL flags it |
| Crawl.KeptConcat | main.py:244-248 | surviving anchors keep their order |
| Crawl.PruneFailsAt | main.py:244-248 | pruning raises iff an anchor flagged by one of the first three unwanted URLs has only dropped anchors after it |
| Crawl.LastFlaggedFails | main.py:244-248 | a page whose last anchor links home, to the index or to contact always raises |
| Crawl.LastWantedSucceeds | main.py:244-248 | a page whose last anchor is wanted never raises |
| Crawl.PruneCheck | main.py:246-248 | one check of the inner loop: the anchor at the index is popped iff this unwanted URL flags it, and a check past the end raises `IndexError` only after an early-flagged last anchor was popped |
| Crawl.PruneAt | main.py:245-248 | the inner loop at one index: it pops the anchor iff it is unwanted, and raises iff it popped an early-flagged last anchor |
| Crawl.PruneUnwanted | main.py:243-248 | the pruning raises iff `PruneFails`, and otherwise leaves exactly the wanted anchors in order |
| Crawl.Links | main.py:250-258 | entry `i` is the link extracted from anchor `i`, and each link is under `https://www.realmofdarkness.net/sb/` |
| Crawl.ExtractLink | main.py:250-258 | a link exists iff the link pattern matches; it starts with `https://www.realmofdarkness.net/sb/` and holds no quote |
| Crawl.LinkOfAnchor | main.py:250-258 | `<a href="https://www.realmofdarkness.net/sb/u">…` links to exactly that URL |
| Crawl.PruneFails | main.py:243-248 | the definition: the pruning raises when, going from the back, an anchor flagged by one of the first three unwanted URLs is popped while no later anchor survives; `PruneFailsAt` and `PruneUnwanted` state it |
| Crawl.Classify | main.py:264-271 | a page is a category iff its sanitised title contains "Soundboards", and of neither kind iff it does not contain "Soundboard"; otherwise it is a soundboard page |
| Crawl.CategoryNamesSoundboard | main.py:265-269 | every category title also names a soundboard, so the category test must come first |
| Crawl.ClassifyIgnoresTail | main.py:265 | the site's own " - Realm of Darkness…" suffix does not affect classification |
| Crawl.SiteView | main.py:238-258 | one entry per URL the site answers, holding whether its pruning raises, its kind by title and the link of each kept anchor; every link is under `https://www.realmofdarkness.net/sb/` |
| Crawl.ScrapeStepOnlyAdds | main.py:185-218 | `scrape_soundboard`, as a step of the crawl, never deletes a directory or a file |
| Crawl.CrawlPage | main.py:238-271 | one call of `get_all_categories`: the lists only grow at their ends, and the first call recorded is the target itself |
| Crawl.CrawlLinks | main.py:250-271 | the link loop: the lists only grow at their ends |
| Crawl.CrawlLink | main.py:255-271 | one turn of the loop: the lists only grow at their ends |
| Crawl.Crawl | main.py:284-287 | the definition: the crawl from the index with both lists empty; `CrawlFacts` and `CrawlExpansions` state what it does |
| Crawl.MarkKeepsDistinct | main.py:261-266 | appending a URL in neither list to `visited_list` keeps both lists duplicate-free and disjoint |
| Crawl.ScrapeKeepsDistinct | main.py:261-270 | the same for appending it to `soundboard_list` |
| Crawl.CrawlPageDistinct | main.py:238-271 | a call keeps both lists duplicate-free and disjoint |
| Crawl.CrawlLinksDistinct | main.py:250-271 | the link loop keeps both lists duplicate-free and disjoint |
| Crawl.CrawlLinkDistinct | main.py:255-271 | one turn of the loop keeps both lists duplicate-free and disjoint |
| Crawl.CrawlPageGrows | main.py:238-271 | when scraping never deletes, a call never deletes a directory or a file |
| Crawl.CrawlLinksGrows | main.py:250-271 | the same for the link loop |
| Crawl.CrawlLinkGrows | main.py:255-271 | the same for one turn of the loop |
| Crawl.CrawlPageCalls | main.py:238-271 | the calls a call makes are itself, then one per category it appends to `visited_list`, in the order appended |
| Crawl.CrawlLinksCalls | main.py:250-271 | the calls the loop makes are exactly the categories it appends to `visited_list`, in order |
| Crawl.CrawlLinkCalls | main.py:255-271 | the calls one turn makes are exactly the categories it appends, in order |
| Crawl.CrawlPageSound | main.py:238-271 | every URL a call adds to either list is the link of a kept anchor on one of the pages it fetched |
| Crawl.CrawlLinksSound | main.py:250-271 | every URL the loop adds to either list is one of its links or the link of a kept anchor on a page it fetched |
| Crawl.CrawlLinkSound | main.py:255-271 | every URL one turn adds is its own link or the link of a kept anchor on a page it fetched |
| Crawl.CrawlPageExplored | main.py:238-271 | a call that ends without error finished every page it fetched: each answered, its pruning did not raise, and every link its loop acts on is in one of the lists |
| Crawl.CrawlLinksExplored | main.py:250-271 | a loop that ends without error leaves every link it acts on in one of the lists, and every page it fetched finished |
| Crawl.CrawlLinkExplored | main.py:255-271 | a turn that ends without error leaves its link in one of the lists, unless the page is of neither kind |
| Crawl.CrawlLinksKinds | main.py:264-271 | on a page that is not a category no category is marked and no call made; on a page of neither kind the loop changes nothing and never raises |
| Crawl.SoundboardPageLinks | main.py:269-271 | on a soundboard page the loop makes no call, marks no category, and lists only links of that page |
| Crawl.CrawlPageKinds | main.py:238-271 | a fetched page that is not a category marks no category; one of neither kind changes nothing and raises only when its pruning does |
| Crawl.SoundUnderRoot | main.py:252-258 | a URL linked from a page of the site is under `https://www.realmofdarkness.net/sb/` |
| Crawl.CrawlFacts | main.py:274-287 | the whole crawl: both lists duplicate-free, disjoint and under the site root; the disk only grows; the calls are the index, then every category marked; an unreachable index raises `FetchError` and an index whose pruning raises gives `IndexError`, both with nothing listed; every listed URL is linked from a fetched page; without error every fetched page is finished |
| Crawl.Crawler.constructor | main.py:284 | both lists start empty, on the given disk |
| Crawl.Crawler.MarkCategory | main.py:266 | `visited_list` gains the URL at its end |
| Crawl.Crawler.ScrapeNew | main.py:270-271 | `soundboard_list` gains the URL at its end; the disk and the error are those of `Scrape` on the old disk |
| Crawl.Crawler.GetAllCategories | main.py:222-271 | the new lists, disk and error are exactly those of `CrawlPage` from the old state |
| Crawl.Crawler.FollowAll | main.py:250-271 | the new lists, disk and error are exactly those of `CrawlLinks` from the old state |
| Crawl.Crawler.FollowLink | main.py:255-271 | the new lists, disk and error are exactly those of `CrawlLink` from the old state |
| Crawl.Crawler.FollowCategory | main.py:266-268 | the new lists, disk and error are exactly those of `CrawlPage` on the URL, from the old state with the URL appended to `visited_list` |
| Crawl.ScrapSoundboardWebsite | main.py:274-287 | the crawler ends in the state and with the error of `Crawl`, and so has every property `CrawlFacts` gives: duplicate-free, disjoint lists under the site root, a disk that only grows, the two index errors with nothing listed, only linked URLs listed, and without error every fetched page finished |
| Crawl.ExpansionCount | main.py:284-287 | each URL but the index is expanded at most once; the index is expanded twice exactly when a category links back to it |
| Crawl.CrawlExpansions | main.py:274-287 | the same for the calls of the whole crawl |

## Left out

- `logger.py` is not part of this model: it only writes a log file and is not called by `main.py`.
- HTTP: `requests.get`, the `HEADERS` and cookie constants, and status codes. A URL the site
  answers returns its response, and any other URL raises (`FetchError`).
- HTML parsing: BeautifulSoup is not modelled. A response carries its `<title>` text and its
  anchors' string forms as given.
- UTF-8 decoding is not modelled: the decoded text of a response is given alongside its bytes.
- The regular-expression engine: the two patterns are modelled as a leftmost, shortest match of
  their literal prefix and suffix with no line break between. Only the first match is used.
- Format.Percent: only `%s` and `%%` are modelled. Any other directive is a `FormatError`, and
  so is a template with no `%s`.
- The percentage and bar of the progress line are not modelled: they are computed in floating
  point. Only the `i/n` counters are kept, as the sequence of `Tick`s the line shows; each
  prints as the zero-padded `Format.Counter(i, n)`.
- Console output (`print`, `sys.stdout.write`) and the `__main__` entry point are left out.
- `os.getcwd` and `os.path.join` are left out: paths are relative to the working directory.
- `os.makedirs` creating parent directories is left out: only `sounds/<dir>/` is recorded.
- A directory name from a title holding `/` is not split into nested directories.
- Download.SaveAllStops: a path is a plain string, so an identifier holding `/` (say `a/b`) is
  written to `sounds/<dir>/a/b.mp3`. In the source `open` raises `FileNotFoundError` there,
  because `sounds/<dir>/a/` does not exist. The model checks only `sounds/<dir>/`.
- Download.FilePathInjective: paths are not normalised, so the injectivity is of path strings.
  Two different strings can still name one file (an empty title gives `sounds//`, and `..` is
  kept as written).
- Download.ScrapeSoundboard: the identifier list is passed by value, so the caller does not see
  it shrink in place. The skip count and the progress counters are dropped here, as the source
  only prints them.
- Concurrency: there is none in the source.
