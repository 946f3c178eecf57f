/**
 * Plugin detection: `detectPlugins` of api/inspect.js.
 *
 * Three passes over the page feed one insertion-ordered `Map` from slug to record:
 * the asset pass appends every matching script or stylesheet URL to its slug's
 * `detectedFiles`; the comment and attribute passes only add slugs that are absent.
 * Each pass is a sequence of `Hit`s, and the map after a pass is the fold `Apply`
 * of those hits; the registry lookup that fills `info` is an outcome supplied per slug.
 */
module Plugins {
  import opened Wrappers
  import opened JsText
  import opened Patterns
  import opened Dom

  /** What a registry lookup returned (the api.wordpress.org answer). */
  datatype PluginInfo = PluginInfo(
    name: Option<string>, version: Option<string>, author: Option<string>,
    description: Option<string>, rating: Option<int>, activeInstalls: Option<int>,
    lastUpdated: Option<string>, requiresWp: Option<string>, testedUpTo: Option<string>)

  datatype Plugin = Plugin(
    slug: string,
    name: string,
    detectedFiles: seq<string>,
    wpOrgUrl: string,
    info: Option<PluginInfo>)

  // ---------------------------------------------------------------- names and URLs

  /** `\w`. */
  predicate IsWordChar(c: char) {
    ('a' <= c <= 'z') || ('A' <= c <= 'Z') || ('0' <= c <= '9') || c == '_'
  }

  /** `toUpperCase` of a `\w` character. */
  function UpperChar(c: char): (d: char)
    ensures IsWordChar(d) <==> IsWordChar(c)
    ensures !('a' <= c <= 'z') ==> d == c
  {
    if 'a' <= c <= 'z' then (c as int - 32) as char else c
  }

  /** Whether position i of s starts a word: a `\w` after a non-`\w` or at the start (`\b\w`). */
  predicate StartsWord(s: string, i: nat)
    requires i < |s|
  {
    IsWordChar(s[i]) && (i == 0 || !IsWordChar(s[i - 1]))
  }

  /** `slug.replace(/-/g, ' ').replace(/\b\w/g, l => l.toUpperCase())`. */
  function Humanize(slug: string): string {
    var spaced := seq(|slug|, i requires 0 <= i < |slug| => if slug[i] == '-' then ' ' else slug[i]);
    seq(|spaced|, i requires 0 <= i < |spaced| => if StartsWord(spaced, i) then UpperChar(spaced[i]) else spaced[i])
  }

  /**
   * The display name has the slug's length; hyphens become spaces, the first character
   * of every word is upper-cased, and every other character is kept.
   */
  lemma HumanizeShape(slug: string)
    ensures |Humanize(slug)| == |slug|
    ensures forall i | 0 <= i < |slug| && slug[i] == '-' :: Humanize(slug)[i] == ' '
    ensures forall i | 0 <= i < |slug| && slug[i] != '-' ::
      Humanize(slug)[i] == (if IsWordChar(slug[i]) && (i == 0 || !IsWordChar(slug[i - 1]))
                            then UpperChar(slug[i]) else slug[i])
  {
  }

  /** Humanizing a display name again changes nothing. */
  lemma HumanizeIdempotent(slug: string)
    ensures Humanize(Humanize(slug)) == Humanize(slug)
  {
    var h := Humanize(slug);
    HumanizeShape(slug);
    HumanizeShape(h);
    forall i | 0 <= i < |h|
      ensures Humanize(h)[i] == h[i]
    {
      assert IsWordChar(h[i]) <==> IsWordChar(slug[i]) && slug[i] != '-';
      if i > 0 {
        assert IsWordChar(h[i - 1]) <==> IsWordChar(slug[i - 1]) && slug[i - 1] != '-';
      }
    }
  }

  function WpOrgUrl(slug: string): string {
    "https://wordpress.org/plugins/" + slug + "/"
  }

  /** The record a slug gets when it is first inserted. */
  function NewRecord(slug: string, files: seq<string>): Plugin {
    Plugin(slug, Humanize(slug), files, WpOrgUrl(slug), None)
  }

  // ---------------------------------------------------------------- the three passes as hits

  /** One piece of evidence: an asset URL (appended to its slug) or a tag (only creates a record). */
  datatype Hit = Hit(slug: string, evidence: string, appends: bool)

  /** A slug the catalogue can hold: what all three passes produce. */
  predicate IsSlug(s: string) {
    s != [] && '/' !in s
  }

  const PluginsSegment := Segment("/wp-content/plugins/")
  const PluginComment := CommentRef(["wp-content/plugins/"])
  const PluginsWord := Word("plugins/")

  /**
   * `asset.match(/\/wp-content\/plugins\/([^\/]+)\//)[1]`: the slug of the leftmost
   * `/wp-content/plugins/<slug>/` segment; None when the URL has none.
   */
  function AssetSlug(asset: string): (slug: Option<string>)
    ensures slug.Some? ==> IsSlug(slug.value)
    ensures slug.Some? ==> Contains(asset, "/wp-content/plugins/" + slug.value + "/")
    ensures IsFirstSegment(asset, "/wp-content/plugins/", slug)
  {
    var m := Leftmost(asset, PluginsSegment, 0);
    FirstSegment(asset, "/wp-content/plugins/");
    if m.Some? then
      SegmentCapture(asset, "/wp-content/plugins/", m.value.start);
      ContainsAt(asset, "/wp-content/plugins/" + m.value.capture + "/", m.value.start);
      Some(m.value.capture)
    else None
  }

  /** What one asset contributes. */
  function AssetHit(asset: string): seq<Hit> {
    if Contains(asset, "/wp-content/plugins/") && AssetSlug(asset).Some?
    then [Hit(AssetSlug(asset).value, asset, true)]
    else []
  }

  function AssetHits(assets: seq<string>): seq<Hit>
    decreases |assets|
  {
    if assets == [] then []
    else AssetHits(assets[..|assets| - 1]) + AssetHit(assets[|assets| - 1])
  }

  /** `html.match(/<!--[^>]*wp-content\/plugins\/([^\/\s]+)/gi) || []`: the whole text of every match. */
  function PluginComments(html: string): (comments: seq<string>) {
    var ms := MatchAll(html, PluginComment, 0);
    seq(|ms|, k requires 0 <= k < |ms| => html[ms[k].start..ms[k].end])
  }

  /**
   * `comment.match(/plugins\/([^\/\s]+)/)[1]` (case-sensitive, unlike the outer scan): the
   * whole run of characters other than `/` and white space after the leftmost `plugins/`
   * that has one; None when no `plugins/` is followed by such a character.
   */
  function CommentSlug(comment: string): (slug: Option<string>)
    ensures slug.Some? ==> IsSlug(slug.value)
    ensures IsFirstWord(comment, "plugins/", slug)
  {
    var m := Leftmost(comment, PluginsWord, 0);
    FirstWord(comment, "plugins/");
    if m.Some? then
      WordCapture(comment, "plugins/", m.value.start);
      assert forall k | 0 <= k < |m.value.capture| :: m.value.capture[k] != '/';
      Some(m.value.capture)
    else None
  }

  function CommentHit(comment: string): seq<Hit> {
    if CommentSlug(comment).Some? then [Hit(CommentSlug(comment).value, "HTML comment", false)] else []
  }

  function CommentHits(comments: seq<string>): seq<Hit>
    decreases |comments|
  {
    if comments == [] then []
    else CommentHits(comments[..|comments| - 1]) + CommentHit(comments[|comments| - 1])
  }

  /** The patterns of the attribute pass; each one's source, lower-cased, is also its slug. */
  const AttributePatterns := ["elementor", "wpforms", "contact-form-7", "yoast", "woocommerce", "jetpack"]

  /** `[class*="wp-"], [id*="wp-"], [data-plugin], [class*="plugin-"]`. */
  predicate IsSelected(e: Element) {
    Contains(e.cls, "wp-") || Contains(e.id, "wp-") || e.hasDataPlugin || Contains(e.cls, "plugin-")
  }

  /** `/p/i.test(s)` for a pattern p without special characters. */
  predicate ContainsIgnoringCase(s: string, p: string) {
    exists i | 0 <= i <= |s| :: StartsWithIgnoringCase(s[i..], p)
  }

  function PatternHits(combined: string, patterns: seq<string>): seq<Hit>
    decreases |patterns|
  {
    if patterns == [] then []
    else
      var p := patterns[|patterns| - 1];
      PatternHits(combined, patterns[..|patterns| - 1])
        + (if ContainsIgnoringCase(combined, p) then [Hit(p, "HTML attributes", false)] else [])
  }

  function ElementHits(e: Element): seq<Hit> {
    if IsSelected(e) then PatternHits(e.cls + " " + e.id, AttributePatterns) else []
  }

  function AttributeHits(elements: seq<Element>): seq<Hit>
    decreases |elements|
  {
    if elements == [] then []
    else AttributeHits(elements[..|elements| - 1]) + ElementHits(elements[|elements| - 1])
  }

  /** The assets in the source's order: every script src, then every stylesheet href. */
  function Assets(page: Page): seq<string> {
    page.scriptSrcs + page.stylesheetHrefs
  }

  // ---------------------------------------------------------------- the insertion-ordered map

  /** A JavaScript `Map` from slug to record: its keys in insertion order and its entries. */
  datatype Catalogue = Catalogue(keys: seq<string>, records: map<string, Plugin>)

  const Empty := Catalogue([], map[])

  /** What the passes do with one hit: insert an absent slug; append a URL to a present one. */
  function Record(c: Catalogue, h: Hit): Catalogue {
    if h.slug !in c.records then
      Catalogue(c.keys + [h.slug], c.records[h.slug := NewRecord(h.slug, [h.evidence])])
    else if h.appends then
      var r := c.records[h.slug];
      Catalogue(c.keys, c.records[h.slug := r.(detectedFiles := r.detectedFiles + [h.evidence])])
    else c
  }

  /** The map after the hits, one at a time, starting from c. */
  function Apply(c: Catalogue, hits: seq<Hit>): Catalogue
    decreases |hits|
  {
    if hits == [] then c else Record(Apply(c, hits[..|hits| - 1]), hits[|hits| - 1])
  }

  /** Keys distinct and exactly the entries' keys; every record well-formed for its key. */
  ghost predicate Valid(c: Catalogue) {
    && (forall i, j | 0 <= i < j < |c.keys| :: c.keys[i] != c.keys[j])
    && (forall k :: k in c.records <==> k in c.keys)
    && (forall k | k in c.records ::
          && c.records[k].slug == k
          && c.records[k].name == Humanize(k)
          && c.records[k].wpOrgUrl == WpOrgUrl(k)
          && c.records[k].detectedFiles != []
          && c.records[k].info.None?)
  }

  /** `Array.from(plugins.values())`. */
  function Values(c: Catalogue): seq<Plugin>
    requires forall k | k in c.keys :: k in c.records
  {
    seq(|c.keys|, i requires 0 <= i < |c.keys| => c.records[c.keys[i]])
  }

  function Slugs(hits: seq<Hit>): (ss: seq<string>)
    ensures |ss| == |hits|
    decreases |hits|
  {
    if hits == [] then [] else Slugs(hits[..|hits| - 1]) + [hits[|hits| - 1].slug]
  }

  /** The distinct elements of xs in the order of their first occurrence. */
  function Dedup(xs: seq<string>): seq<string>
    decreases |xs|
  {
    if xs == [] then []
    else
      var d := Dedup(xs[..|xs| - 1]);
      if xs[|xs| - 1] in d then d else d + [xs[|xs| - 1]]
  }

  /** The evidence of every hit for slug s, in order. */
  function Filter(hits: seq<Hit>, s: string): seq<string>
    decreases |hits|
  {
    if hits == [] then []
    else Filter(hits[..|hits| - 1], s) + (if hits[|hits| - 1].slug == s then [hits[|hits| - 1].evidence] else [])
  }

  // ---------------------------------------------------------------- facts about sequences of slugs

  lemma {:induction false} SlugsMembers(hits: seq<Hit>)
    ensures forall s :: s in Slugs(hits) <==> exists k | 0 <= k < |hits| :: hits[k].slug == s
    decreases |hits|
  {
    if hits != [] {
      var p := hits[..|hits| - 1];
      SlugsMembers(p);
      forall s ensures s in Slugs(hits) <==> exists k | 0 <= k < |hits| :: hits[k].slug == s {
        if s in Slugs(hits) && s != hits[|hits| - 1].slug {
          assert Slugs(hits) == Slugs(p) + [hits[|hits| - 1].slug];
          assert s in Slugs(p);
          var k :| 0 <= k < |p| && p[k].slug == s;
          assert hits[k].slug == s;
        }
        if exists k | 0 <= k < |hits| :: hits[k].slug == s {
          var k :| 0 <= k < |hits| && hits[k].slug == s;
          if k < |p| { assert p[k].slug == s; }
        }
      }
    }
  }

  lemma {:induction false} DedupMembers(xs: seq<string>)
    ensures forall x :: x in Dedup(xs) <==> x in xs
    decreases |xs|
  {
    if xs != [] {
      var p := xs[..|xs| - 1];
      DedupMembers(p);
      assert xs == p + [xs[|xs| - 1]];
    }
  }

  lemma {:induction false} DedupDistinct(xs: seq<string>)
    ensures forall i, j | 0 <= i < j < |Dedup(xs)| :: Dedup(xs)[i] != Dedup(xs)[j]
    decreases |xs|
  {
    if xs != [] {
      DedupDistinct(xs[..|xs| - 1]);
    }
  }

  /** The position of the first occurrence of x in xs. */
  function FirstIndex(xs: seq<string>, x: string): (k: nat)
    requires x in xs
    ensures k < |xs| && xs[k] == x
    ensures forall j | 0 <= j < k :: xs[j] != x
  {
    if xs[0] == x then 0 else 1 + FirstIndex(xs[1..], x)
  }

  lemma {:induction false} FirstIndexAppend(xs: seq<string>, y: string, x: string)
    requires x in xs + [y]
    ensures x in xs ==> FirstIndex(xs + [y], x) == FirstIndex(xs, x)
    ensures x !in xs ==> FirstIndex(xs + [y], x) == |xs|
  {
    var k := FirstIndex(xs + [y], x);
    if x in xs {
      var k' := FirstIndex(xs, x);
      assert (xs + [y])[k'] == x;
    } else {
      assert forall j | 0 <= j < |xs| :: (xs + [y])[j] != x;
    }
  }

  /** Dedup keeps the order of first occurrences. */
  lemma {:induction false} DedupFirstSeenOrder(xs: seq<string>)
    ensures forall x | x in Dedup(xs) :: x in xs
    ensures forall i, j | 0 <= i < j < |Dedup(xs)| ::
      FirstIndex(xs, Dedup(xs)[i]) < FirstIndex(xs, Dedup(xs)[j])
    decreases |xs|
  {
    DedupMembers(xs);
    if xs != [] {
      var p, y := xs[..|xs| - 1], xs[|xs| - 1];
      assert xs == p + [y];
      DedupFirstSeenOrder(p);
      DedupMembers(p);
      var d := Dedup(xs);
      forall i, j | 0 <= i < j < |d| ensures FirstIndex(xs, d[i]) < FirstIndex(xs, d[j]) {
        assert d[i] in Dedup(p);
        FirstIndexAppend(p, y, d[i]);
        FirstIndexAppend(p, y, d[j]);
        if j == |Dedup(p)| {
          assert FirstIndex(p, d[i]) < |p|;
        }
      }
    }
  }

  /** Appending never reorders what Dedup already kept: Dedup(xs) is a prefix of Dedup(xs + ys). */
  lemma {:induction false} DedupPrefix(xs: seq<string>, ys: seq<string>)
    ensures |Dedup(xs)| <= |Dedup(xs + ys)|
    ensures Dedup(xs + ys)[..|Dedup(xs)|] == Dedup(xs)
    decreases |ys|
  {
    if ys == [] {
      assert xs + ys == xs;
    } else {
      var zs := ys[..|ys| - 1];
      DedupPrefix(xs, zs);
      assert (xs + ys)[..|xs + ys| - 1] == xs + zs;
    }
  }

  lemma {:induction false} SlugsAppend(x: seq<Hit>, y: seq<Hit>)
    ensures Slugs(x + y) == Slugs(x) + Slugs(y)
    decreases |y|
  {
    if y == [] {
      assert x + y == x;
    } else {
      assert (x + y)[..|x + y| - 1] == x + y[..|y| - 1];
      SlugsAppend(x, y[..|y| - 1]);
    }
  }

  lemma {:induction false} FilterAbsent(hits: seq<Hit>, s: string)
    requires s !in Slugs(hits)
    ensures Filter(hits, s) == []
    decreases |hits|
  {
    if hits != [] {
      FilterAbsent(hits[..|hits| - 1], s);
    }
  }

  // ---------------------------------------------------------------- facts about the fold

  lemma {:induction false} ApplyConcat(c: Catalogue, a: seq<Hit>, b: seq<Hit>)
    ensures Apply(c, a + b) == Apply(Apply(c, a), b)
    decreases |b|
  {
    if b == [] {
      assert a + b == a;
    } else {
      assert (a + b)[..|a + b| - 1] == a + b[..|b| - 1];
      ApplyConcat(c, a, b[..|b| - 1]);
    }
  }

  lemma RecordValid(c: Catalogue, h: Hit)
    requires Valid(c)
    ensures Valid(Record(c, h))
  {
  }

  lemma {:induction false} ApplyValid(c: Catalogue, hits: seq<Hit>)
    requires Valid(c)
    ensures Valid(Apply(c, hits))
    decreases |hits|
  {
    if hits != [] {
      ApplyValid(c, hits[..|hits| - 1]);
      RecordValid(Apply(c, hits[..|hits| - 1]), hits[|hits| - 1]);
    }
  }

  /** The map holds exactly the slugs it started with and the slugs of the hits. */
  lemma {:induction false} ApplyKeys(c: Catalogue, hits: seq<Hit>)
    ensures forall s :: s in Apply(c, hits).records <==> s in c.records || s in Slugs(hits)
    decreases |hits|
  {
    if hits != [] {
      ApplyKeys(c, hits[..|hits| - 1]);
    }
  }

  /** The keys, in insertion order, are the hits' slugs without repeats, in first-seen order. */
  lemma {:induction false} CatalogueKeys(hits: seq<Hit>)
    ensures Apply(Empty, hits).keys == Dedup(Slugs(hits))
    decreases |hits|
  {
    if hits != [] {
      var p := hits[..|hits| - 1];
      CatalogueKeys(p);
      ApplyValid(Empty, p);
      assert Slugs(hits)[..|hits| - 1] == Slugs(p);
    }
  }

  /** Hits that only insert never change a record that is already there. */
  lemma {:induction false} InsertOnlyKeepsRecords(c: Catalogue, b: seq<Hit>)
    requires forall k | 0 <= k < |b| :: !b[k].appends
    ensures forall s | s in c.records :: s in Apply(c, b).records && Apply(c, b).records[s] == c.records[s]
    decreases |b|
  {
    if b != [] {
      InsertOnlyKeepsRecords(c, b[..|b| - 1]);
    }
  }

  /** A slug that hits with one tag e insert gets exactly [e]. */
  lemma {:induction false} InsertOnlyCreates(c: Catalogue, b: seq<Hit>, e: string)
    requires forall k | 0 <= k < |b| :: !b[k].appends && b[k].evidence == e
    ensures forall s | s !in c.records && s in Slugs(b) ::
      s in Apply(c, b).records && Apply(c, b).records[s].detectedFiles == [e]
    decreases |b|
  {
    if b != [] {
      var p := b[..|b| - 1];
      InsertOnlyCreates(c, p, e);
      ApplyKeys(c, p);
    }
  }

  /** From an empty map, hits that all append leave each slug with the evidence of all its hits, in order. */
  lemma {:induction false} AppendOnlyFiles(hits: seq<Hit>)
    requires forall k | 0 <= k < |hits| :: hits[k].appends
    ensures forall s | s in Apply(Empty, hits).records :: Apply(Empty, hits).records[s].detectedFiles == Filter(hits, s)
    decreases |hits|
  {
    if hits != [] {
      var p := hits[..|hits| - 1];
      AppendOnlyFiles(p);
      ApplyKeys(Empty, p);
      if hits[|hits| - 1].slug !in Apply(Empty, p).records {
        FilterAbsent(p, hits[|hits| - 1].slug);
      }
    }
  }

  // ---------------------------------------------------------------- detectPlugins

  /** Every hit of the page, pass after pass: assets, then comments, then attributes. */
  function PageHits(page: Page): seq<Hit> {
    AssetHits(Assets(page)) + CommentHits(PluginComments(page.html)) + AttributeHits(page.elements)
  }

  /**
   * How a registry request settled: None when it threw (network error, timeout, status 500
   * or above); otherwise its status, its `data` (None when falsy), and whether that data
   * carries a truthy `error` field.
   */
  datatype RegistryReply = RegistryReply(status: int, data: Option<PluginInfo>, hasError: bool)

  /** The `info` the api version keeps: a 200 answer with data and no `error`; anything else leaves null. */
  function ApiInfo(reply: Option<RegistryReply>): Option<PluginInfo> {
    if reply.Some? && reply.value.status == 200 && reply.value.data.Some? && !reply.value.hasError
    then reply.value.data
    else None
  }

  /** Each record's `info` is what the registry lookup of its slug gave, None when it failed. */
  function Enrich(list: seq<Plugin>, lookup: string -> Option<PluginInfo>): (r: seq<Plugin>)
    ensures |r| == |list|
    ensures forall i | 0 <= i < |list| :: r[i] == list[i].(info := lookup(list[i].slug))
  {
    seq(|list|, i requires 0 <= i < |list| => list[i].(info := lookup(list[i].slug)))
  }

  /** `detectPlugins`, as a function of the page and the registry's answers. */
  function PluginsSpec(page: Page, registry: string -> Option<RegistryReply>): seq<Plugin> {
    ApplyValid(Empty, PageHits(page));
    Enrich(Values(Apply(Empty, PageHits(page))), s => ApiInfo(registry(s)))
  }

  /** The asset pass: each asset URL in turn. */
  method AssetPass(c: Catalogue, assets: seq<string>) returns (plugins: Catalogue)
    ensures plugins == Apply(c, AssetHits(assets))
  {
    plugins := c;
    for i := 0 to |assets|
      invariant plugins == Apply(c, AssetHits(assets[..i]))
    {
      assert assets[..i + 1][..i] == assets[..i];
      assert AssetHits(assets[..i + 1]) == AssetHits(assets[..i]) + AssetHit(assets[i]);
      ApplyConcat(c, AssetHits(assets[..i]), AssetHit(assets[i]));
      plugins := AssetStep(plugins, assets[i]);
    }
    assert assets[..|assets|] == assets;
  }

  /** One asset URL under the plugins directory: insert its slug if absent, then push the URL. */
  method AssetStep(c: Catalogue, asset: string) returns (plugins: Catalogue)
    ensures plugins == Apply(c, AssetHit(asset))
  {
    plugins := c;
    if !Contains(asset, "/wp-content/plugins/") {
      assert AssetHit(asset) == [];
      return;
    }
    var slug := AssetSlug(asset);
    if slug.Some? {
      var s := slug.value;
      if s !in plugins.records {
        plugins := Catalogue(plugins.keys + [s], plugins.records[s := NewRecord(s, [])]);
      }
      var r := plugins.records[s];
      plugins := plugins.(records := plugins.records[s := r.(detectedFiles := r.detectedFiles + [asset])]);
      if s !in c.records {
        assert r == NewRecord(s, []);
        assert [] + [asset] == [asset];
        assert r.(detectedFiles := r.detectedFiles + [asset]) == NewRecord(s, [asset]);
      }
      assert AssetHit(asset) == [Hit(s, asset, true)];
      assert plugins == Record(c, Hit(s, asset, true));
    } else {
      assert AssetHit(asset) == [];
    }
  }

  /** The comment pass: a slug not yet present is inserted with the tag "HTML comment". */
  method CommentPass(c: Catalogue, comments: seq<string>) returns (plugins: Catalogue)
    ensures plugins == Apply(c, CommentHits(comments))
  {
    plugins := c;
    for i := 0 to |comments|
      invariant plugins == Apply(c, CommentHits(comments[..i]))
    {
      assert comments[..i + 1][..i] == comments[..i];
      ApplyConcat(c, CommentHits(comments[..i]), CommentHit(comments[i]));
      var slug := CommentSlug(comments[i]);
      if slug.Some? {
        var s := slug.value;
        if s !in plugins.records {
          plugins := Catalogue(plugins.keys + [s], plugins.records[s := NewRecord(s, ["HTML comment"])]);
        }
      }
    }
    assert comments[..|comments|] == comments;
  }

  /** The attribute pass: each selected element is tested against every pattern, in order. */
  method AttributePass(c: Catalogue, elements: seq<Element>) returns (plugins: Catalogue)
    ensures plugins == Apply(c, AttributeHits(elements))
  {
    plugins := c;
    for i := 0 to |elements|
      invariant plugins == Apply(c, AttributeHits(elements[..i]))
    {
      assert elements[..i + 1][..i] == elements[..i];
      ApplyConcat(c, AttributeHits(elements[..i]), ElementHits(elements[i]));
      plugins := ElementPass(plugins, elements[i]);
    }
    assert elements[..|elements|] == elements;
  }

  /** One selected element: every pattern found in its class and id inserts its slug when absent. */
  method ElementPass(c: Catalogue, e: Element) returns (plugins: Catalogue)
    ensures plugins == Apply(c, ElementHits(e))
  {
    plugins := c;
    if !IsSelected(e) {
      return;
    }
    var combined := e.cls + " " + e.id;
    assert AttributePatterns[..0] == [];
    for k := 0 to |AttributePatterns|
      invariant plugins == Apply(c, PatternHits(combined, AttributePatterns[..k]))
    {
      assert AttributePatterns[..k + 1][..k] == AttributePatterns[..k];
      var p := AttributePatterns[k];
      ghost var hit := if ContainsIgnoringCase(combined, p) then [Hit(p, "HTML attributes", false)] else [];
      assert PatternHits(combined, AttributePatterns[..k + 1]) == PatternHits(combined, AttributePatterns[..k]) + hit;
      ApplyConcat(c, PatternHits(combined, AttributePatterns[..k]), hit);
      if ContainsIgnoringCase(combined, p) {
        if p !in plugins.records {
          plugins := Catalogue(plugins.keys + [p], plugins.records[p := NewRecord(p, ["HTML attributes"])]);
        }
      }
    }
    assert AttributePatterns[..|AttributePatterns|] == AttributePatterns;
  }

  /** `detectPlugins`: the three passes into one map, its values, then one registry lookup per record. */
  method DetectPlugins(page: Page, registry: string -> Option<RegistryReply>) returns (list: seq<Plugin>)
    ensures list == PluginsSpec(page, registry)
  {
    var assets := Assets(page);
    var plugins := AssetPass(Empty, assets);
    plugins := CommentPass(plugins, PluginComments(page.html));
    plugins := AttributePass(plugins, page.elements);
    ApplyConcat(Empty, AssetHits(assets), CommentHits(PluginComments(page.html)));
    ApplyConcat(Empty, AssetHits(assets) + CommentHits(PluginComments(page.html)), AttributeHits(page.elements));
    assert plugins == Apply(Empty, PageHits(page));
    ApplyValid(Empty, PageHits(page));
    list := EnrichAll(Values(plugins), s => ApiInfo(registry(s)));
  }

  /** The registry lookups: each settles on its own and only ever fills its record's `info`. */
  method EnrichAll(found: seq<Plugin>, lookup: string -> Option<PluginInfo>) returns (list: seq<Plugin>)
    ensures list == Enrich(found, lookup)
  {
    list := found;
    for i := 0 to |list|
      invariant |list| == |found|
      invariant forall j | 0 <= j < i :: list[j] == found[j].(info := lookup(found[j].slug))
      invariant forall j | i <= j < |list| :: list[j] == found[j]
    {
      list := list[i := list[i].(info := lookup(list[i].slug))];
    }
  }

  // ---------------------------------------------------------------- what each pass produces

  /** The asset pass only appends, and every URL it appends holds its slug's plugin directory. */
  lemma {:induction false} AssetHitsShape(assets: seq<string>)
    ensures forall k | 0 <= k < |AssetHits(assets)| ::
      && AssetHits(assets)[k].appends
      && IsSlug(AssetHits(assets)[k].slug)
      && AssetHits(assets)[k].evidence in assets
      && Contains(AssetHits(assets)[k].evidence, "/wp-content/plugins/" + AssetHits(assets)[k].slug + "/")
    decreases |assets|
  {
    if assets != [] {
      var p := assets[..|assets| - 1];
      AssetHitsShape(p);
      assert assets == p + [assets[|assets| - 1]];
    }
  }

  /** The comment pass only inserts, tagging with "HTML comment". */
  lemma {:induction false} CommentHitsShape(comments: seq<string>)
    ensures forall k | 0 <= k < |CommentHits(comments)| ::
      && !CommentHits(comments)[k].appends
      && IsSlug(CommentHits(comments)[k].slug)
      && CommentHits(comments)[k].evidence == "HTML comment"
    decreases |comments|
  {
    if comments != [] {
      CommentHitsShape(comments[..|comments| - 1]);
    }
  }

  lemma {:induction false} PatternHitsShape(combined: string, patterns: seq<string>)
    ensures forall k | 0 <= k < |PatternHits(combined, patterns)| ::
      && !PatternHits(combined, patterns)[k].appends
      && PatternHits(combined, patterns)[k].slug in patterns
      && PatternHits(combined, patterns)[k].evidence == "HTML attributes"
    decreases |patterns|
  {
    if patterns != [] {
      var p := patterns[..|patterns| - 1];
      PatternHitsShape(combined, p);
      assert patterns == p + [patterns[|patterns| - 1]];
    }
  }

  /** The attribute pass only inserts, tagging with "HTML attributes", and only its six fixed slugs. */
  lemma {:induction false} AttributeHitsShape(elements: seq<Element>)
    ensures forall k | 0 <= k < |AttributeHits(elements)| ::
      && !AttributeHits(elements)[k].appends
      && AttributeHits(elements)[k].slug in AttributePatterns
      && AttributeHits(elements)[k].evidence == "HTML attributes"
    decreases |elements|
  {
    if elements != [] {
      AttributeHitsShape(elements[..|elements| - 1]);
      var e := elements[|elements| - 1];
      PatternHitsShape(e.cls + " " + e.id, AttributePatterns);
    }
  }

  /** Every slug the page yields is non-empty and holds no '/'. */
  lemma PageHitsAreSlugs(page: Page)
    ensures forall k | 0 <= k < |PageHits(page)| :: IsSlug(PageHits(page)[k].slug)
  {
    AssetHitsShape(Assets(page));
    CommentHitsShape(PluginComments(page.html));
    AttributeHitsShape(page.elements);
    ConcatSlugs(AssetHits(Assets(page)), CommentHits(PluginComments(page.html)), AttributeHits(page.elements));
  }

  lemma {:induction false} ConcatSlugs(a: seq<Hit>, c: seq<Hit>, t: seq<Hit>)
    requires forall k | 0 <= k < |a| :: IsSlug(a[k].slug)
    requires forall k | 0 <= k < |c| :: IsSlug(c[k].slug)
    requires forall k | 0 <= k < |t| :: t[k].slug in AttributePatterns
    ensures forall k | 0 <= k < |a + c + t| :: IsSlug((a + c + t)[k].slug)
  {
    forall k | 0 <= k < |a + c + t| ensures IsSlug((a + c + t)[k].slug) {
      if k >= |a| + |c| {
        assert (a + c + t)[k] == t[k - |a| - |c|];
      }
    }
  }

  /** Every slug of the map came from a hit. */
  lemma SlugsAreSlugs(hits: seq<Hit>)
    requires forall k | 0 <= k < |hits| :: IsSlug(hits[k].slug)
    ensures forall s | s in Slugs(hits) :: IsSlug(s)
  {
    SlugsMembers(hits);
  }

  // ---------------------------------------------------------------- detectPlugins: the promises

  /**
   * The list holds one record per distinct slug found, in the order each slug was first
   * found (assets before comments before attributes), with no slug twice.
   */
  lemma {:induction false} PluginSlugsFirstSeen(page: Page, registry: string -> Option<RegistryReply>)
    ensures |PluginsSpec(page, registry)| == |Dedup(Slugs(PageHits(page)))|
    ensures forall i | 0 <= i < |PluginsSpec(page, registry)| ::
      PluginsSpec(page, registry)[i].slug == Dedup(Slugs(PageHits(page)))[i]
    ensures forall s ::
      (exists i | 0 <= i < |PluginsSpec(page, registry)| :: PluginsSpec(page, registry)[i].slug == s)
        <==> s in Slugs(PageHits(page))
    ensures forall i, j | 0 <= i < j < |PluginsSpec(page, registry)| ::
      PluginsSpec(page, registry)[i].slug != PluginsSpec(page, registry)[j].slug
    ensures forall i, j | 0 <= i < j < |PluginsSpec(page, registry)| ::
      FirstIndex(Slugs(PageHits(page)), PluginsSpec(page, registry)[i].slug)
        < FirstIndex(Slugs(PageHits(page)), PluginsSpec(page, registry)[j].slug)
  {
    ListFirstSeen(PageHits(page), registry);
  }

  /** The same, for the catalogue any sequence of hits builds. */
  lemma {:induction false} ListFirstSeen(hits: seq<Hit>, registry: string -> Option<RegistryReply>)
    ensures Valid(Apply(Empty, hits))
    ensures var list := Enrich(Values(Apply(Empty, hits)), s => ApiInfo(registry(s)));
      && |list| == |Dedup(Slugs(hits))|
      && (forall i | 0 <= i < |list| :: list[i].slug == Dedup(Slugs(hits))[i])
      && (forall s :: (exists i | 0 <= i < |list| :: list[i].slug == s) <==> s in Slugs(hits))
      && (forall i, j | 0 <= i < j < |list| :: list[i].slug != list[j].slug)
      && (forall i, j | 0 <= i < j < |list| :: FirstIndex(Slugs(hits), list[i].slug) < FirstIndex(Slugs(hits), list[j].slug))
  {
    var c := Apply(Empty, hits);
    ApplyValid(Empty, hits);
    CatalogueKeys(hits);
    var list := Enrich(Values(c), s => ApiInfo(registry(s)));
    assert forall i | 0 <= i < |list| :: list[i].slug == c.keys[i];
    ListFollowsDedup(list, Slugs(hits));
  }

  /** A list whose slugs are `Dedup(xs)` holds each slug of xs once, in first-seen order. */
  lemma {:induction false} ListFollowsDedup(list: seq<Plugin>, xs: seq<string>)
    requires |list| == |Dedup(xs)| && forall i | 0 <= i < |list| :: list[i].slug == Dedup(xs)[i]
    ensures forall s :: (exists i | 0 <= i < |list| :: list[i].slug == s) <==> s in xs
    ensures forall i, j | 0 <= i < j < |list| :: list[i].slug != list[j].slug
    ensures forall i, j | 0 <= i < j < |list| :: FirstIndex(xs, list[i].slug) < FirstIndex(xs, list[j].slug)
  {
    DedupMembers(xs);
    DedupDistinct(xs);
    DedupFirstSeenOrder(xs);
    forall s | s in xs ensures exists i | 0 <= i < |list| :: list[i].slug == s {
      var i :| 0 <= i < |Dedup(xs)| && Dedup(xs)[i] == s;
      assert list[i].slug == s;
    }
  }

  /**
   * Every record carries its slug, the humanized name of the same length, the registry
   * URL, at least one piece of evidence, and exactly what the registry lookup gave.
   */
  lemma {:induction false} PluginRecordsWellFormed(page: Page, registry: string -> Option<RegistryReply>)
    ensures forall p | p in PluginsSpec(page, registry) ::
      && IsSlug(p.slug)
      && p.name == Humanize(p.slug)
      && |p.name| == |p.slug|
      && p.wpOrgUrl == "https://wordpress.org/plugins/" + p.slug + "/"
      && p.detectedFiles != []
      && p.info == ApiInfo(registry(p.slug))
  {
    var hits := PageHits(page);
    var c := Apply(Empty, hits);
    ApplyValid(Empty, hits);
    PageHitsAreSlugs(page);
    SlugsAreSlugs(hits);
    ApplyKeys(Empty, hits);
    forall p | p in PluginsSpec(page, registry) ensures |p.name| == |p.slug| {
      HumanizeShape(p.slug);
    }
  }

  /** The assets whose plugin-directory match names slug s, in document order: what the asset pass files under s. */
  function MatchingAssets(assets: seq<string>, s: string): (files: seq<string>)
    decreases |assets|
  {
    if assets == [] then []
    else
      var a := assets[|assets| - 1];
      MatchingAssets(assets[..|assets| - 1], s)
        + (if Contains(a, "/wp-content/plugins/") && AssetSlug(a) == Some(s) then [a] else [])
  }

  /** The asset pass files under s exactly the assets that match s, in order. */
  lemma {:induction false} AssetFilterIsMatching(assets: seq<string>, s: string)
    ensures Filter(AssetHits(assets), s) == MatchingAssets(assets, s)
    decreases |assets|
  {
    if assets != [] {
      var p, a := assets[..|assets| - 1], assets[|assets| - 1];
      AssetFilterIsMatching(p, s);
      FilterConcat(AssetHits(p), AssetHit(a), s);
    }
  }

  lemma {:induction false} FilterConcat(a: seq<Hit>, b: seq<Hit>, s: string)
    ensures Filter(a + b, s) == Filter(a, s) + Filter(b, s)
    decreases |b|
  {
    if b == [] {
      assert a + b == a;
    } else {
      assert (a + b)[..|a + b| - 1] == a + b[..|b| - 1];
      FilterConcat(a, b[..|b| - 1], s);
    }
  }

  /** A slug is found by the asset pass exactly when some asset matches it. */
  lemma {:induction false} FilterNonEmpty(hits: seq<Hit>, s: string)
    ensures s in Slugs(hits) <==> Filter(hits, s) != []
    decreases |hits|
  {
    if hits != [] {
      FilterNonEmpty(hits[..|hits| - 1], s);
    }
  }

  /** Each matching asset is one of the page's assets and holds "/wp-content/plugins/" + s + "/". */
  lemma {:induction false} MatchingAssetsContainSlug(assets: seq<string>, s: string)
    ensures forall f | f in MatchingAssets(assets, s) ::
      f in assets && Contains(f, "/wp-content/plugins/" + s + "/")
    ensures forall a | a in assets && Contains(a, "/wp-content/plugins/") && AssetSlug(a) == Some(s) ::
      a in MatchingAssets(assets, s)
    decreases |assets|
  {
    if assets != [] {
      var p := assets[..|assets| - 1];
      MatchingAssetsContainSlug(p, s);
      assert assets == p + [assets[|assets| - 1]];
    }
  }

  /** Some comment of the comment pass names slug s. */
  predicate NamedInComments(comments: seq<string>, s: string) {
    exists k | 0 <= k < |comments| :: CommentSlug(comments[k]) == Some(s)
  }

  lemma SlugsConcat(x: seq<Hit>, y: seq<Hit>)
    ensures forall s :: s in Slugs(x + y) <==> s in Slugs(x) || s in Slugs(y)
  {
    SlugsMembers(x);
    SlugsMembers(y);
    SlugsMembers(x + y);
    forall s | s in Slugs(x + y) ensures s in Slugs(x) || s in Slugs(y) {
      var k :| 0 <= k < |x + y| && (x + y)[k].slug == s;
      if k >= |x| { assert y[k - |x|].slug == s; }
    }
    forall s | s in Slugs(y) ensures s in Slugs(x + y) {
      var k :| 0 <= k < |y| && y[k].slug == s;
      assert (x + y)[|x| + k].slug == s;
    }
    forall s | s in Slugs(x) ensures s in Slugs(x + y) {
      var k :| 0 <= k < |x| && x[k].slug == s;
      assert (x + y)[k].slug == s;
    }
  }

  lemma CommentHitSlug(comment: string, s: string)
    ensures s in Slugs(CommentHit(comment)) <==> CommentSlug(comment) == Some(s)
  {
    if CommentSlug(comment).Some? {
      assert Slugs(CommentHit(comment)) == [CommentSlug(comment).value];
    } else {
      assert Slugs(CommentHit(comment)) == [];
    }
  }

  /** A slug is found by the comment pass exactly when some comment names it. */
  lemma {:induction false} CommentHitsSlugs(comments: seq<string>, s: string)
    ensures s in Slugs(CommentHits(comments)) <==> NamedInComments(comments, s)
    decreases |comments|
  {
    if comments != [] {
      var p, last := comments[..|comments| - 1], comments[|comments| - 1];
      CommentHitsSlugs(p, s);
      assert CommentHits(comments) == CommentHits(p) + CommentHit(last);
      SlugsConcat(CommentHits(p), CommentHit(last));
      CommentHitSlug(last, s);
      NamedSplit(comments, s);
    }
  }

  lemma NamedSplit(comments: seq<string>, s: string)
    requires comments != []
    ensures NamedInComments(comments, s) <==>
      NamedInComments(comments[..|comments| - 1], s) || CommentSlug(comments[|comments| - 1]) == Some(s)
  {
    ProducedSplit(comments, comments[..|comments| - 1], CommentSlug, Some(s));
  }

  /** Some element of a non-empty sequence gives v exactly when one before the last does, or the last does. */
  lemma ProducedSplit<T, U>(xs: seq<T>, p: seq<T>, f: T -> U, v: U)
    requires xs != [] && p == xs[..|xs| - 1]
    ensures (exists k | 0 <= k < |xs| :: f(xs[k]) == v) <==>
      (exists k | 0 <= k < |p| :: f(p[k]) == v) || f(xs[|xs| - 1]) == v
  {
    if exists k | 0 <= k < |xs| :: f(xs[k]) == v {
      var k :| 0 <= k < |xs| && f(xs[k]) == v;
      if k < |p| { assert p[k] == xs[k]; }
    }
    if exists k | 0 <= k < |p| :: f(p[k]) == v {
      var k :| 0 <= k < |p| && f(p[k]) == v;
      assert xs[k] == p[k];
    }
  }


  /** The evidence each slug ends with after the three passes, by the first pass that found it. */
  lemma EvidenceOfPasses(a: seq<Hit>, c: seq<Hit>, t: seq<Hit>)
    requires forall k | 0 <= k < |a| :: a[k].appends
    requires forall k | 0 <= k < |c| :: !c[k].appends && c[k].evidence == "HTML comment"
    requires forall k | 0 <= k < |t| :: !t[k].appends && t[k].evidence == "HTML attributes"
    ensures forall s | s in Apply(Empty, a + c + t).records ::
      && (s in Slugs(a) ==> Apply(Empty, a + c + t).records[s].detectedFiles == Filter(a, s))
      && (s !in Slugs(a) && s in Slugs(c) ==> Apply(Empty, a + c + t).records[s].detectedFiles == ["HTML comment"])
      && (s !in Slugs(a) && s !in Slugs(c) ==> Apply(Empty, a + c + t).records[s].detectedFiles == ["HTML attributes"])
  {
    ApplyConcat(Empty, a + c, t);
    ApplyConcat(Empty, a, c);
    var c1 := Apply(Empty, a);
    var c2 := Apply(c1, c);
    AppendOnlyFiles(a);
    ApplyKeys(Empty, a);
    ApplyKeys(c1, c);
    ApplyKeys(c2, t);
    InsertOnlyKeepsRecords(c1, c);
    InsertOnlyKeepsRecords(c2, t);
    InsertOnlyCreates(c1, c, "HTML comment");
    InsertOnlyCreates(c2, t, "HTML attributes");
  }

  /**
   * A slug some asset matched lists exactly those assets, in document order; otherwise
   * a slug some comment named lists ["HTML comment"]; otherwise it came from the
   * attribute pass and lists ["HTML attributes"].
   */
  lemma {:induction false} PluginEvidence(page: Page, registry: string -> Option<RegistryReply>)
    ensures forall p | p in PluginsSpec(page, registry) ::
      var files := MatchingAssets(Assets(page), p.slug);
      var named := NamedInComments(PluginComments(page.html), p.slug);
      && (files != [] ==> p.detectedFiles == files)
      && (files == [] && named ==> p.detectedFiles == ["HTML comment"])
      && (files == [] && !named ==> p.detectedFiles == ["HTML attributes"])
  {
    AttributeHitsShape(page.elements);
    ListEvidence(Assets(page), PluginComments(page.html), AttributeHits(page.elements), registry);
  }

  /** The same, for the passes over any assets and comments followed by insert-only attribute hits. */
  lemma {:induction false} ListEvidence(assets: seq<string>, comments: seq<string>, t: seq<Hit>, registry: string -> Option<RegistryReply>)
    requires forall k | 0 <= k < |t| :: !t[k].appends && t[k].evidence == "HTML attributes"
    ensures Valid(Apply(Empty, AssetHits(assets) + CommentHits(comments) + t))
    ensures forall p | p in Enrich(Values(Apply(Empty, AssetHits(assets) + CommentHits(comments) + t)), s => ApiInfo(registry(s))) ::
      var files := MatchingAssets(assets, p.slug);
      var named := NamedInComments(comments, p.slug);
      && (files != [] ==> p.detectedFiles == files)
      && (files == [] && named ==> p.detectedFiles == ["HTML comment"])
      && (files == [] && !named ==> p.detectedFiles == ["HTML attributes"])
  {
    var a, c := AssetHits(assets), CommentHits(comments);
    AssetHitsShape(assets);
    CommentHitsShape(comments);
    EvidenceOfPasses(a, c, t);
    var cat := Apply(Empty, a + c + t);
    ApplyValid(Empty, a + c + t);
    var list := Enrich(Values(cat), s => ApiInfo(registry(s)));
    forall p | p in list
      ensures var files, named := MatchingAssets(assets, p.slug), NamedInComments(comments, p.slug);
        && (files != [] ==> p.detectedFiles == files)
        && (files == [] && named ==> p.detectedFiles == ["HTML comment"])
        && (files == [] && !named ==> p.detectedFiles == ["HTML attributes"])
    {
      var i :| 0 <= i < |list| && list[i] == p;
      assert p.slug in cat.records && p.detectedFiles == cat.records[p.slug].detectedFiles;
      AssetFilterIsMatching(assets, p.slug);
      FilterNonEmpty(a, p.slug);
      CommentHitsSlugs(comments, p.slug);
    }
  }

  /** Every file listed for a slug that some asset matched holds that slug's plugin directory. */
  lemma AssetEvidenceNamesSlug(page: Page, registry: string -> Option<RegistryReply>)
    ensures forall p, f | p in PluginsSpec(page, registry) && f in p.detectedFiles && MatchingAssets(Assets(page), p.slug) != [] ::
      f in Assets(page) && Contains(f, "/wp-content/plugins/" + p.slug + "/")
  {
    PluginEvidence(page, registry);
    forall p | p in PluginsSpec(page, registry) {
      MatchingAssetsContainSlug(Assets(page), p.slug);
    }
  }
}
