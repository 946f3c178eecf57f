/**
 * The earlier single-file detector, inspect.js: a theme found only from a stylesheet
 * link and read only from its header, and plugins found only from asset URLs.
 * Its `detectWordPress` and `analyzeCustomization` are those of the Signals and
 * Scoring modules.
 */
module Legacy {
  import opened Wrappers
  import opened JsText
  import opened Patterns
  import opened Dom
  import opened Theme
  import opened Plugins

  // ---------------------------------------------------------------- extractThemeInfo

  /** axios's default `validateStatus`: only a 2xx answer resolves; anything else throws and is caught. */
  predicate Resolved(resp: Option<Response>) {
    resp.Some? && 200 <= resp.value.status < 300
  }

  /** What the stylesheet answer makes of the empty record: its URL, the name in its URL, then its header. */
  function LegacyRead(url: string, resp: Option<Response>): ThemeInfo {
    if !Resolved(resp) then Unknown
    else
      var located := Unknown.(stylesheetUrl := Some(url));
      var named := if ThemeSlug(url).Some? then located.(name := ThemeSlug(url)) else located;
      match FirstCapture(resp.value.body, BlockComment)
      case None => named
      case Some(header) => ApplyHeader(named, header)
  }

  /** `extractThemeInfo` of inspect.js; a `new URL` that throws fails the whole call. */
  function LegacyThemeSpec(page: Page, resolve: string -> Option<Url>, fetch: string -> Option<Response>): Result<ThemeInfo> {
    match FirstStylesheetLink(page.stylesheetHrefs, 0)
    case None => Success(Unknown)
    case Some(j) =>
      var href := page.stylesheetHrefs[j];
      if StartsWith(href, "http") then Success(LegacyRead(href, fetch(href)))
      else match resolve(href)
        case None => Failure(InvalidUrl)
        case Some(u) => Success(LegacyRead(u.href, fetch(u.href)))
  }

  method ExtractThemeInfo(page: Page, resolve: string -> Option<Url>, fetch: string -> Option<Response>)
    returns (r: Result<ThemeInfo>)
    ensures r == LegacyThemeSpec(page, resolve, fetch)
  {
    var info := Unknown;
    var j := FindStylesheetLink(page.stylesheetHrefs);
    if j.None? {
      return Success(info);
    }
    var href := page.stylesheetHrefs[j.value];
    var url: string;
    if StartsWith(href, "http") {
      url := href;
    } else {
      var u := resolve(href);
      if u.None? {
        return Failure(InvalidUrl);
      }
      url := u.value.href;
    }
    var response := fetch(url);
    if !Resolved(response) {
      return Success(info);
    }
    info := info.(stylesheetUrl := Some(url));
    var slug := ThemeSlug(url);
    if slug.Some? {
      info := info.(name := slug);
    }
    var header := FirstCapture(response.value.body, BlockComment);
    if header.Some? {
      info := ApplyHeaderFields(info, header.value);
    }
    return Success(info);
  }

  /** Without a theme `style.css` link nothing is fetched and the record stays empty. */
  lemma LegacyNoLinkIsUnknown(page: Page, resolve: string -> Option<Url>, fetch: string -> Option<Response>)
    requires forall k | 0 <= k < |page.stylesheetHrefs| :: !IsThemeStylesheetHref(page.stylesheetHrefs[k])
    ensures LegacyThemeSpec(page, resolve, fetch) == Success(Unknown)
  {
  }

  /**
   * A request that does not resolve leaves the record empty, `stylesheetUrl` included.
   * One that resolves records the URL; the name comes from the header's Theme Name
   * when present and otherwise from the URL; every other field is the header's or null;
   * and it is a child theme exactly when the header has a Template line, which names the parent.
   */
  lemma LegacyStylesheetFields(url: string, resp: Option<Response>)
    ensures !Resolved(resp) ==> LegacyRead(url, resp) == Unknown
    ensures Resolved(resp) ==>
      var r, header := LegacyRead(url, resp), FirstCapture(resp.value.body, BlockComment);
      var field := (key: string) => if header.Some? then HeaderField(header.value, key) else None;
      && r.stylesheetUrl == Some(url)
      && r.name == (if field("theme name:").Some? then field("theme name:") else ThemeSlug(url))
      && r.version == field("version:")
      && r.author == field("author:")
      && r.uri == field("theme uri:")
      && r.description == field("description:")
      && (r.isChildTheme <==> field("template:").Some?)
      && r.parentTheme == field("template:")
  {
  }

  /** On a 200 answer the earlier reader and the api version's reader, started empty, agree. */
  lemma LegacyReadMatchesApi(url: string, resp: Response)
    requires resp.status == 200
    ensures LegacyRead(url, Some(resp)) == ReadStylesheet(Unknown, url, resp.body)
  {
  }

  /** Unlike the api version, any 2xx answer is read: a 204 still records the stylesheet URL. */
  lemma LegacyReadsAny2xx(url: string, body: string)
    ensures LegacyRead(url, Some(Response(204, body))).stylesheetUrl == Some(url)
  {
  }

  // ---------------------------------------------------------------- detectPlugins

  /** The `info` the earlier version keeps: a 200 answer with data, even one carrying `error`. */
  function LegacyInfo(reply: Option<RegistryReply>): Option<PluginInfo> {
    if reply.Some? && reply.value.status == 200 && reply.value.data.Some? then reply.value.data else None
  }

  /** `detectPlugins` of inspect.js: the asset pass alone, then one registry lookup per record. */
  function LegacyPluginsSpec(page: Page, registry: string -> Option<RegistryReply>): seq<Plugin> {
    ApplyValid(Empty, AssetHits(Assets(page)));
    Enrich(Values(Apply(Empty, AssetHits(Assets(page)))), s => LegacyInfo(registry(s)))
  }

  method DetectPlugins(page: Page, registry: string -> Option<RegistryReply>) returns (list: seq<Plugin>)
    ensures list == LegacyPluginsSpec(page, registry)
  {
    var plugins := AssetPass(Empty, Assets(page));
    ApplyValid(Empty, AssetHits(Assets(page)));
    list := EnrichAll(Values(plugins), s => LegacyInfo(registry(s)));
  }

  /** The map after the asset pass: each slug's files are exactly its matching assets, never none. */
  lemma AssetCatalogue(assets: seq<string>)
    ensures forall s | s in Apply(Empty, AssetHits(assets)).records ::
      && IsSlug(s)
      && Apply(Empty, AssetHits(assets)).records[s].detectedFiles == MatchingAssets(assets, s)
      && (forall f | f in MatchingAssets(assets, s) :: Contains(f, "/wp-content/plugins/" + s + "/"))
  {
    var a := AssetHits(assets);
    AssetHitsShape(assets);
    ApplyKeys(Empty, a);
    AppendOnlyFiles(a);
    SlugsMembers(a);
    forall s | s in Apply(Empty, a).records
      ensures IsSlug(s)
      ensures MatchingAssets(assets, s) == Filter(a, s)
      ensures forall f | f in MatchingAssets(assets, s) :: Contains(f, "/wp-content/plugins/" + s + "/")
    {
      var k :| 0 <= k < |a| && a[k].slug == s;
      AssetFilterIsMatching(assets, s);
      MatchingAssetsContainSlug(assets, s);
    }
  }

  /**
   * Every record lists exactly the assets whose plugin-directory match names it, in
   * document order (scripts before stylesheets), never none; each holds its slug's
   * directory; slugs are distinct.
   */
  lemma {:induction false} LegacyPluginFiles(page: Page, registry: string -> Option<RegistryReply>)
    ensures forall p | p in LegacyPluginsSpec(page, registry) ::
      && IsSlug(p.slug)
      && p.name == Humanize(p.slug)
      && p.detectedFiles == MatchingAssets(Assets(page), p.slug)
      && p.detectedFiles != []
      && (forall f | f in p.detectedFiles :: Contains(f, "/wp-content/plugins/" + p.slug + "/"))
      && p.info == LegacyInfo(registry(p.slug))
    ensures forall i, j | 0 <= i < j < |LegacyPluginsSpec(page, registry)| ::
      LegacyPluginsSpec(page, registry)[i].slug != LegacyPluginsSpec(page, registry)[j].slug
  {
    ApplyValid(Empty, AssetHits(Assets(page)));
    AssetCatalogue(Assets(page));
  }

  /** With the same registry answers the two versions differ only on a 200 answer whose data carries `error`. */
  lemma RegistryAcceptanceDiffers(reply: Option<RegistryReply>)
    ensures LegacyInfo(reply) != ApiInfo(reply) <==>
      reply.Some? && reply.value.status == 200 && reply.value.data.Some? && reply.value.hasError
  {
  }

  /**
   * The earlier list is a prefix of the api version's list: the comment and attribute
   * passes only add slugs after the asset slugs, and never touch an asset slug's record.
   */
  lemma {:induction false} LegacyListIsApiPrefix(page: Page, registry: string -> Option<RegistryReply>)
    ensures |LegacyPluginsSpec(page, registry)| <= |PluginsSpec(page, registry)|
    ensures forall i | 0 <= i < |LegacyPluginsSpec(page, registry)| ::
      PluginsSpec(page, registry)[i]
        == LegacyPluginsSpec(page, registry)[i].(info := ApiInfo(registry(LegacyPluginsSpec(page, registry)[i].slug)))
  {
    CommentHitsShape(PluginComments(page.html));
    AttributeHitsShape(page.elements);
    EnrichedPrefix(AssetHits(Assets(page)), CommentHits(PluginComments(page.html)), AttributeHits(page.elements), registry);
  }

  /**
   * The prefix property on hit sequences: the list of the first batch a, looked up the
   * earlier way, against the list of a + c + t, looked up the api way.
   */
  lemma {:induction false} EnrichedPrefix(a: seq<Hit>, c: seq<Hit>, t: seq<Hit>, registry: string -> Option<RegistryReply>)
    requires forall k | 0 <= k < |c| :: !c[k].appends
    requires forall k | 0 <= k < |t| :: !t[k].appends
    ensures Valid(Apply(Empty, a)) && Valid(Apply(Empty, a + c + t))
    ensures var legacy := Enrich(Values(Apply(Empty, a)), s => LegacyInfo(registry(s)));
      var api := Enrich(Values(Apply(Empty, a + c + t)), s => ApiInfo(registry(s)));
      && |legacy| <= |api|
      && forall i | 0 <= i < |legacy| :: api[i] == legacy[i].(info := ApiInfo(registry(legacy[i].slug)))
  {
    InsertOnlyRest(c, t);
    assert a + c + t == a + (c + t);
    CataloguePrefix(a, c + t);
  }

  /** Hits that only insert, after a first batch, keep that batch's keys in front and its records as they were. */
  lemma {:induction false} CataloguePrefix(a: seq<Hit>, rest: seq<Hit>)
    requires forall k | 0 <= k < |rest| :: !rest[k].appends
    ensures Valid(Apply(Empty, a)) && Valid(Apply(Empty, a + rest))
    ensures |Apply(Empty, a).keys| <= |Apply(Empty, a + rest).keys|
    ensures forall i | 0 <= i < |Apply(Empty, a).keys| ::
      && Apply(Empty, a + rest).keys[i] == Apply(Empty, a).keys[i]
      && Apply(Empty, a + rest).records[Apply(Empty, a).keys[i]] == Apply(Empty, a).records[Apply(Empty, a).keys[i]]
  {
    ApplyValid(Empty, a);
    ApplyValid(Empty, a + rest);
    CatalogueKeys(a);
    CatalogueKeys(a + rest);
    SlugsAppend(a, rest);
    DedupPrefix(Slugs(a), Slugs(rest));
    ApplyConcat(Empty, a, rest);
    InsertOnlyKeepsRecords(Apply(Empty, a), rest);
  }

  lemma InsertOnlyRest(c: seq<Hit>, t: seq<Hit>)
    requires forall k | 0 <= k < |c| :: !c[k].appends
    requires forall k | 0 <= k < |t| :: !t[k].appends
    ensures forall k | 0 <= k < |c + t| :: !(c + t)[k].appends
  {
  }
}
