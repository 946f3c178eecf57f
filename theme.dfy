/**
 * Theme resolution: `extractThemeInfo` of api/inspect.js.
 *
 * A cascade of five attempts fills `themeInfo` and a candidate stylesheet URL; if a
 * URL was found, the stylesheet is fetched and its block-comment header overwrites
 * the fields it names. URL parsing, the REST theme listing and the stylesheet fetch
 * are the outcomes supplied in `Env`.
 */
module Theme {
  import opened Wrappers
  import opened JsText
  import opened Patterns
  import opened Dom

  datatype ThemeInfo = ThemeInfo(
    name: Option<string>,
    version: Option<string>,
    author: Option<string>,
    uri: Option<string>,
    description: Option<string>,
    stylesheetUrl: Option<string>,
    isChildTheme: bool,
    parentTheme: Option<string>)

  /** The record the cascade starts from: every field null, not a child theme. */
  const Unknown := ThemeInfo(None, None, None, None, None, None, false, None)

  /** A parsed URL: `href`, `origin` and `pathname` of a WHATWG URL object. */
  datatype Url = Url(href: string, origin: string, pathname: string)

  /** A response that the HTTP client returned instead of throwing. */
  datatype Response = Response(status: int, body: string)

  /** One entry of the `/wp-json/wp/v2/themes` answer, its fields read as strings. */
  datatype RestTheme = RestTheme(
    status: Option<string>,
    stylesheet: Option<string>,
    name: Option<string>,
    version: Option<string>,
    author: Option<string>,       // author.name, else author
    description: Option<string>,  // description.raw, else description
    themeUri: Option<string>,
    template: Option<string>)

  /** The outcomes of what the cascade calls outside the page. */
  datatype Env = Env(
    resolve: string -> Option<Url>,          // new URL(ref, baseUrl); None when it throws
    baseOrigin: string,                      // new URL(baseUrl).origin
    restThemes: Option<seq<RestTheme>>,      // the theme list when /wp-json/wp/v2/themes answered 200 with a body
    fetch: string -> Option<Response>)       // GET of a stylesheet; None when it throws

  /** The exception `new URL` raises, which nothing inside `extractThemeInfo` catches. */
  const InvalidUrl := "TypeError: Invalid URL"

  const ThemesSegment := Segment("/themes/")
  const ThemeComment := CommentRef(ThemeAlternatives)

  /**
   * `url.match(/\/themes\/([^\/]+)\//)[1]`: the slug of the leftmost `/themes/<slug>/`
   * segment whose slug is non-empty and slash-free; None when the URL has no such segment.
   */
  function ThemeSlug(url: string): (slug: Option<string>)
    ensures slug.Some? ==> slug.value != [] && '/' !in slug.value
    ensures slug.Some? ==> Contains(url, "/themes/" + slug.value + "/")
    ensures IsFirstSegment(url, "/themes/", slug)
  {
    var m := Leftmost(url, ThemesSegment, 0);
    FirstSegment(url, "/themes/");
    if m.Some? then
      SegmentCapture(url, "/themes/", m.value.start);
      ContainsAt(url, "/themes/" + m.value.capture + "/", m.value.start);
      Some(m.value.capture)
    else None
  }

  const ThemeAlternatives := ["themes/", "theme/"]

  /**
   * The theme name in the first HTML comment that mentions `theme/` or `themes/`: the whole
   * run of characters other than `/` and white space after the last such mention the comment
   * can end with; None when no comment has one.
   */
  function CommentThemeName(html: string): (name: Option<string>)
    ensures name.Some? ==> name.value != [] && '/' !in name.value
    ensures IsFirstCommentRef(html, ThemeAlternatives, name)
  {
    var m := Leftmost(html, ThemeComment, 0);
    FirstCommentRef(html, ThemeAlternatives);
    if m.Some? then
      CommentRefCapture(html, ThemeAlternatives, m.value.start);
      assert forall k | 0 <= k < |m.value.capture| :: m.value.capture[k] != '/';
      Some(m.value.capture)
    else None
  }

  // ---------------------------------------------------------------- the cascade, as functions

  /** The link test of method 1. */
  predicate IsThemeStylesheetHref(href: string) {
    Contains(href, "/themes/") && Contains(href, "style.css")
  }

  /** The index of the first link, from `from` on, that passes method 1's test. */
  function FirstStylesheetLink(hrefs: seq<string>, from: nat): (j: Option<nat>)
    requires from <= |hrefs|
    ensures j.Some? ==> from <= j.value < |hrefs| && IsThemeStylesheetHref(hrefs[j.value])
    ensures forall k | from <= k < |hrefs| && (j.None? || k < j.value) :: !IsThemeStylesheetHref(hrefs[k])
    decreases |hrefs| - from
  {
    if from == |hrefs| then None
    else if IsThemeStylesheetHref(hrefs[from]) then Some(from)
    else FirstStylesheetLink(hrefs, from + 1)
  }

  /** The test of methods 2 and 3: the URL mentions `/themes/` and has a `/themes/<slug>/` segment. */
  predicate IsThemeAsset(url: string) {
    Contains(url, "/themes/") && ThemeSlug(url).Some?
  }

  function FirstThemeAsset(urls: seq<string>, from: nat): (j: Option<nat>)
    requires from <= |urls|
    ensures j.Some? ==> from <= j.value < |urls| && IsThemeAsset(urls[j.value])
    ensures forall k | from <= k < |urls| && (j.None? || k < j.value) :: !IsThemeAsset(urls[k])
    decreases |urls| - from
  {
    if from == |urls| then None
    else if IsThemeAsset(urls[from]) then Some(from)
    else FirstThemeAsset(urls, from + 1)
  }

  /** `s.split(sep)[0]` for a non-empty sep: s up to the first occurrence of sep, or all of s. */
  function Before(s: string, sep: string): (r: string)
    requires sep != []
    ensures StartsWith(s, r)
    ensures r == s || StartsWith(s[|r|..], sep)
    ensures forall j | 0 <= j < |r| :: !StartsWith(s[j..], sep)
  {
    match IndexOf(s, sep, 0)
    case None => s
    case Some(q) => s[..q]
  }

  /** The stylesheet URL methods 2 and 3 build from an asset URL. */
  function DerivedStylesheetUrl(u: Url, slug: string): string {
    u.origin + Before(u.pathname, "/themes/") + "/wp-content/themes/" + slug + "/style.css"
  }

  /** The stylesheet URL methods 4 and 5 build from the site origin; a missing name prints as "undefined". */
  function SiteStylesheetUrl(origin: string, name: Option<string>): string {
    origin + "/wp-content/themes/" + (if name.Some? then name.value else "undefined") + "/style.css"
  }

  /** Where the cascade stands: the record so far and `themeStylesheetUrl`. */
  datatype Progress = Progress(info: ThemeInfo, url: Option<string>)

  /** Method 1: the URL of the first theme `style.css` link, made absolute unless it starts with "http". */
  function LinkStep(hrefs: seq<string>, env: Env): Result<Progress> {
    match FirstStylesheetLink(hrefs, 0)
    case None => Success(Progress(Unknown, None))
    case Some(j) =>
      if StartsWith(hrefs[j], "http") then Success(Progress(Unknown, Some(hrefs[j])))
      else match env.resolve(hrefs[j])
        case None => Failure(InvalidUrl)
        case Some(u) => Success(Progress(Unknown, Some(u.href)))
  }

  /** Methods 2 and 3: the first theme asset supplies the name and a derived stylesheet URL. */
  function ScanStep(p: Progress, urls: seq<string>, env: Env): Result<Progress> {
    match FirstThemeAsset(urls, 0)
    case None => Success(p)
    case Some(j) =>
      match env.resolve(urls[j])
      case None => Failure(InvalidUrl)
      case Some(u) =>
        var slug := ThemeSlug(urls[j]).value;
        Success(Progress(p.info.(name := Some(slug)), Some(DerivedStylesheetUrl(u, slug))))
  }

  /** Method 4: a theme path in an HTML comment supplies the name and a URL under the site origin. */
  function CommentStep(p: Progress, html: string, env: Env): Progress {
    match CommentThemeName(html)
    case None => p
    case Some(name) => Progress(p.info.(name := Some(name)), Some(SiteStylesheetUrl(env.baseOrigin, Some(name))))
  }

  /** `Object.values(data).find(theme => theme.status === 'active')`. */
  function FindActive(themes: seq<RestTheme>): (t: Option<RestTheme>)
    ensures t.Some? ==> exists k | 0 <= k < |themes| ::
      && themes[k] == t.value && t.value.status == Some("active")
      && forall j | 0 <= j < k :: themes[j].status != Some("active")
    ensures t.None? ==> forall k | 0 <= k < |themes| :: themes[k].status != Some("active")
  {
    if themes == [] then None
    else if themes[0].status == Some("active") then Some(themes[0])
    else
      var t := FindActive(themes[1..]);
      assert forall k | 1 <= k < |themes| :: themes[1..][k - 1] == themes[k];
      t
  }

  /** Method 5: the active theme of the REST listing supplies every field it has. */
  function RestStep(p: Progress, env: Env): Progress {
    if env.restThemes.None? then p
    else match FindActive(env.restThemes.value)
      case None => p
      case Some(t) =>
        var name := Or(t.stylesheet, t.name);
        var info := p.info.(name := name, version := t.version, author := t.author,
                            description := t.description, uri := t.themeUri);
        var info' := if Truthy(t.template) && t.template != t.stylesheet
                     then info.(isChildTheme := true, parentTheme := t.template)
                     else info;
        Progress(info', Some(SiteStylesheetUrl(env.baseOrigin, name)))
  }

  /** Methods 1 to 5 in order: 2 and 3 only while no URL is known, 4 and 5 only while no name is. */
  function CascadeSpec(page: Page, env: Env): Result<Progress> {
    var p1 :- LinkStep(page.stylesheetHrefs, env);
    var p2 :- if Truthy(p1.url) then Success(p1) else ScanStep(p1, page.stylesheetHrefs, env);
    var p3 :- if Truthy(p2.url) then Success(p2) else ScanStep(p2, page.scriptSrcs, env);
    var p4 := if Truthy(p3.info.name) then p3 else CommentStep(p3, page.html, env);
    var p5 := if Truthy(p4.info.name) then p4 else RestStep(p4, env);
    Success(p5)
  }

  // ---------------------------------------------------------------- the stylesheet header

  /** `header.match(/<key>\s*(.+)/i)[1].trim()`. */
  function HeaderField(header: string, key: string): Option<string> {
    match FirstCapture(header, Field(key))
    case None => None
    case Some(v) => Some(Trim(v))
  }

  /** A field present in the header replaces the earlier value; an absent one keeps it. */
  function Overwrite(earlier: Option<string>, found: Option<string>): Option<string> {
    if found.Some? then found else earlier
  }

  /** The header fields of a stylesheet's first block comment, applied to the record. */
  function ApplyHeader(info: ThemeInfo, header: string): ThemeInfo {
    var template := HeaderField(header, "template:");
    var fields := info.(
      name := Overwrite(info.name, HeaderField(header, "theme name:")),
      version := Overwrite(info.version, HeaderField(header, "version:")),
      author := Overwrite(info.author, HeaderField(header, "author:")),
      uri := Overwrite(info.uri, HeaderField(header, "theme uri:")),
      description := Overwrite(info.description, HeaderField(header, "description:")));
    if template.Some? then fields.(isChildTheme := true, parentTheme := template) else fields
  }

  /** What a stylesheet answered with 200 contributes: its URL, a name from the URL if none yet, its header. */
  function ReadStylesheet(info: ThemeInfo, url: string, css: string): ThemeInfo {
    var named := if Truthy(info.name) || ThemeSlug(url).None? then info else info.(name := ThemeSlug(url));
    var located := named.(stylesheetUrl := Some(url));
    match FirstCapture(css, BlockComment)
    case None => located
    case Some(header) => ApplyHeader(located, header)
  }

  /** The final step: fetch the candidate stylesheet; anything but a 200 answer changes nothing. */
  function StylesheetStep(p: Progress, env: Env): ThemeInfo {
    if !Truthy(p.url) then p.info
    else match env.fetch(p.url.value)
      case None => p.info
      case Some(resp) => if resp.status == 200 then ReadStylesheet(p.info, p.url.value, resp.body) else p.info
  }

  /** `extractThemeInfo`, as a function of the page and the outside answers. */
  function ThemeSpec(page: Page, env: Env): Result<ThemeInfo> {
    var p :- CascadeSpec(page, env);
    Success(StylesheetStep(p, env))
  }

  // ---------------------------------------------------------------- the cascade, as the source runs it

  /** Method 1's loop: the first link that passes, stopping there. */
  method FindStylesheetLink(hrefs: seq<string>) returns (j: Option<nat>)
    ensures j == FirstStylesheetLink(hrefs, 0)
  {
    j := None;
    var i := 0;
    while i < |hrefs|
      invariant i <= |hrefs|
      invariant FirstStylesheetLink(hrefs, 0) == FirstStylesheetLink(hrefs, i)
    {
      if Contains(hrefs[i], "/themes/") && Contains(hrefs[i], "style.css") {
        j := Some(i);
        break;
      }
      i := i + 1;
    }
  }

  /** The loop of methods 2 and 3: the first URL with a `/themes/<slug>/` segment, stopping there. */
  method FindThemeAsset(urls: seq<string>) returns (j: Option<nat>)
    ensures j == FirstThemeAsset(urls, 0)
  {
    j := None;
    var i := 0;
    while i < |urls|
      invariant i <= |urls|
      invariant FirstThemeAsset(urls, 0) == FirstThemeAsset(urls, i)
    {
      if Contains(urls[i], "/themes/") {
        var slug := ThemeSlug(urls[i]);
        if slug.Some? {
          j := Some(i);
          break;
        }
      }
      i := i + 1;
    }
  }

  /** Methods 2 and 3 as the source runs them: the first theme asset among `urls`. */
  method ScanAssets(p: Progress, urls: seq<string>, env: Env) returns (r: Result<Progress>)
    ensures r == ScanStep(p, urls, env)
  {
    var hit := FindThemeAsset(urls);
    if hit.None? {
      return Success(p);
    }
    var u := env.resolve(urls[hit.value]);
    if u.None? {
      return Failure(InvalidUrl);
    }
    var slug := ThemeSlug(urls[hit.value]).value;
    r := Success(Progress(p.info.(name := Some(slug)), Some(DerivedStylesheetUrl(u.value, slug))));
  }

  /** Methods 1 to 5, updating the record and the candidate URL in place. */
  method RunCascade(page: Page, env: Env) returns (r: Result<Progress>)
    ensures r == CascadeSpec(page, env)
  {
    var info := Unknown;
    var stylesheetUrl: Option<string> := None;

    // method 1: a theme style.css link
    var link := FindStylesheetLink(page.stylesheetHrefs);
    if link.Some? {
      var href := page.stylesheetHrefs[link.value];
      if StartsWith(href, "http") {
        stylesheetUrl := Some(href);
      } else {
        var u := env.resolve(href);
        if u.None? {
          return Failure(InvalidUrl);
        }
        stylesheetUrl := Some(u.value.href);
      }
    }
    assert LinkStep(page.stylesheetHrefs, env) == Success(Progress(info, stylesheetUrl));

    // method 2: any theme asset among the links
    if !Truthy(stylesheetUrl) {
      var scanned := ScanAssets(Progress(info, stylesheetUrl), page.stylesheetHrefs, env);
      if scanned.Failure? {
        return Failure(scanned.error);
      }
      info, stylesheetUrl := scanned.value.info, scanned.value.url;
    }

    // method 3: any theme asset among the scripts
    if !Truthy(stylesheetUrl) {
      var scanned := ScanAssets(Progress(info, stylesheetUrl), page.scriptSrcs, env);
      if scanned.Failure? {
        return Failure(scanned.error);
      }
      info, stylesheetUrl := scanned.value.info, scanned.value.url;
    }

    // method 4: a theme path in an HTML comment
    if !Truthy(info.name) {
      var name := CommentThemeName(page.html);
      if name.Some? {
        info := info.(name := name);
        stylesheetUrl := Some(SiteStylesheetUrl(env.baseOrigin, name));
      }
    }

    // method 5: the REST theme listing
    if !Truthy(info.name) && env.restThemes.Some? {
      var active := FindActive(env.restThemes.value);
      if active.Some? {
        var t := active.value;
        info := info.(name := Or(t.stylesheet, t.name), version := t.version, author := t.author,
                      description := t.description, uri := t.themeUri);
        if Truthy(t.template) && t.template != t.stylesheet {
          info := info.(isChildTheme := true, parentTheme := t.template);
        }
        stylesheetUrl := Some(SiteStylesheetUrl(env.baseOrigin, info.name));
      }
    }
    return Success(Progress(info, stylesheetUrl));
  }

  /** The stylesheet fetch and header parse, overwriting fields in place. */
  method ReadThemeStylesheet(p: Progress, env: Env) returns (info: ThemeInfo)
    ensures info == StylesheetStep(p, env)
  {
    info := p.info;
    if !Truthy(p.url) {
      return;
    }
    var url := p.url.value;
    var response := env.fetch(url);
    if response.None? || response.value.status != 200 {
      return;
    }
    info := info.(stylesheetUrl := Some(url));
    if !Truthy(info.name) {
      var slug := ThemeSlug(url);
      if slug.Some? {
        info := info.(name := slug);
      }
    }
    var header := FirstCapture(response.value.body, BlockComment);
    if header.Some? {
      info := ApplyHeaderFields(info, header.value);
    }
  }

  /** The header fields, each overwriting its field when present. */
  method ApplyHeaderFields(earlier: ThemeInfo, h: string) returns (info: ThemeInfo)
    ensures info == ApplyHeader(earlier, h)
  {
    info := earlier;
    var nameField := HeaderField(h, "theme name:");
    var versionField := HeaderField(h, "version:");
    var authorField := HeaderField(h, "author:");
    var uriField := HeaderField(h, "theme uri:");
    var descriptionField := HeaderField(h, "description:");
    var templateField := HeaderField(h, "template:");
    if nameField.Some? { info := info.(name := nameField); }
    assert info == earlier.(name := Overwrite(earlier.name, nameField));
    if versionField.Some? { info := info.(version := versionField); }
    assert info == earlier.(name := Overwrite(earlier.name, nameField),
                            version := Overwrite(earlier.version, versionField));
    if authorField.Some? { info := info.(author := authorField); }
    if uriField.Some? { info := info.(uri := uriField); }
    assert info == earlier.(name := Overwrite(earlier.name, nameField),
                            version := Overwrite(earlier.version, versionField),
                            author := Overwrite(earlier.author, authorField),
                            uri := Overwrite(earlier.uri, uriField));
    if descriptionField.Some? { info := info.(description := descriptionField); }
    assert info == earlier.(name := Overwrite(earlier.name, nameField),
                            version := Overwrite(earlier.version, versionField),
                            author := Overwrite(earlier.author, authorField),
                            uri := Overwrite(earlier.uri, uriField),
                            description := Overwrite(earlier.description, descriptionField));
    if templateField.Some? {
      info := info.(isChildTheme := true, parentTheme := templateField);
    }
  }

  /** `extractThemeInfo`: the cascade, then the stylesheet; a `new URL` that throws fails the whole call. */
  method ExtractThemeInfo(page: Page, env: Env) returns (r: Result<ThemeInfo>)
    ensures r == ThemeSpec(page, env)
  {
    var cascade := RunCascade(page, env);
    if cascade.Failure? {
      return Failure(cascade.error);
    }
    var info := ReadThemeStylesheet(cascade.value, env);
    return Success(info);
  }

  // ---------------------------------------------------------------- what the cascade guarantees

  /** Only the stylesheet step sets `stylesheetUrl`; the five methods never do. */
  lemma {:induction false} CascadeLeavesStylesheetUrlUnset(page: Page, env: Env)
    requires CascadeSpec(page, env).Success?
    ensures CascadeSpec(page, env).value.info.stylesheetUrl.None?
  {
  }

  /** Method 1 sets only the candidate URL, never the name or any other field. */
  lemma LinkStepSetsOnlyUrl(hrefs: seq<string>, env: Env)
    requires LinkStep(hrefs, env).Success?
    ensures LinkStep(hrefs, env).value.info == Unknown
    ensures LinkStep(hrefs, env).value.url.Some? <==> FirstStylesheetLink(hrefs, 0).Some?
  {
  }

  /**
   * When method 1 finds nothing and method 2 finds a theme asset among the links, its
   * slug names the theme and its derived URL is the candidate: method 3 is skipped
   * because a URL is known, methods 4 and 5 because a name is.
   */
  lemma AssetScanSettlesCascade(page: Page, env: Env, j: nat, u: Url)
    requires FirstStylesheetLink(page.stylesheetHrefs, 0).None?
    requires FirstThemeAsset(page.stylesheetHrefs, 0) == Some(j)
    requires env.resolve(page.stylesheetHrefs[j]) == Some(u)
    ensures var slug := ThemeSlug(page.stylesheetHrefs[j]).value;
      CascadeSpec(page, env) == Success(Progress(Unknown.(name := Some(slug)), Some(DerivedStylesheetUrl(u, slug))))
  {
    var slug := ThemeSlug(page.stylesheetHrefs[j]).value;
    var p2 := Progress(Unknown.(name := Some(slug)), Some(DerivedStylesheetUrl(u, slug)));
    assert LinkStep(page.stylesheetHrefs, env) == Success(Progress(Unknown, None));
    assert ScanStep(Progress(Unknown, None), page.stylesheetHrefs, env) == Success(p2);
    assert Truthy(p2.url) && Truthy(p2.info.name);
  }

  /**
   * Method 1 leaves the name unset, so a theme path in an HTML comment still runs
   * method 4, which replaces the URL method 1 found; method 5 is then skipped.
   */
  lemma CommentReplacesLinkUrl(page: Page, env: Env, url: string, name: string)
    requires LinkStep(page.stylesheetHrefs, env) == Success(Progress(Unknown, Some(url)))
    requires url != []
    requires CommentThemeName(page.html) == Some(name)
    ensures CascadeSpec(page, env) ==
      Success(Progress(Unknown.(name := Some(name)), Some(SiteStylesheetUrl(env.baseOrigin, Some(name)))))
  {
    var p1 := Progress(Unknown, Some(url));
    var p4 := Progress(Unknown.(name := Some(name)), Some(SiteStylesheetUrl(env.baseOrigin, Some(name))));
    assert Truthy(p1.url) && !Truthy(p1.info.name);
    assert CommentStep(p1, page.html, env) == p4;
    assert Truthy(p4.info.name);
  }

  /** Without a method 1 link, a theme asset, a theme comment or an active REST theme, nothing is found. */
  lemma NothingFoundLeavesUnknown(page: Page, env: Env)
    requires FirstStylesheetLink(page.stylesheetHrefs, 0).None?
    requires FirstThemeAsset(page.stylesheetHrefs, 0).None? && FirstThemeAsset(page.scriptSrcs, 0).None?
    requires CommentThemeName(page.html).None?
    requires env.restThemes.None? || FindActive(env.restThemes.value).None?
    ensures ThemeSpec(page, env) == Success(Unknown)
  {
  }

  /**
   * When the stylesheet is not fetched with status 200 (no candidate URL, the request
   * threw, or another status), the cascade's record is the result and `stylesheetUrl`
   * stays null.
   */
  lemma FailedFetchKeepsCascade(page: Page, env: Env)
    requires CascadeSpec(page, env).Success?
    requires var p := CascadeSpec(page, env).value;
      !Truthy(p.url) || env.fetch(p.url.value).None? || env.fetch(p.url.value).value.status != 200
    ensures ThemeSpec(page, env) == Success(CascadeSpec(page, env).value.info)
    ensures ThemeSpec(page, env).value.stylesheetUrl.None?
  {
    CascadeLeavesStylesheetUrlUnset(page, env);
  }

  /**
   * A stylesheet fetched with status 200 sets `stylesheetUrl`; each header field that is
   * present overwrites its field with its trimmed value and each absent one keeps the
   * earlier value (for the name: the earlier name, else the URL's theme segment);
   * `Template:` makes it a child theme of the named parent.
   */
  lemma StylesheetHeaderOverwrites(info: ThemeInfo, url: string, css: string, header: string)
    requires FirstCapture(css, BlockComment) == Some(header)
    ensures var r := ReadStylesheet(info, url, css);
      && r.stylesheetUrl == Some(url)
      && r.name == Overwrite(if Truthy(info.name) || ThemeSlug(url).None? then info.name else ThemeSlug(url),
                             HeaderField(header, "theme name:"))
      && r.version == Overwrite(info.version, HeaderField(header, "version:"))
      && r.author == Overwrite(info.author, HeaderField(header, "author:"))
      && r.uri == Overwrite(info.uri, HeaderField(header, "theme uri:"))
      && r.description == Overwrite(info.description, HeaderField(header, "description:"))
      && (HeaderField(header, "template:").Some? ==>
            r.isChildTheme && r.parentTheme == HeaderField(header, "template:"))
      && (HeaderField(header, "template:").None? ==>
            r.isChildTheme == info.isChildTheme && r.parentTheme == info.parentTheme)
  {
  }

  /** A stylesheet without a block comment contributes only its URL and, if needed, the URL's slug. */
  lemma StylesheetWithoutHeader(info: ThemeInfo, url: string, css: string)
    requires FirstCapture(css, BlockComment).None?
    ensures ReadStylesheet(info, url, css) ==
      (if Truthy(info.name) || ThemeSlug(url).None? then info else info.(name := ThemeSlug(url))).(stylesheetUrl := Some(url))
  {
  }

  /** Whenever the result says child theme, it also names the parent. */
  lemma {:induction false} ChildThemeHasParent(page: Page, env: Env)
    requires ThemeSpec(page, env).Success?
    ensures ThemeSpec(page, env).value.isChildTheme ==> ThemeSpec(page, env).value.parentTheme.Some?
  {
    var p1 := LinkStep(page.stylesheetHrefs, env).value;
    var p2 := if Truthy(p1.url) then p1 else ScanStep(p1, page.stylesheetHrefs, env).value;
    if !Truthy(p1.url) {
      ScanKeepsParent(p1, page.stylesheetHrefs, env);
    }
    var p3 := if Truthy(p2.url) then p2 else ScanStep(p2, page.scriptSrcs, env).value;
    if !Truthy(p2.url) {
      ScanKeepsParent(p2, page.scriptSrcs, env);
    }
    var p4 := if Truthy(p3.info.name) then p3 else CommentStep(p3, page.html, env);
    var p5 := if Truthy(p4.info.name) then p4 else RestStep(p4, env);
    assert CascadeSpec(page, env).value == p5;
    StylesheetKeepsParent(p5, env);
  }

  predicate ParentNamed(info: ThemeInfo) {
    info.isChildTheme ==> info.parentTheme.Some?
  }

  lemma ScanKeepsParent(p: Progress, urls: seq<string>, env: Env)
    requires ScanStep(p, urls, env).Success?
    ensures ParentNamed(p.info) ==> ParentNamed(ScanStep(p, urls, env).value.info)
  {
  }

  lemma StylesheetKeepsParent(p: Progress, env: Env)
    ensures ParentNamed(p.info) ==> ParentNamed(StylesheetStep(p, env))
  {
  }
}
