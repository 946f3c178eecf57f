# WordPress inspector: a verified model

The inspector fetches a web page and decides whether it is a WordPress site. It then
works out the active theme and the installed plugins, and scores how custom-built
the site looks. An API key check and a per-IP rate limiter guard the HTTP endpoint.
This project models that logic in Dafny and proves what it promises.

Modules, one concern each:

- `Wrappers`: `Option` and `Result`.
- `JsText`: the JavaScript string built-ins the detector uses:
  - `includes`, `startsWith` and `trim`, with the full ECMAScript white-space set;
  - `toLowerCase`;
  - `split(',')[0]`;
  - truthiness and `||` on values that are either strings or null.
- `Patterns`: every regular expression of the detector, written as an explicit
  leftmost-match engine. This includes the greedy `[^>]*` backtracking, the lazy
  block comment and the `g` flag.
- `Dom`: the page as the detector sees it. Each DOM query is a sequence extracted
  in document order, and the raw HTML text is kept alongside.
- `Signals`: `detectWordPress`.
- `Theme`: `extractThemeInfo` of api/inspect.js. It is the five-method cascade, then
  the stylesheet header.
- `Plugins`: `detectPlugins` of api/inspect.js. Its three passes feed an
  insertion-ordered map. Each pass is a sequence of hits, and the map after a pass
  is a fold over those hits.
- `Scoring`: `analyzeCustomization`. It is the same function in both source files.
- `Legacy`: the earlier inspect.js versions of `extractThemeInfo` and
  `detectPlugins`.
- `Auth`: api/_auth.js. The `requestCounts` table is the `counts` field of the
  `RateLimiter` class.

Code that updates state step by step is kept imperative:

- the link and script loops with `break`;
- the field-by-field `themeInfo` updates;
- the three plugin passes;
- the score accumulator;
- the eviction loop and the rate-limit update.

Each such method is proved equal to a specification function, and the properties
are lemmas about those functions.

Everything outside the page is a parameter:

- the `/wp-json/` status;
- URL resolution (`new URL`), as a function that returns None when it throws;
- the REST theme listing;
- the stylesheet fetch;
- the plugin registry replies;
- the two clock readings (`cleanNow` for `cleanOldEntries`, `now` for `checkRateLimit`);
- `API_SECRET_KEY`.

## Model

| member | source | states |
|---|---|---|
| Signals.DetectWordPress | api/inspect.js:12-40 | isWordPress holds exactly when the HTML has `/wp-content/` or `/wp-includes/`, the generator tag contains "WordPress", or `/wp-json/` answered 200; xmlrpc is always false; wpJson holds exactly for status 200; inspect.js:12-40 is the same function |
| Signals.SomeTrue | api/inspect.js:37 | `some(signal => signal === true)` is true exactly when some value is exactly true |
| Signals.MissingGeneratorIsNoEvidence | api/inspect.js:19 | a missing generator tag (undefined) gives the same verdict as one that does not name WordPress |
| Patterns.Leftmost | api/inspect.js:222 | a non-global `match` finds the match at the least position, and none before it |
| Patterns.MatchAll | api/inspect.js:242 | a global `match` returns non-overlapping matches in order, each search resuming where the previous match ended; no match starts before the first, between two of them, or after the last |
| Patterns.SegmentCapture | api/inspect.js:73 | a `/themes/([^\/]+)\/` capture is non-empty and slash-free, and the subject holds marker + capture + "/" |
| Patterns.SegmentMatch | api/inspect.js:73 | `marker([^\/]+)\/` matches at a position, capturing c, exactly when the marker, a non-empty slash-free c and `/` sit there |
| Patterns.FirstSegment | api/inspect.js:222 | a non-global segment match captures the segment at the least position that has one, and nothing when no position has one |
| Patterns.CommentRefCapture | api/inspect.js:109 | the capture of a comment match is the whole non-empty run of characters other than `/` and white space after an alternative; the alternative sits inside the comment (no `>` before it), at the last place in the comment where one fits |
| Patterns.CommentRefMatches | api/inspect.js:109 | the comment pattern matches at a position exactly when an `<!--` there is followed, before any `>`, by an alternative (any letter case) and a character other than `/` and white space |
| Patterns.FirstCommentRef | api/inspect.js:109 | a non-global comment match takes its capture from the first comment that holds a reference, and nothing when no comment does |
| Patterns.WordCapture | api/inspect.js:245 | `plugins\/([^\/\s]+)` matches at a position exactly when `plugins/` there is followed by a character other than `/` and white space; it captures the whole run of such characters, which ends at `/`, white space or the end |
| Patterns.FirstWord | api/inspect.js:245 | a non-global word match captures that run after the leftmost marker that has one, and nothing when no marker has one |
| Patterns.BlockCommentCapture | api/inspect.js:174 | `\/\*\s*([\s\S]*?)\*\/` matches at a position exactly when `/*` sits there and a `*/` starts somewhere after it; the match ends at the first such `*/`, and the capture is everything between the leading white space after `/*` and that `*/` |
| Patterns.FieldBacktrackCapture | api/inspect.js:180-185 | giving back the white space after a key finds nothing exactly when every place from the key's end to the end of that white space is the end of the text or a line terminator; otherwise the capture starts at the last place that is neither, is non-empty and runs to the next line terminator or the end |
| Patterns.FieldCapture | api/inspect.js:180-185 | when `key\s*(.+)` (any letter case) matches at a position, the key sits there, only white space precedes the capture, the capture holds no line terminator and ends at one or at the end, and it starts at the last place within the key's trailing white space (or just after it) that is not a line terminator |
| Patterns.FieldMatches | api/inspect.js:180-185 | conversely, a key followed by white space and then a character that is not a line terminator is always matched |
| JsText.FirstCommaField | api/_auth.js:68 | `split(',')[0]` is the longest comma-free prefix |
| JsText.Trim | api/inspect.js:187-195 | the trimmed value is an infix of the capture with only ECMAScript white space outside it, and it neither starts nor ends with white space |
| Theme.ThemeSlug | api/inspect.js:73 | the slug of the leftmost `/themes/<slug>/` segment whose slug is non-empty and slash-free; None exactly when the URL has no such segment |
| Theme.CommentThemeName | api/inspect.js:109-111 | the name comes from the first HTML comment that mentions `themes/` or `theme/` followed by a character other than `/` and white space; it is the whole run after the last such mention in that comment; None exactly when no comment has one |
| Theme.FirstStylesheetLink | api/inspect.js:60-66 | method 1 picks the first link whose href has `/themes/` and `style.css`; no earlier link passes |
| Theme.FirstThemeAsset | api/inspect.js:70-84 | methods 2 and 3 pick the first URL with a `/themes/<slug>/` segment; no earlier URL has one |
| Theme.FindStylesheetLink | api/inspect.js:60-66 | the method 1 loop, stopping at its first match, is the specification's choice |
| Theme.FindThemeAsset | api/inspect.js:90-103 | the method 2/3 loop, stopping at its first match, is the specification's choice |
| Theme.FindActive | api/inspect.js:129 | `.find` returns the first active entry of the list, with none active before it; None exactly when no entry is active |
| Theme.Before | api/inspect.js:78 | `split('/themes/')[0]` is the prefix up to the first occurrence of the separator, or the whole string when it has none |
| Theme.RunCascade | api/inspect.js:56-150 | the five methods run as the cascade specifies: 2 and 3 only while no URL is known, 4 and 5 only while no name is |
| Theme.ReadThemeStylesheet | api/inspect.js:152-203 | the fetch and header parse, updating fields in place, equal the stylesheet step |
| Theme.ApplyHeaderFields | api/inspect.js:180-196 | the six header fields applied one by one equal the header specification |
| Theme.ExtractThemeInfo | api/inspect.js:43-206 | `extractThemeInfo` equals the cascade followed by the stylesheet step; an invalid URL fails the call |
| Theme.CascadeLeavesStylesheetUrlUnset | api/inspect.js:162 | only a stylesheet fetched with 200 sets `stylesheetUrl`; the five methods never do |
| Theme.LinkStepSetsOnlyUrl | api/inspect.js:60-66 | method 1 sets only the candidate URL, never the name, and finds one exactly when a link passes |
| Theme.AssetScanSettlesCascade | api/inspect.js:69-118 | a method 2 hit names the theme and derives the URL, so methods 3, 4 and 5 are skipped |
| Theme.CommentReplacesLinkUrl | api/inspect.js:106-118 | because method 1 leaves the name unset, method 4 still runs and replaces method 1's URL |
| Theme.NothingFoundLeavesUnknown | api/inspect.js:45-54 | when no method finds anything, the result is the all-null record and not a child theme |
| Theme.FailedFetchKeepsCascade | api/inspect.js:153-203 | a missing URL, a thrown request or a non-200 status leaves the cascade's record, with `stylesheetUrl` null |
| Theme.StylesheetHeaderOverwrites | api/inspect.js:161-196 | a 200 answer sets `stylesheetUrl`, fills an unset name from the URL, overwrites each present header field with its trimmed value, and `Template:` makes it a child theme of that parent |
| Theme.StylesheetWithoutHeader | api/inspect.js:173-176 | a stylesheet without a block comment contributes only its URL and, if the name is unset, the URL's slug |
| Theme.ChildThemeHasParent | api/inspect.js:137-140 | whenever the result is a child theme, it names the parent |
| Plugins.HumanizeShape | api/inspect.js:229 | the display name has the slug's length; each hyphen becomes a space, each word-initial `\w` is upper-cased, every other character is kept |
| Plugins.HumanizeIdempotent | api/inspect.js:229 | humanizing a display name again changes nothing |
| Plugins.AssetSlug | api/inspect.js:222-224 | the slug of the leftmost `/wp-content/plugins/<slug>/` segment; it is non-empty and slash-free; None exactly when the asset has no such segment |
| Plugins.CommentSlug | api/inspect.js:245-247 | the whole run of characters other than `/` and white space after the leftmost `plugins/` that is followed by one; None exactly when there is none |
| Plugins.FirstIndex | api/inspect.js:226 | the first position of a slug among the hits |
| Plugins.DedupFirstSeenOrder | api/inspect.js:226 | keeping first occurrences preserves the order in which slugs were first seen |
| Plugins.DedupDistinct | api/inspect.js:226 | the kept keys are pairwise distinct |
| Plugins.DedupPrefix | api/inspect.js:248 | a later pass can only add keys after the existing ones |
| Plugins.CatalogueKeys | api/inspect.js:226-234 | the map's keys, in insertion order, are the hits' slugs without repeats, first seen first |
| Plugins.ApplyValid | api/inspect.js:226-236 | the fold keeps every key distinct, and keeps every record well-formed with non-empty evidence and null info |
| Plugins.ApplyKeys | api/inspect.js:226 | the map holds exactly its earlier keys and the slugs of the hits |
| Plugins.InsertOnlyKeepsRecords | api/inspect.js:244-290 | the comment and attribute passes never change a record that is already present |
| Plugins.InsertOnlyCreates | api/inspect.js:249-255 | a slug first found by an inserting pass gets exactly that pass's tag |
| Plugins.AppendOnlyFiles | api/inspect.js:219-238 | after the asset pass, each slug lists the URLs of all its hits, in order |
| Plugins.AssetPass | api/inspect.js:219-238 | the asset loop (insert when absent, then push) equals the fold of the asset hits |
| Plugins.CommentPass | api/inspect.js:244-258 | the comment loop equals the fold of the comment hits |
| Plugins.AttributePass | api/inspect.js:261-290 | the element and pattern loops equal the fold of the attribute hits |
| Plugins.ElementPass | api/inspect.js:262-289 | the pattern loop over one selected element equals the fold of that element's hits; an unselected element changes nothing |
| Plugins.EnrichAll | api/inspect.js:295-321 | each registry reply fills only its own record's `info` |
| Plugins.DetectPlugins | api/inspect.js:209-324 | `detectPlugins` equals the three folds in order, then enrichment |
| Plugins.AssetHitsShape | api/inspect.js:219-237 | the asset pass only appends, and each URL it appends is one of the page's assets holding its slug's directory |
| Plugins.CommentHitsShape | api/inspect.js:244-258 | the comment pass only inserts, with the tag "HTML comment" |
| Plugins.AttributeHitsShape | api/inspect.js:261-290 | the attribute pass only inserts, with the tag "HTML attributes", and only its six fixed slugs |
| Plugins.PageHitsAreSlugs | api/inspect.js:219-290 | every slug of the three passes is non-empty and slash-free |
| Plugins.PluginSlugsFirstSeen | api/inspect.js:211-293 | the list has one record per distinct slug found, pairwise distinct, in first-insertion order across the passes |
| Plugins.PluginRecordsWellFormed | api/inspect.js:222-316 | each record has a non-empty slash-free slug, the humanized name of the same length, the `wordpress.org/plugins/` URL, non-empty evidence, and `info` only from a 200 reply with data and no `error` |
| Plugins.AssetFilterIsMatching | api/inspect.js:219-237 | the files filed under a slug are exactly the assets whose plugin-directory match names it, in document order |
| Plugins.FilterNonEmpty | api/inspect.js:236 | a slug has asset evidence exactly when some asset matched it |
| Plugins.MatchingAssetsContainSlug | api/inspect.js:220-236 | each such asset is on the page and holds `/wp-content/plugins/` + slug + `/`, and every asset matching the slug is among them |
| Plugins.CommentHitsSlugs | api/inspect.js:242-247 | a slug is found by the comment pass exactly when some comment names it |
| Plugins.EvidenceOfPasses | api/inspect.js:219-290 | after the three passes, a slug's evidence is set by the first pass that found it |
| Plugins.PluginEvidence | api/inspect.js:219-290 | evidence is the matching assets when there are any; else `['HTML comment']` when a comment names the slug; else `['HTML attributes']` |
| Plugins.AssetEvidenceNamesSlug | api/inspect.js:220-236 | every asset filed under a slug holds that slug's plugin directory |
| Scoring.Clamp | api/inspect.js:371 | `Math.max(0, Math.min(100, x))` lies in [0, 100] and is x inside that range |
| Scoring.MentionsCommonTheme | api/inspect.js:343-349 | the common-theme test holds exactly when the lower-cased name contains one of the ten names |
| Scoring.HasPageBuilder | api/inspect.js:358-361 | the page-builder test holds exactly when some slug contains one of the four builder names |
| Scoring.AnalyzeCustomization | api/inspect.js:327-374 | the indicators are those of the fired rules, in rule order; isCustom holds exactly when raw > 20; confidence is clamp(raw + 50); inspect.js:185-232 is the same accumulator |
| Scoring.ConfidenceRange | api/inspect.js:370-371 | raw lies in [-35, 70], so confidence lies in [15, 100] |
| Scoring.CustomIffConfident | api/inspect.js:370-371 | isCustom holds exactly when the reported confidence exceeds 70; likewise in inspect.js:228-229 |
| Scoring.CustomDecisionTable | api/inspect.js:335-370 | custom exactly for a child theme that is off the repository or not common, or for an off-repository theme that is neither common nor built with a page builder |
| Scoring.IndicatorsPerRule | api/inspect.js:335-368 | each rule adds at most one indicator, at most four in all, and each indicator appears exactly when its rule fires; likewise in inspect.js:193-226 |
| Scoring.CommonThemeIsNamed | api/inspect.js:346-352 | the popular-theme rule fires only for a named theme, so its indicator shows the name |
| Scoring.UncommonChildIsCustom | api/inspect.js:340-370 | a child theme that is not a common theme is always custom, with confidence at least 75 |
| Scoring.NoEvidenceIsNeutral | api/inspect.js:328-371 | when no rule fires, the result is not custom, confidence 50, with no indicators |
| Legacy.ExtractThemeInfo | inspect.js:43-116 | the earlier `extractThemeInfo` (link loop, then fetch and header) equals its specification |
| Legacy.LegacyNoLinkIsUnknown | inspect.js:45-69 | without a theme `style.css` link, the result is the all-null record, not a child theme |
| Legacy.LegacyStylesheetFields | inspect.js:69-112 | a response that is not 2xx leaves the record all null. A 2xx response sets `stylesheetUrl`, takes the name from Theme Name, else from the URL, and leaves absent fields null. The site is a child theme exactly when `Template:` is present, naming the parent |
| Legacy.LegacyReadMatchesApi | inspect.js:74-108 | on a 200 answer, the earlier reader started empty agrees with the api version's reader |
| Legacy.LegacyReadsAny2xx | inspect.js:70-76 | inspect.js reads any 2xx stylesheet answer (the HTTP client's default status check), where api/inspect.js reads only 200: a 204 still records the stylesheet URL |
| Legacy.DetectPlugins | inspect.js:119-182 | the earlier `detectPlugins` is the asset pass followed by enrichment |
| Legacy.AssetCatalogue | inspect.js:129-148 | after the asset pass, each slug is well formed and lists exactly its matching assets, each holding its directory |
| Legacy.LegacyPluginFiles | inspect.js:124-181 | each record lists every matching asset (scripts before stylesheets), never none, each holding `/wp-content/plugins/` + slug + `/`; slugs are distinct |
| Legacy.CataloguePrefix | inspect.js:129-148 | inserting-only hits after a batch keep that batch's keys in front and its records unchanged |
| Legacy.LegacyListIsApiPrefix | inspect.js:119-182 | the earlier list is a prefix of the api version's list and differs from it only in `info` |
| Legacy.RegistryAcceptanceDiffers | inspect.js:162 | inspect.js keeps registry data even when it carries `error`; the two versions' checks differ exactly on a 200 reply whose data carries `error` |
| Auth.CeilDiv | api/_auth.js:41-42 | `Math.ceil(a / b)` is the least q with a <= q * b |
| Auth.Fresh | api/_auth.js:13-20 | the table after cleaning holds exactly the entries whose window opened at most an hour ago, unchanged |
| Auth.ClientIp | api/_auth.js:68-70 | the client IP is never empty; when `x-forwarded-for` has a non-empty first field, it is that comma-free first field; otherwise it is `x-real-ip` when that is a non-empty string, and "unknown" when it is not |
| Auth.Validation.Status | api/_auth.js:59-111 | 401 and 429 are the refusals the source returns; its accepted results carry no status, which the model encodes as 200, so the status is 200 exactly for an accepted request |
| Auth.RateLimiter.CleanOldEntries | api/_auth.js:13-20 | the deletion loop leaves exactly the table `Fresh` specifies |
| Auth.RateLimiter.CheckRateLimit | api/_auth.js:22-52 | the table becomes the cleaned table with the IP's entry bumped; the report describes that entry |
| Auth.RateLimiter.ValidateRequest | api/_auth.js:54-112 | the verdict and the table it leaves are those of `Validate` |
| Auth.StepTouchesOnlyOwnEntry | api/_auth.js:13-39 | a request writes only its own IP's entry; every other entry survives exactly when it is not stale |
| Auth.EvictionAgreesWithReset | api/_auth.js:16-37 | with one clock reading, the reset branch never fires: the count becomes 1 in a new window exactly when the IP had no live entry, otherwise it goes up by one |
| Auth.TwoReadingsSameEntry | api/_auth.js:13-37 | the IP's own entry after a request is the same whatever `cleanOldEntries` read from the clock, provided it read no later than `checkRateLimit` |
| Auth.ClockBackDiffers | api/_auth.js:13-37 | if the clock went back between the two readings, an entry the cleanup removed would restart at 1 where the same request with one reading counts it up |
| Auth.FirstRequestCountsOne | api/_auth.js:23-37 | the first request of an IP without a live entry at `now` counts 1, whichever reading the cleanup used; it is allowed, leaves 9, and resets in 3600 s / 60 min |
| Auth.ReportCountsAgainstLimit | api/_auth.js:45-50 | allowed holds exactly up to 10; remaining is never negative and equals 10 minus the count while allowed, else 0 |
| Auth.ResetWithinOneHour | api/_auth.js:41-42 | if the stored window did not open after `now`, resetInSeconds lies in [0, 3600] and resetInMinutes in [0, 60], the seconds rounded up to minutes |
| Auth.StepKeepsWindowsInThePast | api/_auth.js:26-39 | with a clock that never goes back, no entry's window opens in the future |
| Auth.WindowCounts | api/_auth.js:13-39 | requests from an IP without a live entry, each with its own pair of clock readings (cleanup no later than count) and all counted within an hour of the first, count 1, 2, 3, ... in the window the first one opened, rejected ones included |
| Auth.TenPerWindow | api/_auth.js:13-45 | for such requests, each with its own pair of readings, the report of the n-th shows count n and allows it exactly when n <= 10 |
| Auth.UnauthorizedLeavesTable | api/_auth.js:59-65 | a missing or empty secret, or a key that differs from it, gives 401 with no rate-limit record, and leaves the table unchanged |
| Auth.OnlyFrontendIsLimited | api/_auth.js:73-111 | callers whose referer/origin does not name `vercel.app` or `localhost` get the fixed 999999 record, and the table is untouched |
| Auth.FrontendIsCounted | api/_auth.js:78-95 | a frontend request is counted even when refused; it gets 429 exactly when the IP's count passes 10 |

## Left out

- The HTTP handlers are not modelled: CORS headers, OPTIONS, response shaping and error-code mapping (api/inspect.js:377-473, inspect.js:235-331). api/debug.js is not part of this model.
- Network calls are outcomes supplied as parameters: the `/wp-json/` probe, the REST theme list, the stylesheet fetch and the registry lookups. Timeouts, redirects and headers are not modelled. The registry lookups run concurrently under `Promise.allSettled`; the model applies them in list order. Each lookup writes only its own record, so the order is irrelevant.
- HTML parsing is not modelled: the page arrives as extracted sequences. For the stylesheet links, an `href` that is absent is given as the empty string. The model does not check that these sequences match the HTML text.
- `new URL` parsing and relative resolution are a supplied function. It returns None where the constructor throws.
- The REST theme entries are read as strings. The `author.name` / `description.raw` fallbacks and non-string values are resolved before they reach the model.
- Theme.ReadStylesheet and Legacy.LegacyRead assume the stylesheet body is a string. A non-string `data` would throw at `match`. In the api version, `stylesheetUrl` would already be set by then.
- JsText.ToLower and the `i` flag fold ASCII letters only. Full Unicode case mapping is not modelled.
- Strings are sequences of Unicode scalar values. A character outside the Basic Multilingual Plane is one character here and two UTF-16 code units in JavaScript, and a lone surrogate cannot be represented.
- Date.now, process.env and console.error are parameters or dropped.
- The rate-limit table is one process's memory. Sharing or persisting it across serverless instances is not modelled.
