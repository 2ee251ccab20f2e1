/**
 * The caching decisions of the app's service worker: which requests it
 * handles, which network responses it stores, what it answers when the
 * network is unreachable, and which caches it deletes when a new version
 * activates. The Cache Storage and fetch machinery stay outside; their
 * results (a cache hit, a network response or a network failure) are
 * parameters.
 */
module ServiceWorker {
  import opened Wrappers

  const CACHE_NAME: string := "mannequins-cache-v1"
  const STATIC_CACHE: string := "static-cache-v1"
  const DYNAMIC_CACHE: string := "dynamic-cache-v1"

  const ImageExtensions: seq<string> := [".jpg", ".jpeg", ".png", ".gif", ".svg", ".webp"]
  const FontExtensions: seq<string> := [".woff", ".woff2", ".ttf", ".otf"]
  const AssetExtensions: seq<string> := [".css", ".js"]
  /** The image, font and style/script extensions, in that order. */
  const CacheableExtensions: seq<string> := ImageExtensions + FontExtensions + AssetExtensions

  // ---------------------------------------------------------------------
  // String operations
  // ---------------------------------------------------------------------

  predicate StartsWith(s: string, prefix: string) {
    |prefix| <= |s| && s[..|prefix|] == prefix
  }

  predicate EndsWith(s: string, suffix: string) {
    |suffix| <= |s| && s[|s| - |suffix|..] == suffix
  }

  /** `part` occurs in `s` starting at index `i`. */
  predicate OccursAt(s: string, part: string, i: int) {
    0 <= i <= |s| - |part| && s[i..i + |part|] == part
  }

  /** `part` occurs somewhere in `s`, found by trying each start in turn. */
  function Includes(s: string, part: string): (r: bool)
    ensures r <==> exists i :: OccursAt(s, part, i)
  {
    if StartsWith(s, part) then
      assert OccursAt(s, part, 0);
      true
    else if |s| <= |part| then
      assert forall i | OccursAt(s, part, i) :: i == 0;
      false
    else
      var r := Includes(s[1..], part);
      assert forall i | 1 <= i :: OccursAt(s, part, i) <==> OccursAt(s[1..], part, i - 1);
      assert forall i | OccursAt(s[1..], part, i) :: OccursAt(s, part, i + 1);
      r
  }

  /** Every character of an included part is a character of the whole. */
  lemma IncludesChars(s: string, part: string, c: char)
    requires Includes(s, part) && c in part
    ensures c in s
  {
    var i :| OccursAt(s, part, i);
    var k :| 0 <= k < |part| && part[k] == c;
    assert s[i + k] == s[i..i + |part|][k];
  }

  /** Lower-cases the ASCII letters; everything else is kept. */
  function LowerChar(c: char): char {
    if 'A' <= c <= 'Z' then (c as int - 'A' as int + 'a' as int) as char else c
  }

  function ToLower(s: string): (t: string)
    ensures |t| == |s|
    ensures forall i | 0 <= i < |s| :: t[i] == LowerChar(s[i])
  {
    if s == [] then [] else [LowerChar(s[0])] + ToLower(s[1..])
  }

  // ---------------------------------------------------------------------
  // Which responses are worth caching
  // ---------------------------------------------------------------------

  /** The lower-cased URL ends with one of the listed extensions. */
  predicate HasCacheableExtension(url: string) {
    exists i | 0 <= i < |CacheableExtensions| :: EndsWith(ToLower(url), CacheableExtensions[i])
  }

  /** A URL is cacheable when it ends, in any letter case, with an image,
      font, style or script extension, or when it contains one of the
      asset directories (matched exactly, in lower case). */
  function ShouldCache(url: string): (r: bool)
    ensures r <==>
      Extension(ToLower(url)) in CacheableExtensions
      || (exists i :: OccursAt(url, "/assets/", i))
      || (exists i :: OccursAt(url, "/images/", i))
      || (exists i :: OccursAt(url, "/media/", i))
  {
    CacheableByExtension(url);
    HasCacheableExtension(url)
    || Includes(url, "/assets/") || Includes(url, "/images/") || Includes(url, "/media/")
  }

  /** The index of the last dot in `s`, or -1 when there is none. */
  function LastDot(s: string): (d: int)
    ensures -1 <= d < |s|
    ensures d >= 0 ==> s[d] == '.'
    ensures forall j | d < j < |s| :: s[j] != '.'
  {
    if s == [] then -1
    else if s[|s| - 1] == '.' then |s| - 1
    else LastDot(s[..|s| - 1])
  }

  /** The extension of `s`: from its last dot to the end, or empty. */
  function Extension(s: string): string {
    var d := LastDot(s);
    if d < 0 then "" else s[d..]
  }

  /** A dot followed by dot-free text is a suffix exactly when it is the extension. */
  lemma EndsWithExtension(s: string, e: string)
    requires |e| > 0 && e[0] == '.' && forall k | 1 <= k < |e| :: e[k] != '.'
    ensures EndsWith(s, e) <==> Extension(s) == e
  {
    var d := LastDot(s);
    if EndsWith(s, e) {
      var p := |s| - |e|;
      assert s[p] == e[0];
      assert forall j | p < j < |s| :: s[j] == e[j - p];
      assert d == p;
    }
    if Extension(s) == e {
      assert d >= 0;
      assert |s| - |e| == d;
    }
  }

  /** Every listed extension is a dot followed by dot-free text. */
  lemma ExtensionsAreDotted()
    ensures forall i | 0 <= i < |CacheableExtensions| ::
      |CacheableExtensions[i]| > 0 && CacheableExtensions[i][0] == '.'
      && forall k | 1 <= k < |CacheableExtensions[i]| :: CacheableExtensions[i][k] != '.'
  {
  }

  /** The extension test is a lookup: a URL has a cacheable extension
      exactly when its lower-cased extension is one of those listed. */
  lemma CacheableByExtension(url: string)
    ensures HasCacheableExtension(url) <==> Extension(ToLower(url)) in CacheableExtensions
  {
    var lower := ToLower(url);
    ExtensionsAreDotted();
    forall i | 0 <= i < |CacheableExtensions|
      ensures EndsWith(lower, CacheableExtensions[i]) <==> Extension(lower) == CacheableExtensions[i]
    {
      EndsWithExtension(lower, CacheableExtensions[i]);
    }
  }

  /** No upper-case ASCII letter in `s`. */
  predicate NoUpper(s: string) {
    forall k | 0 <= k < |s| :: !('A' <= s[k] <= 'Z')
  }

  // The examples below take their URL as a parameter pinned by the
  // precondition rather than writing the literal into the formula: applied
  // to a literal, the recursive string functions are unfolded eagerly and
  // the proofs become far slower.

  /** The extension test ignores letter case: "/logo.PNG" is cacheable. */
  lemma UpperCaseExtensionCached(url: string)
    requires url == "/logo.PNG"
    ensures ShouldCache(url)
  {
    var lower := ToLower(url);
    assert lower[5..] == ".png";
    assert EndsWith(lower, CacheableExtensions[2]);
  }

  /** A part with a character the whole lacks is not included. */
  lemma NotIncluded(s: string, part: string, c: char)
    requires c in part && c !in s
    ensures !Includes(s, part)
  {
    if Includes(s, part) {
      IncludesChars(s, part, c);
    }
  }

  /** "/index.html", lower-cased, has the extension ".html". */
  lemma PageExtension(url: string)
    requires url == "/index.html"
    ensures Extension(ToLower(url)) == ".html"
  {
    var lower := ToLower(url);
    assert lower[6] == '.' && forall j | 6 < j < |lower| :: lower[j] != '.';
    assert lower[6..] == ".html";
  }

  /** A page is not cacheable: "/index.html" has an unlisted extension and
      lies in none of the asset directories. */
  lemma PageNotCached(url: string)
    requires url == "/index.html"
    ensures !ShouldCache(url)
  {
    PageExtension(url);
    assert ".html" !in CacheableExtensions;
    CacheableByExtension(url);
    NotIncluded(url, "/assets/", 'a');
    NotIncluded(url, "/images/", 'g');
    NotIncluded(url, "/media/", 'a');
  }

  /** The directory test is case-sensitive: "/assets/a" is cacheable,
      "/ASSETS/a" is not. */
  lemma DirectoryMatchIsCaseSensitive(url: string, upper: string)
    requires url == "/assets/a" && upper == "/ASSETS/a"
    ensures ShouldCache(url)
    ensures !ShouldCache(upper)
  {
    assert OccursAt(url, "/assets/", 0);
    UpperDirectoryNotCached(upper);
  }

  /** "/ASSETS/a", lower-cased, has no dot and so no extension. */
  lemma UpperDirectoryExtension(upper: string)
    requires upper == "/ASSETS/a"
    ensures Extension(ToLower(upper)) == ""
  {
    var lower := ToLower(upper);
    assert forall j | 0 <= j < |lower| :: lower[j] != '.';
  }

  /** "/ASSETS/a" has no extension and, compared case-sensitively, lies in
      none of the asset directories. */
  lemma UpperDirectoryNotCached(upper: string)
    requires upper == "/ASSETS/a"
    ensures !ShouldCache(upper)
  {
    UpperDirectoryExtension(upper);
    NotIncluded(upper, "/assets/", 's');
    NotIncluded(upper, "/images/", 's');
    NotIncluded(upper, "/media/", 'm');
  }

  // ---------------------------------------------------------------------
  // The fetch handler
  // ---------------------------------------------------------------------

  /** A request: its URL and its mode ("navigate" for page loads). */
  datatype Request = Request(url: string, mode: string)

  /** A response from the network: its status and its type ("basic" for same-origin). */
  datatype NetResponse = NetResponse(status: int, kind: string)

  /** The worker handles same-origin requests and requests to the font CDN;
      all others go to the network untouched. */
  function Intercepts(url: string, origin: string): (r: bool)
    ensures r <==> OccursAt(url, origin, 0) || exists i :: OccursAt(url, "fonts.cdnfonts.com", i)
  {
    StartsWith(url, origin) || Includes(url, "fonts.cdnfonts.com")
  }

  /** A network response is stored in the dynamic cache when it is a
      successful same-origin response for a cacheable URL. */
  function ShouldStore(url: string, response: NetResponse): (r: bool)
    ensures r ==> response.status == 200 && response.kind == "basic"
    ensures r ==> (Extension(ToLower(url)) in CacheableExtensions
                   || (exists i :: OccursAt(url, "/assets/", i))
                   || (exists i :: OccursAt(url, "/images/", i))
                   || (exists i :: OccursAt(url, "/media/", i)))
    ensures response == NetResponse(200, "basic") ==> (r <==> ShouldCache(url))
  {
    response.status == 200 && response.kind == "basic" && ShouldCache(url)
  }

  /** The offline image rule: the URL ends with a lower-case image extension. */
  function MatchesImagePattern(url: string): (r: bool)
    ensures r <==> Extension(url) in ImageExtensions
  {
    ImageByExtension(url);
    exists i | 0 <= i < |ImageExtensions| :: EndsWith(url, ImageExtensions[i])
  }

  /** Ending with an image extension is a lookup of the URL's extension. */
  lemma ImageByExtension(url: string)
    ensures (exists i | 0 <= i < |ImageExtensions| :: EndsWith(url, ImageExtensions[i]))
        <==> Extension(url) in ImageExtensions
  {
    ImageExtensionsListed();
    ExtensionsAreDotted();
    forall i | 0 <= i < |ImageExtensions|
      ensures EndsWith(url, ImageExtensions[i]) <==> Extension(url) == ImageExtensions[i]
    {
      EndsWithExtension(url, ImageExtensions[i]);
    }
  }

  /** What the worker answers when neither the cache nor the network can. */
  datatype OfflineReply =
    | CachedPage(path: string)
    | Placeholder(status: int, contentType: string)
    | Unavailable(status: int, statusText: string)

  /** Page loads get the cached app shell, images an empty image, anything
      else a 408. */
  function OfflineFallback(request: Request): (r: OfflineReply)
    ensures r.CachedPage? <==> request.mode == "navigate"
    ensures r.CachedPage? ==> r.path == "/index.html"
    ensures r.Placeholder? <==> request.mode != "navigate" && MatchesImagePattern(request.url)
    ensures r.Placeholder? ==> r.status == 200 && r.contentType == "image/svg+xml"
    ensures r.Unavailable? ==> r.status == 408
  {
    if request.mode == "navigate" then CachedPage("/index.html")
    else if MatchesImagePattern(request.url) then Placeholder(200, "image/svg+xml")
    else Unavailable(408, "Offline - Resource not available")
  }

  /** Lower-casing keeps a lower-case suffix. */
  lemma LowerKeepsSuffix(url: string, e: string)
    requires EndsWith(url, e) && NoUpper(e)
    ensures EndsWith(ToLower(url), e)
  {
    var lower := ToLower(url);
    var p := |url| - |e|;
    assert forall k | 0 <= k < |e| :: lower[p + k] == LowerChar(url[p + k]) == LowerChar(e[k]);
    assert lower[p..] == e;
  }

  /** The image extensions open the cacheable list and are in lower case. */
  lemma ImageExtensionsListed()
    ensures forall i | 0 <= i < |ImageExtensions| :: ImageExtensions[i] == CacheableExtensions[i] && NoUpper(ImageExtensions[i])
  {
  }

  /** Whatever gets the placeholder image would also have been cached. */
  lemma ImagePatternIsCacheable(url: string)
    requires MatchesImagePattern(url)
    ensures ShouldCache(url)
  {
    var i :| 0 <= i < |ImageExtensions| && EndsWith(url, ImageExtensions[i]);
    ImageExtensionsListed();
    LowerKeepsSuffix(url, ImageExtensions[i]);
    assert EndsWith(ToLower(url), CacheableExtensions[i]);
  }

  /** The converse fails: the image rule, unlike the cache rule, is case-sensitive. */
  lemma UpperCaseImageNotMatched(url: string)
    requires url == "/logo.PNG"
    ensures ShouldCache(url) && !MatchesImagePattern(url)
  {
    UpperCaseExtensionCached(url);
    forall i | 0 <= i < |ImageExtensions|
      ensures !EndsWith(url, ImageExtensions[i])
    {
      assert url[|url| - 1] == 'G';
    }
  }

  /** How a request ends up being answered. */
  datatype FetchResult =
    | PassedThrough
    | FromCache
    | FromNetwork(response: NetResponse, stored: bool)
    | Offline(reply: OfflineReply)

  /** Cache first, then the network (storing what is worth storing), then
      the offline fallback. `cached` is whether the cache holds the request;
      `network` is the network's response, or None when the fetch fails. */
  function HandleFetch(request: Request, origin: string, cached: bool, network: Option<NetResponse>): (r: FetchResult)
    ensures r.PassedThrough? <==> !Intercepts(request.url, origin)
    ensures r.FromCache? <==> Intercepts(request.url, origin) && cached
    ensures r.FromNetwork? <==> Intercepts(request.url, origin) && !cached && network.Some?
    ensures r.FromNetwork? ==> r.response == network.value && (r.stored <==> ShouldStore(request.url, network.value))
    ensures r.Offline? ==> r.reply == OfflineFallback(request)
  {
    if !Intercepts(request.url, origin) then PassedThrough
    else if cached then FromCache
    else match network
      case Some(response) => FromNetwork(response, ShouldStore(request.url, response))
      case None => Offline(OfflineFallback(request))
  }

  // ---------------------------------------------------------------------
  // Activation
  // ---------------------------------------------------------------------

  const CurrentCaches: seq<string> := [STATIC_CACHE, DYNAMIC_CACHE]

  /** The caches deleted on activation: those not current, in the order listed. */
  function CachesToDelete(names: seq<string>): (deleted: seq<string>)
    ensures |deleted| <= |names|
    ensures forall x :: x in deleted <==> x in names && x !in CurrentCaches
  {
    if names == [] then []
    else
      var rest := CachesToDelete(names[1..]);
      assert forall x :: x in names <==> x == names[0] || x in names[1..];
      if names[0] in CurrentCaches then rest else [names[0]] + rest
  }

  /** Activation removes the cache of the first release and keeps the current ones. */
  lemma OldCacheDeleted(names: seq<string>)
    ensures CACHE_NAME in names ==> CACHE_NAME in CachesToDelete(names)
    ensures STATIC_CACHE !in CachesToDelete(names) && DYNAMIC_CACHE !in CachesToDelete(names)
  {
  }
}
