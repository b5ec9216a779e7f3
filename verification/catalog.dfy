/** The Spark Store catalog client of src/api.rs: the application record, the
    choice of the architecture directory, category validation, the listing URL,
    a single fetch classified into exactly one outcome, and the local search
    that filters the whole catalog.

    The network is a parameter: `Network.clientError` says whether building the
    HTTP client fails, and `Network.server` is the reply the one request for a
    URL gets (a transport failure, or a status with a body that either decodes
    into a list of applications or does not). */
module Catalog {
  import opened Wrappers
  import opened Text

  /** One application of a listing. `name` and `desc` are always present; the
      six other fields may be absent, which is not the same as empty. */
  datatype AppInfo = AppInfo(
    name: string,
    desc: string,
    tagname: Option<string>,
    contributor: Option<string>,
    author: Option<string>,
    more: Option<string>,
    pkg: Option<string>,
    ver: Option<string>)

  /** The instruction set the client was built for; `OtherArch` stands for
      every target other than the three the client recognises. */
  datatype Arch = X86_64 | Aarch64 | LoongArch64 | OtherArch

  /** The one catalog endpoint the client talks to. */
  const BaseUrl: string := "https://mirrors.sdu.edu.cn/spark-store-repository/"

  /** The per-architecture directories the endpoint serves. */
  const ArchDirs: set<string> := {"amd64-store", "arm64-store", "loong64-store"}

  /** The listing file every category directory holds. */
  const AppListFile: string := "/applist.json"

  /** The directory for an architecture; anything unrecognised is served the
      x86-64 catalog. */
  function ArchDir(arch: Arch): (dir: string)
    ensures dir in ArchDirs
    ensures dir == "arm64-store" <==> arch == Aarch64
    ensures dir == "loong64-store" <==> arch == LoongArch64
    ensures dir == "amd64-store" <==> (arch == X86_64 || arch.OtherArch?)
  {
    match arch
    case X86_64 => "amd64-store"
    case Aarch64 => "arm64-store"
    case LoongArch64 => "loong64-store"
    case OtherArch => "amd64-store"
  }

  /** A configured client: the endpoint and the architecture directory, both
      fixed at construction. */
  datatype Api = Api(baseUrl: string, archDir: string)

  /** Builds the client for an architecture. */
  function New(arch: Arch): (api: Api)
    ensures api.baseUrl == BaseUrl
    ensures api.archDir in ArchDirs
    ensures api.archDir == ArchDir(arch)
  {
    Api(BaseUrl, ArchDir(arch))
  }

  /** A category may be put into a URL path only if it can neither climb out
      of its directory nor name a sub-directory. */
  predicate IsValidCategory(category: string)
  {
    !Contains(category, "..") && '/' !in category && '\\' !in category
  }

  /** Validation, position by position: no character is '/' or '\', and no
      two neighbouring characters are both '.'. */
  lemma IsValidCategoryIff(category: string)
    ensures IsValidCategory(category) <==>
              forall i :: 0 <= i < |category| ==>
                && category[i] != '/' && category[i] != '\\'
                && (i + 1 < |category| ==> !(category[i] == '.' && category[i + 1] == '.'))
  {
    ContainsIffOccurs(category, "..");
    forall i | 0 <= i && i + 1 < |category|
      ensures OccursAt(category, "..", i) <==> (category[i] == '.' && category[i + 1] == '.')
    {
      assert category[i..i + 2] == [category[i], category[i + 1]];
    }
    if Contains(category, "..") {
      var i :| OccursAt(category, "..", i);
      assert category[i] == '.' && category[i + 1] == '.';
    }
  }

  /** A category with no '.', '/' or '\' character passes validation. */
  lemma PlainCategoryIsValid(category: string)
    requires '.' !in category && '/' !in category && '\\' !in category
    ensures IsValidCategory(category)
  {
    NotContainsMissingChar(category, "..", 0);
  }

  /** The text every listing URL of `api` starts with. */
  function UrlPrefix(api: Api): string
  {
    api.baseUrl + api.archDir + "/"
  }

  /** The URL of the listing of `category`. */
  function AppListUrl(api: Api, category: string): (url: string)
    ensures StartsWith(url, api.baseUrl)
    ensures StartsWith(url, UrlPrefix(api))
    ensures EndsWith(url, AppListFile)
    ensures |url| == |UrlPrefix(api)| + |category| + |AppListFile|
  {
    var url := UrlPrefix(api) + category + AppListFile;
    assert url[..|api.baseUrl|] == api.baseUrl;
    assert url[..|UrlPrefix(api)|] == UrlPrefix(api);
    assert url[|url| - |AppListFile|..] == AppListFile;
    url
  }

  /** The category a listing URL of `api` names, if it is one. */
  function CategoryOfUrl(api: Api, url: string): (category: Option<string>)
    ensures category.Some? ==> StartsWith(url, UrlPrefix(api)) && EndsWith(url, AppListFile)
  {
    var prefix := UrlPrefix(api);
    if |prefix| + |AppListFile| <= |url| && StartsWith(url, prefix) && EndsWith(url, AppListFile)
    then Some(url[|prefix|..|url| - |AppListFile|])
    else None
  }

  /** The category can be read back out of its URL, so the URL is built from
      exactly `base_url`, the architecture directory, the category and the
      listing file, in that order. */
  lemma UrlRoundTrip(api: Api, category: string)
    ensures CategoryOfUrl(api, AppListUrl(api, category)) == Some(category)
  {
    var url := AppListUrl(api, category);
    var prefix := UrlPrefix(api);
    assert url == prefix + category + AppListFile;
    assert url[|prefix|..|url| - |AppListFile|] == category;
  }

  /** Different categories are fetched from different URLs. */
  lemma UrlInjective(api: Api, c1: string, c2: string)
    requires AppListUrl(api, c1) == AppListUrl(api, c2)
    ensures c1 == c2
  {
    UrlRoundTrip(api, c1);
    UrlRoundTrip(api, c2);
  }

  /** An HTTP status code as the client library represents one. */
  type StatusCode = c: int | 100 <= c <= 999 witness 200

  /** Statuses in the 2xx range are successes. */
  predicate IsSuccess(status: StatusCode)
  {
    200 <= status <= 299
  }

  /** What the client library reports when a request fails before a status
      arrives: whether it timed out, whether connecting failed, and its text. */
  datatype TransportError = TransportError(isTimeout: bool, isConnect: bool, text: string)

  /** A response body: it either decodes as a list of applications or not. */
  datatype Body = Decoded(apps: seq<AppInfo>) | Malformed(cause: string)

  /** What the one request for a URL gets back. */
  datatype Reply =
    | SendFailed(err: TransportError)
    | Response(status: StatusCode, reason: Option<string>, body: Body)

  /** The environment of a fetch: whether the HTTP client can be built, and the
      reply the server gives to a request for each URL. */
  datatype Network = Network(clientError: Option<string>, server: string -> Reply)

  /** Why a fetch failed. */
  datatype FetchError =
    | InvalidCategory
    | ClientBuildFailed(cause: string)
    | Transport(err: TransportError, url: string)
    | BadStatus(status: StatusCode, reason: Option<string>, url: string)
    | Undecodable(url: string, cause: string)

  /** The outcome of a fetch together with the URLs it requested, in order. */
  datatype Fetched = Fetched(result: Result<seq<AppInfo>, FetchError>, requests: seq<string>)

  /** A reply that the fetch turns into a list of applications. */
  predicate Delivers(reply: Reply)
  {
    reply.Response? && IsSuccess(reply.status) && reply.body.Decoded?
  }

  /** Fetches the listing of one category: validate, build the URL, build the
      client, send one request, check the status, decode. The first step that
      fails ends the fetch; there is no second request. */
  function FetchAppList(api: Api, category: string, net: Network): (r: Fetched)
    ensures |r.requests| <= 1
    ensures !IsValidCategory(category) ==> r == Fetched(Failure(InvalidCategory), [])
    ensures IsValidCategory(category) && net.clientError.Some? ==>
              r == Fetched(Failure(ClientBuildFailed(net.clientError.value)), [])
    ensures IsValidCategory(category) && net.clientError.None? ==>
              r.requests == [AppListUrl(api, category)]
    ensures r.result.Success? <==>
              IsValidCategory(category) && net.clientError.None? && Delivers(net.server(AppListUrl(api, category)))
    ensures r.result.Success? ==> r.result.value == net.server(AppListUrl(api, category)).body.apps
    ensures r.result.Failure? && r.result.error.Transport? ==>
              r.result.error.url == AppListUrl(api, category)
              && net.server(r.result.error.url) == SendFailed(r.result.error.err)
    ensures r.result.Failure? && r.result.error.BadStatus? ==>
              r.result.error.url == AppListUrl(api, category)
              && !IsSuccess(r.result.error.status)
              && net.server(r.result.error.url).Response?
              && net.server(r.result.error.url).status == r.result.error.status
    ensures r.result.Failure? && r.result.error.Undecodable? ==>
              r.result.error.url == AppListUrl(api, category)
              && net.server(r.result.error.url).Response?
              && IsSuccess(net.server(r.result.error.url).status)
              && net.server(r.result.error.url).body == Malformed(r.result.error.cause)
    ensures IsValidCategory(category) ==> r.result != Failure(InvalidCategory)
    ensures IsValidCategory(category) && net.clientError.None? ==>
              var url := AppListUrl(api, category);
              && (net.server(url).SendFailed? ==>
                    r.result == Failure(Transport(net.server(url).err, url)))
              && (net.server(url).Response? && !IsSuccess(net.server(url).status) ==>
                    r.result == Failure(BadStatus(net.server(url).status, net.server(url).reason, url)))
              && (net.server(url).Response? && IsSuccess(net.server(url).status)
                  && net.server(url).body.Malformed? ==>
                    r.result == Failure(Undecodable(url, net.server(url).body.cause)))
  {
    if !IsValidCategory(category) then
      Fetched(Failure(InvalidCategory), [])
    else
      var url := AppListUrl(api, category);
      match net.clientError
      case Some(cause) => Fetched(Failure(ClientBuildFailed(cause)), [])
      case None =>
        var result :=
          match net.server(url)
          case SendFailed(err) => Failure(Transport(err, url))
          case Response(status, reason, body) =>
            if !IsSuccess(status) then Failure(BadStatus(status, reason, url))
            else match body
              case Decoded(apps) => Success(apps)
              case Malformed(cause) => Failure(Undecodable(url, cause));
        Fetched(result, [url])
  }

  /** Fetching the same category twice against the same network gives the
      same outcome and the same requests. */
  lemma FetchDeterministic(api: Api, category: string, net1: Network, net2: Network)
    requires net1.clientError == net2.clientError
    requires net1.server(AppListUrl(api, category)) == net2.server(AppListUrl(api, category))
    ensures FetchAppList(api, category, net1) == FetchAppList(api, category, net2)
  {
  }

  /** The decimal digit character for `d`. */
  function DigitChar(d: int): (c: char)
    requires 0 <= d <= 9
    ensures '0' <= c <= '9' && c as int - '0' as int == d
  {
    ('0' as int + d) as char
  }

  /** A status code written in decimal. */
  function StatusDigits(status: StatusCode): (s: string)
    ensures |s| == 3
    ensures forall i :: 0 <= i < 3 ==> '0' <= s[i] <= '9'
    ensures (s[0] as int - '0' as int) * 100 + (s[1] as int - '0' as int) * 10
              + (s[2] as int - '0' as int) == status
  {
    [DigitChar(status / 100), DigitChar(status / 10 % 10), DigitChar(status % 10)]
  }

  /** How the client library prints a status: the code, a space, and the
      canonical reason phrase (or a placeholder for codes without one). */
  function StatusText(status: StatusCode, reason: Option<string>): (text: string)
    ensures StartsWith(text, StatusDigits(status)) && |text| > 3 && text[3] == ' '
    ensures reason.Some? ==> text[4..] == reason.value
    ensures reason.None? ==> text[4..] == "<unknown status code>"
  {
    StatusDigits(status) + " " + (match reason case Some(p) => p case None => "<unknown status code>")
  }

  /** The message a fetch error is reported with. */
  function Describe(e: FetchError): string
  {
    match e
    case InvalidCategory => "Invalid category name"
    case ClientBuildFailed(cause) => "Failed to create HTTP client: " + cause
    case Transport(err, url) =>
      if err.isTimeout then "Request timed out after 30 seconds: " + url
      else if err.isConnect then "Failed to connect to server (check network connection): " + url
      else if Contains(err.text, "dns") || Contains(err.text, "resolve") then
        "DNS resolution failed (server may be unavailable): " + url
      else "Network error: " + err.text + " - URL: " + url
    case BadStatus(status, reason, url) =>
      "Server returned error " + StatusText(status, reason) + ": " + url
    case Undecodable(url, cause) => "Failed to parse JSON from " + url + ": " + cause
  }

  /** A message that ends with `p` contains it. */
  lemma ContainsTail(a: string, p: string)
    ensures Contains(a + p, p)
  {
    ContainsInfix(a, p, "");
    assert a + p + "" == a + p;
  }

  /** Every transport error message names the URL that failed. */
  lemma DescribeTransportNamesUrl(err: TransportError, url: string)
    ensures Contains(Describe(Transport(err, url)), url)
  {
    var m := Describe(Transport(err, url));
    var lead :=
      if err.isTimeout then "Request timed out after 30 seconds: "
      else if err.isConnect then "Failed to connect to server (check network connection): "
      else if Contains(err.text, "dns") || Contains(err.text, "resolve") then
        "DNS resolution failed (server may be unavailable): "
      else "Network error: " + err.text + " - URL: ";
    assert m == lead + url;
    ContainsTail(lead, url);
  }

  /** A status error message names both the status code and the URL. */
  lemma DescribeStatusNamesUrl(status: StatusCode, reason: Option<string>, url: string)
    ensures Contains(Describe(BadStatus(status, reason, url)), url)
    ensures Contains(Describe(BadStatus(status, reason, url)), StatusDigits(status))
  {
    var m := Describe(BadStatus(status, reason, url));
    var phrase := match reason case Some(p) => p case None => "<unknown status code>";
    var lead := "Server returned error " + StatusText(status, reason) + ": ";
    assert m == lead + url;
    ContainsTail(lead, url);
    var tail := " " + phrase + ": " + url;
    assert m == "Server returned error " + StatusDigits(status) + tail;
    ContainsInfix("Server returned error ", StatusDigits(status), tail);
  }

  /** Every error raised once the URL exists names that URL, and a status
      error also names the status. */
  lemma DescribeNamesUrl(e: FetchError)
    requires e.Transport? || e.BadStatus? || e.Undecodable?
    ensures Contains(Describe(e), e.url)
    ensures e.BadStatus? ==> Contains(Describe(e), StatusDigits(e.status))
  {
    match e
    case Transport(err, url) =>
      DescribeTransportNamesUrl(err, url);
    case BadStatus(status, reason, url) =>
      DescribeStatusNamesUrl(status, reason, url);
    case Undecodable(url, cause) =>
      ContainsInfix("Failed to parse JSON from ", url, ": " + cause);
      assert "Failed to parse JSON from " + url + (": " + cause) == Describe(e);
  }

  /** The first character of a concatenation with a non-empty left part. */
  lemma FirstChar(a: string, b: string)
    requires |a| > 0
    ensures |a + b| > 0 && (a + b)[0] == a[0]
  {
  }

  /** Only a rejected category is reported as "Invalid category name": every
      other message starts differently. */
  lemma DescribeInvalidOnly(e: FetchError)
    ensures Describe(e) == "Invalid category name" <==> e == InvalidCategory
  {
    var m := Describe(e);
    match e
    case InvalidCategory =>
    case ClientBuildFailed(cause) =>
      FirstChar("Failed to create HTTP client: ", cause);
    case Transport(err, url) =>
      var lead :=
        if err.isTimeout then "Request timed out after 30 seconds: "
        else if err.isConnect then "Failed to connect to server (check network connection): "
        else if Contains(err.text, "dns") || Contains(err.text, "resolve") then
          "DNS resolution failed (server may be unavailable): "
        else "Network error: " + err.text + " - URL: ";
      assert m == lead + url;
      if !err.isTimeout && !err.isConnect && !(Contains(err.text, "dns") || Contains(err.text, "resolve")) {
        FirstChar("Network error: ", err.text + " - URL: ");
        assert lead == "Network error: " + (err.text + " - URL: ");
      }
      FirstChar(lead, url);
    case BadStatus(status, reason, url) =>
      var rest := StatusText(status, reason) + ": " + url;
      assert m == "Server returned error " + rest;
      FirstChar("Server returned error ", rest);
    case Undecodable(url, cause) =>
      var rest := url + ": " + cause;
      assert m == "Failed to parse JSON from " + rest;
      FirstChar("Failed to parse JSON from ", rest);
  }

  /** An application matches a lower-cased keyword when its lower-cased name
      or lower-cased description contains it. */
  predicate Matches(app: AppInfo, keywordLower: string)
  {
    Contains(Lower(app.name), keywordLower) || Contains(Lower(app.desc), keywordLower)
  }

  /** An application whose lower-cased name and description both lack some
      character of the keyword does not match it. */
  lemma NoMatchWithoutChar(app: AppInfo, keywordLower: string, k: int)
    requires 0 <= k < |keywordLower|
    requires keywordLower[k] !in Lower(app.name) && keywordLower[k] !in Lower(app.desc)
    ensures !Matches(app, keywordLower)
  {
    NotContainsMissingChar(Lower(app.name), keywordLower, k);
    NotContainsMissingChar(Lower(app.desc), keywordLower, k);
  }

  /** Keeps the matching applications, in their original order. */
  function Filter(apps: seq<AppInfo>, keywordLower: string): (kept: seq<AppInfo>)
    ensures |kept| <= |apps|
    ensures forall a :: a in kept ==> a in apps && Matches(a, keywordLower)
    ensures forall a :: a in apps && Matches(a, keywordLower) ==> a in kept
    decreases |apps|
  {
    if apps == [] then []
    else if Matches(apps[0], keywordLower) then [apps[0]] + Filter(apps[1..], keywordLower)
    else Filter(apps[1..], keywordLower)
  }

  /** `idx` lists, in increasing order, the positions of `s` that `sub` takes
      its elements from. */
  ghost predicate Embeds<T>(sub: seq<T>, s: seq<T>, idx: seq<int>)
  {
    && |idx| == |sub|
    && (forall k :: 0 <= k < |idx| ==> 0 <= idx[k] < |s| && sub[k] == s[idx[k]])
    && (forall k, l :: 0 <= k < l < |idx| ==> idx[k] < idx[l])
  }

  /** Every position moved one place to the right. */
  function Shift(idx: seq<int>): (r: seq<int>)
    ensures |r| == |idx|
    ensures forall k :: 0 <= k < |idx| ==> r[k] == idx[k] + 1
  {
    seq(|idx|, k requires 0 <= k < |idx| => idx[k] + 1)
  }

  /** Positions into the tail of `s` are positions into `s` once shifted, and
      the head of `s` may then be put in front. */
  lemma EmbedsInTail<T>(sub: seq<T>, s: seq<T>, idx: seq<int>)
    requires |s| > 0 && Embeds(sub, s[1..], idx)
    ensures Embeds(sub, s, Shift(idx))
    ensures Embeds([s[0]] + sub, s, [0] + Shift(idx))
    ensures 0 !in Shift(idx)
    ensures forall j :: 1 <= j <= |s| ==> (j in Shift(idx) <==> j - 1 in idx)
  {
    var sh := Shift(idx);
    forall j | 1 <= j <= |s|
      ensures j in sh <==> j - 1 in idx
    {
      if j - 1 in idx {
        var k :| 0 <= k < |idx| && idx[k] == j - 1;
        assert sh[k] == j;
      }
    }
  }

  /** The search result is the subsequence of the catalog made of exactly its
      matching positions. */
  lemma {:induction false} FilterIsSubsequence(apps: seq<AppInfo>, keywordLower: string)
    returns (idx: seq<int>)
    ensures Embeds(Filter(apps, keywordLower), apps, idx)
    ensures forall j :: 0 <= j < |apps| ==> (j in idx <==> Matches(apps[j], keywordLower))
    decreases |apps|
  {
    if apps == [] {
      idx := [];
    } else {
      var rest := FilterIsSubsequence(apps[1..], keywordLower);
      EmbedsInTail(Filter(apps[1..], keywordLower), apps, rest);
      if Matches(apps[0], keywordLower) {
        idx := [0] + Shift(rest);
      } else {
        idx := Shift(rest);
      }
      forall j | 1 <= j < |apps|
        ensures j in idx <==> Matches(apps[j], keywordLower)
      {
        assert apps[j] == apps[1..][j - 1];
      }
    }
  }

  /** Each application appears in the result exactly as often as in the
      catalog when it matches, and not at all otherwise. */
  lemma {:induction false} FilterCounts(apps: seq<AppInfo>, keywordLower: string, a: AppInfo)
    ensures multiset(Filter(apps, keywordLower))[a] ==
              if Matches(a, keywordLower) then multiset(apps)[a] else 0
    decreases |apps|
  {
    if apps != [] {
      FilterCounts(apps[1..], keywordLower, a);
      assert apps == [apps[0]] + apps[1..];
    }
  }

  /** Filtering a concatenation filters each part. */
  lemma {:induction false} FilterAppend(xs: seq<AppInfo>, ys: seq<AppInfo>, keywordLower: string)
    ensures Filter(xs + ys, keywordLower) == Filter(xs, keywordLower) + Filter(ys, keywordLower)
    decreases |xs|
  {
    if xs == [] {
      assert xs + ys == ys;
    } else {
      assert (xs + ys)[0] == xs[0];
      assert (xs + ys)[1..] == xs[1..] + ys;
      FilterAppend(xs[1..], ys, keywordLower);
    }
  }

  /** Filtering a result again with the same keyword changes nothing. */
  lemma {:induction false} FilterIdempotent(apps: seq<AppInfo>, keywordLower: string)
    ensures Filter(Filter(apps, keywordLower), keywordLower) == Filter(apps, keywordLower)
    decreases |apps|
  {
    if apps != [] {
      FilterIdempotent(apps[1..], keywordLower);
    }
  }

  /** The empty keyword is contained in every name, so it keeps the whole
      catalog. */
  lemma {:induction false} FilterEmptyKeyword(apps: seq<AppInfo>)
    ensures Filter(apps, "") == apps
    decreases |apps|
  {
    if apps != [] {
      ContainsEmpty(Lower(apps[0].name));
      FilterEmptyKeyword(apps[1..]);
    }
  }

  /** The category the search downloads passes validation. */
  lemma AllIsValid()
    ensures IsValidCategory("all")
  {
    PlainCategoryIsValid("all");
  }

  /** Searches by downloading the whole catalog (category "all") and keeping
      the applications whose name or description contains the keyword,
      ignoring case. A failed download is passed on unchanged. */
  function SearchApps(api: Api, keyword: string, net: Network): (r: Fetched)
    ensures r.requests == FetchAppList(api, "all", net).requests
    ensures forall u :: u in r.requests ==> u == AppListUrl(api, "all")
    ensures r.result.Failure? <==> FetchAppList(api, "all", net).result.Failure?
    ensures r.result.Failure? ==> r.result.error == FetchAppList(api, "all", net).result.error
    ensures r.result.Failure? ==> r.result.error != InvalidCategory
    ensures r.result.Success? ==>
              forall a :: a in r.result.value <==>
                a in FetchAppList(api, "all", net).result.value && Matches(a, Lower(keyword))
    ensures r.result.Success? ==>
              r.result.value == Filter(FetchAppList(api, "all", net).result.value, Lower(keyword))
  {
    AllIsValid();
    var all := FetchAppList(api, "all", net);
    match all.result
    case Failure(e) => all
    case Success(apps) => Fetched(Success(Filter(apps, Lower(keyword))), all.requests)
  }

  /** Because the keyword is lower-cased first, only its lower-case form
      matters. */
  lemma SearchIgnoresKeywordCase(api: Api, k1: string, k2: string, net: Network)
    requires Lower(k1) == Lower(k2)
    ensures SearchApps(api, k1, net) == SearchApps(api, k2, net)
  {
  }

  /** Searching for the lower-case form of a keyword is searching for the
      keyword. */
  lemma SearchLowerKeyword(api: Api, keyword: string, net: Network)
    ensures SearchApps(api, Lower(keyword), net) == SearchApps(api, keyword, net)
  {
    LowerIdempotent(keyword);
  }

  /** An empty keyword returns the whole catalog. */
  lemma SearchEmptyKeyword(api: Api, net: Network)
    ensures SearchApps(api, "", net) == FetchAppList(api, "all", net)
  {
    var all := FetchAppList(api, "all", net);
    if all.result.Success? {
      assert Lower("") == "";
      FilterEmptyKeyword(all.result.value);
    }
  }
}
