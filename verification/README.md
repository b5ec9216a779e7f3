# Stardust catalog client and store front, in Dafny

Stardust is a small desktop front end for the Spark Store application
catalog. This project models its two pure cores:

- the catalog client of `src/api.rs` (module `Catalog`): the `AppInfo`
  record, the choice of the architecture directory, the path-traversal check
  on a category, the listing URL, one fetch classified into exactly one
  outcome, and the local search that downloads the `all` listing and keeps
  the applications whose lower-cased name or description contains the
  lower-cased keyword, in their original order;
- the store front of `src/main.rs` (module `Store`): the `Category` labels and
  API tokens, the start-up state, and `Stardust::update` as a pure step
  function `Update(state, message)` returning the next state and one `Effect`
  (`NoTask`, `ScheduleSearch`, `Fetch(category)` or `Search(keyword)`).
  `Perform` runs an effect with the catalog client and yields the message the
  runtime would deliver back.

Supporting modules: `Wrappers` (Option and Result), `Text` (substring
containment with the truth value of `str::contains`, ASCII lower-casing, UTF-8 byte
length), and `SearchExample` (a worked search over a three-application
catalog).

The network is a parameter. `Catalog.Network` says whether building the HTTP
client fails and, for each URL, what the one request for it gets back: a
transport failure (with the library's timeout and connect flags and its
text), or a status code, the library's reason phrase and a body that either
decodes as a list of applications or does not. Every fetch also returns the
URLs it requested, so "no request is made" and "at most one request is made"
are stated in contracts. Errors are a `FetchError` value; `Describe` renders
it as the exact message the code builds, and the store front receives that
message.

The code has a single endpoint (`base_url`, `src/api.rs:58`) and returns on
the first failure of any step: one request at most, no fallback.

`String::len` counts UTF-8 bytes, so the search gate of `Stardust::update`
(`MIN_SEARCH_LENGTH` = 2) is modelled on `Text.Utf8Len`: a query made of one
non-ASCII character, such as "é", already starts a search.

## Model

| member | source | states |
|---|---|---|
| `Catalog.ArchDir` | src/api.rs:47-55 | The directory is one of `amd64-store`, `arm64-store`, `loong64-store`; it is `arm64-store` exactly for aarch64, `loong64-store` exactly for loongarch64, and `amd64-store` for x86-64 and every unrecognised architecture. |
| `Catalog.New` | src/api.rs:45-61 | A new client talks to the one SDU mirror URL and uses the architecture directory of its build target. |
| `Catalog.IsValidCategoryIff` | src/api.rs:66-68 | `IsValidCategory`, the path-traversal check, holds exactly when no character of the category is '/' or '\' and no two neighbouring characters are both '.'. |
| `Catalog.PlainCategoryIsValid` | src/api.rs:66-68 | A category without '.', '/' and '\' passes the path-traversal check. |
| `Catalog.AppListUrl` | src/api.rs:70 | The listing URL starts with `base_url` followed by the architecture directory and '/', ends with `/applist.json`, and has exactly the room for the category in between. |
| `Catalog.UrlRoundTrip` | src/api.rs:70 | The category can be read back from its listing URL: the URL is `base_url`, directory, '/', category, `/applist.json`, in that order. |
| `Catalog.UrlInjective` | src/api.rs:70 | Different categories are requested from different URLs. |
| `Catalog.FetchAppList` | src/api.rs:64-108 | At most one request; a category with "..", '/' or '\' fails with the invalid-category error and no request; a client that cannot be built fails with no request; otherwise exactly the listing URL is requested. The fetch succeeds iff the category is valid, the client builds, and the reply is a 2xx status with a decodable body, and then it returns that body's list. For a valid category and a client that builds, the reply decides the error: a transport failure gives `Transport` with that failure and the URL, a non-2xx status gives `BadStatus` with the status, reason and URL, and an undecodable 2xx body gives `Undecodable` with the URL and the cause. A valid category never gives the invalid-category error. |
| `Catalog.FetchDeterministic` | src/api.rs:64-108 | Two fetches of a category that get the same client outcome and the same reply have the same result and requests. |
| `Catalog.StatusDigits` | src/api.rs:97 | A status code is printed as three decimal digits whose value is the code. |
| `Catalog.StatusText` | src/api.rs:97 | The status as the message prints it: its three digits, a space, then the reason phrase, or "<unknown status code>" when there is none. |
| `Catalog.DescribeTransportNamesUrl` | src/api.rs:84-94 | Each of the four transport messages (timeout, connect, DNS, other) contains the URL that failed. |
| `Catalog.DescribeStatusNamesUrl` | src/api.rs:96-98 | The non-2xx message contains both the status code and the URL. |
| `Catalog.DescribeNamesUrl` | src/api.rs:84-103 | `Describe`, the message of each error, names the URL for every error raised after the URL exists (transport, status, decode). |
| `Catalog.DescribeInvalidOnly` | src/api.rs:66-103 | `Describe` gives "Invalid category name" exactly for the validation error; no other failure produces it. |
| `Catalog.NoMatchWithoutChar` | src/api.rs:122-125 | An application whose lower-cased name and description both lack some character of the keyword is not kept. |
| `Catalog.Filter` | src/api.rs:120-126 | The result is no longer than the catalog; an application is in it iff it is in the catalog and `Matches` it: its lower-cased name or description contains the keyword. |
| `Catalog.FilterIsSubsequence` | src/api.rs:120-126 | The result is the subsequence of the catalog at strictly increasing positions, and those positions are exactly the matching ones. |
| `Catalog.FilterCounts` | src/api.rs:120-126 | A matching application occurs in the result as often as in the catalog; a non-matching one does not occur. |
| `Catalog.FilterAppend` | src/api.rs:120-126 | Filtering a concatenation is concatenating the filtered parts (the filter is stable and local). |
| `Catalog.FilterIdempotent` | src/api.rs:120-126 | Filtering a search result again with the same keyword changes nothing. |
| `Catalog.FilterEmptyKeyword` | src/api.rs:119-126 | The empty keyword keeps the whole catalog. |
| `Catalog.AllIsValid` | src/api.rs:117 | The "all" category the search downloads passes validation. |
| `Catalog.SearchApps` | src/api.rs:111-131 | The search makes exactly the requests of fetching "all", and only for the "all" URL; it fails iff that fetch fails, with the same error, never the validation error; on success the result is exactly the fetched catalog filtered by the lower-cased keyword, so an application is in it iff it is in the catalog and matches that keyword. |
| `Catalog.SearchIgnoresKeywordCase` | src/api.rs:119-125 | Two keywords with the same lower-case form give the same search. |
| `Catalog.SearchLowerKeyword` | src/api.rs:119-125 | Searching for the lower-case form of a keyword is searching for the keyword. |
| `Catalog.SearchEmptyKeyword` | src/api.rs:117-126 | An empty keyword returns exactly what fetching "all" returns. |
| `Text.ContainsIffOccurs` | src/api.rs:123-124 | `Contains`, the recursive substring test, holds iff the keyword occurs at some position of the text. |
| `Text.NotContainsMissingChar` | src/api.rs:66 | Text that lacks some character of a pattern does not contain the pattern. |
| `Text.Lower` | src/api.rs:119 | Lower-casing keeps the length and leaves no upper-case ASCII letter. |
| `Text.LowerIdempotent` | src/api.rs:119 | Lower-casing an already lower-cased keyword changes nothing. |
| `Text.Utf8Len` | src/main.rs:88 | The byte length of a query lies between its character count and four times it, and is zero only for the empty query. |
| `Text.Utf8LenAscii` | src/main.rs:88 | On ASCII text the byte length is the character count. |
| `Text.Utf8LenNonAscii` | src/main.rs:88 | One non-ASCII character makes the byte length exceed the character count. |
| `Store.ToApiCategory` | src/main.rs:52-63 | Every API token passes the client's path-traversal check. |
| `Store.ApiTokenIsLowerLabel` | src/main.rs:39-63 | The API token of a category is its label (`AsStr`) lower-cased. |
| `Store.ToApiCategoryInjective` | src/main.rs:52-63 | Distinct categories have distinct API tokens. |
| `Store.DefaultConsistent` | src/main.rs:66-80 | The start-up state `Default` is not loading, shows no error, and is consistent. |
| `Store.Receive` | src/main.rs:123-136 | A reported result stops loading and keeps the query and category; success replaces the list and clears the error, failure shows the message over an empty list. |
| `Store.Update` | src/main.rs:83-174 | `SearchChanged(q)` only sets the query and schedules a search iff `q` has at least 2 bytes; `CategorySelected(c)` sets the category, clears the query, starts loading, clears the error and fetches c's token; `LoadApps` starts loading, clears the error and fetches the selected category's token; `SearchApps` with an empty query is a no-op, otherwise it starts loading, clears the error and searches for exactly the query; `AppsLoaded`/`SearchResults` receive the report; `AppSelected` changes nothing. |
| `Store.UpdateKeepsConsistent` | src/main.rs:83-174 | No message leads from a consistent state (error only with an empty list; no error while loading) to an inconsistent one. |
| `Store.RunKeepsConsistent` | src/main.rs:83-174 | Any sequence of messages keeps a consistent state consistent. |
| `Store.ReachableConsistent` | src/main.rs:66-174 | From start-up, no sequence of messages shows an error next to a non-empty list, or an error while loading. |
| `Store.FetchEffectsAreValid` | src/main.rs:93-122 | Every fetch an update asks for names a category the client accepts. |
| `Store.SearchEffectsHaveQuery` | src/main.rs:137-154 | Every search an update asks for has a non-empty keyword equal to the current query. |
| `Store.ReportOf` | src/main.rs:102-107 | The front end receives the fetched list on success, and the error's message on failure. |
| `Store.Perform` | src/main.rs:85-154 | No task yields no message; a scheduled search yields `SearchApps`; a fetch of a category yields `AppsLoaded` carrying the report of fetching exactly that category; a search for a keyword yields `SearchResults` carrying the report of searching exactly that keyword. |
| `Store.TypedQueryIsSearched` | src/main.rs:85-154 | Typing a query of at least 2 bytes schedules `SearchApps`, which then starts loading and searches for exactly that query. |
| `Store.SearchGateCountsBytes` | src/main.rs:85-91 | The gate counts bytes: the one-character query "é" (2 bytes) starts a search, "a" does not. |
| `Store.SelectedCategoryNeverInvalid` | src/main.rs:93-108 | Selecting any category fetches a listing whose outcome is never the "Invalid category name" error. |
| `SearchExample.SearchImage` | src/api.rs:111-131 | In the catalog Blender/GIMP/Krita, "image" finds exactly GIMP (a description match). |
| `SearchExample.SearchBlend` | src/api.rs:111-131 | The upper-case keyword "BLEND" finds exactly Blender, whose name is written "Blender". |
| `SearchExample.SearchNothing` | src/api.rs:111-131 | "xyz" finds nothing, and that is an empty success, not an error. |

## Left out

- Text.Lower: lower-cases ASCII letters only; Rust's `to_lowercase` follows full Unicode case mapping, which can also change length.
- Catalog.SearchApps: matching inherits the ASCII-only lower-casing of `Text.Lower`, so non-ASCII letters are compared as written.
- The reqwest client, its 30-second timeout and the asynchronous `send`/`json` calls (src/api.rs:75-103): replaced by the `Network` parameter.
- reqwest's error predicates (`is_timeout`, `is_connect`) and its error text are inputs (`TransportError`); only the branch order and the "dns"/"resolve" text test are modelled.
- The reason phrase table of HTTP status codes is not modelled; the phrase is part of the reply.
- serde JSON decoding and the field renames (src/api.rs:1-29): a body is given as already decoded or not.
- `cfg!(target_arch)` detection: the architecture is a parameter of `New`.
- Logging with `eprintln!`/`println!` (src/api.rs:72,105,114,128; src/main.rs:170).
- `view` and `category_button` (src/main.rs:176-282), including the 50-application display cap: presentation only.
- The `api` field of the front-end state: it is fixed at start-up and passed to `Perform` instead.
- Asynchronous task scheduling: tasks are effect values; the order in which concurrent results arrive is not modelled (each arrival is one `AppsLoaded` or `SearchResults` message).
