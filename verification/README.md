# Y2Matez and YTSearch in Dafny

This project models the logic of a small Node.js client for the y2mate
download service and of its YouTube search helper:

- `Y2Matez` (index.js): the validation of query and url arguments, the
  extraction of an 11-character video id from a YouTube URL, the state the
  client keeps (`query`, `url`, `nourl`), the classification of server
  replies, the dispatch of `analyze`, the argument checks of `convert` and the
  format/quality selection of `getInfo`.
- `YTSearch` (ytsearch.js): `factoryOptions`, which writes default options
  into a caller's object, the validation done by the constructor, the
  page-loading loop, and the pickers that choose a video from a page.

Files:

| file | module | contents |
|---|---|---|
| wrappers.dfy | `Wrappers` | `Option` and `Result` |
| js_values.dfy | `JsValues` | JavaScript values, `typeof`, truthiness, property reads |
| youtube_id.dfy | `YoutubeId` | the id-extraction regular expression as a matcher, with soundness, completeness and prefix lemmas |
| y2matez.dfy | `Y2MatezClient` | `sameAsType`, `parseYoutubeId`, `checkResponse`, the `Y2Matez` class, `convert` arguments, `getInfo` selection |
| options.dfy | `OptionDefaults` | `factoryOptions` as an in-place loop proved against a walk function |
| ytsearch.dfy | `YTSearchModel` | the `YTSearch` constructor, `loadPages`, `getVideoList` and the pickers |

Modelling choices:

- The HTTP requests and the search libraries are not modelled; their outcomes are parameters:
  - an analyze or convert reply is a `Response`;
  - the search answer for `analyze` is a `Detail`;
  - the page answers for `loadPages` are a sequence of `PageResponse`, one per request.
- JavaScript numbers are integers.
- Objects are maps from property names to values. Where enumeration order matters, the model uses an explicit sequence instead:
  - the defaults of `factoryOptions`;
  - the entries of a format in the `links` catalog.
- A thrown exception is a `Failure`, or a `Some` error for operations that return nothing. Each error carries its kind and the values its message mentions.

## Model

| member | source | states |
|---|---|---|
| Y2MatezClient.HasOwn | index.js:8-10 | `hasOwnProperty.call(v, k)` in sloppy mode: an object owns exactly its keys; a string, boxed, owns `length` and its index keys; null and undefined (read as the global object), numbers and booleans own none of them |
| Y2MatezClient.HasOwnNamed | index.js:8-10 | for a key that is neither `length` nor starts with a digit (`query`, `url`, `videoId`, `token`), only an object that owns the key passes |
| Y2MatezClient.SameAsType | index.js:11-22 | accepts iff `typeof a === typeof b` and `a` is truthy, returning `typeof a`; a type mismatch is reported before falsiness |
| Y2MatezClient.SameAsStringIff | index.js:11-22 | checked against a string sample, exactly the non-empty strings pass, so non-strings and "" are rejected |
| YoutubeId.ExtractId | index.js:68-69 | any id found is 11 characters from `[-_0-9A-Za-z]` |
| YoutubeId.ExtractIdIff | index.js:68-69 | an id is found iff the text contains a lead (optional scheme, `youtu.be/` or `[www.]youtube[-nocookie].com/[shorts/]` + `watch?…v=`/`embed/`/`v/`) directly followed by 11 id characters |
| YoutubeId.ExtractIdSound | index.js:68-69 | the id found is the 11 characters right after such a lead in the text |
| YoutubeId.HttpsPrefix | index.js:68 | prefixing `https://` does not change the id found |
| YoutubeId.HttpPrefix | index.js:68 | prefixing `http://` does not change the id found |
| YoutubeId.WwwPrefix | index.js:68 | prefixing `www.` does not change the id found |
| YoutubeId.ShortsAlone | index.js:68 | `youtube.com/shorts/<id>` alone yields no id |
| Y2MatezClient.ParseYoutubeId | index.js:67-79 | echoes `url`; a falsy url is matched as ""; a truthy non-string fails; strict mode fails exactly when no id is found; for a string url the id returned is exactly `ExtractId` of it, and a non-string url yields no id |
| Y2MatezClient.CheckResponse | index.js:80-92 | passes iff the reply is not an error, has truthy `data`, and `data.status === "ok"`; otherwise it reports the first failing check, in that order |
| Y2MatezClient.Y2Matez.constructor | index.js:26-40 | a new client has null `query` and `url` and keeps the two endpoints |
| Y2MatezClient.NewClient | index.js:26-40 | the `query` option goes through `useQuery`, then `url` through `useUrl`; options that are not an object (null, undefined, a primitive) own neither key and give a client with null `query` and `url`; `nourl` is false after a url option, true after only a query option, and unset otherwise; it succeeds iff each present option would be accepted, and the stored values are the options as given |
| Y2MatezClient.Y2Matez.UseQuery | index.js:41-53 | a missing argument is a ReferenceError; succeeds iff the argument is a non-empty string; then sets `query` and `nourl = true`; `url` is untouched; a failure changes nothing |
| Y2MatezClient.Y2Matez.UseUrl | index.js:54-66 | succeeds iff the argument is a non-empty string with an id; stores the raw url (not the id) and `nourl = false`; `query` is untouched; a failure changes nothing |
| Y2MatezClient.Y2Matez.CheckRequired | index.js:93-97 | fails iff both `query` and `url` are null |
| Y2MatezClient.Y2Matez.CurrentLookup | index.js:111-114 | a set query wins over a set url; otherwise the lookup is by the id of the url |
| Y2MatezClient.Y2Matez.TakeText | index.js:102-107 | text with an id becomes the url, other non-empty text becomes the query, a falsy text fails and a truthy non-string fails before either |
| Y2MatezClient.FinalUrl | index.js:120-123 | the detail's url when it contains "http", else a watch URL built from the id (the literal `false` on the query path) |
| Y2MatezClient.Y2Matez.Analyze | index.js:101-151 | takes the text in, requires a query or url, looks up by query whenever one is set (even after a url text), posts `FinalUrl`, and succeeds only if the reply passes `checkResponse`; a text that is neither url nor query text fails and leaves `query`, `url` and `nourl` unchanged; conversely, with a query or url in place (or an accepted text), a found video and a passing reply, it succeeds |
| Y2MatezClient.ConvertArgs | index.js:152-164 | succeeds iff the argument is an object owning `videoId` and `token`, both non-empty strings; missing keys are reported in that order, and any non-object (null included) is missing `videoId` |
| Y2MatezClient.SelectQuality | index.js:185-201 | a falsy quality is "auto"; "auto" is 360p for mp4, 128kbps for mp3 and stays "auto" otherwise; any other quality is used as given |
| Y2MatezClient.FindQuality | index.js:208 | the index of the first entry whose `q` equals the quality, or none when no entry has it |
| Y2MatezClient.Select | index.js:191-208 | a format that is not a key fails (no other format is tried); the chosen entry's `q` equals the selected quality, and its `k`, `q_text` and `size` are returned |
| Y2MatezClient.SelectIff | index.js:195-205 | selection succeeds iff the format is a key and some entry's `q` is exactly the selected quality |
| Y2MatezClient.SelectFirst | index.js:208 | no entry before the chosen one has the selected quality |
| Y2MatezClient.FalsyQualityIsAuto | index.js:185-188 | a falsy quality selects exactly as "auto" does |
| Y2MatezClient.Y2Matez.GetInfo | index.js:181-221 | a missing format type fails first; the stored query/url is analyzed without changing the state, with the lookup, posted URL and reply `analyze` gives; the choice is `Select`'s; the token passed on passes `convert`'s checks; the convert reply passes `checkResponse`; conversely, when each of these steps passes, it succeeds |
| OptionDefaults.Fill | ytsearch.js:5-20 | the walk over the defaults never removes a key of the options it starts from |
| OptionDefaults.FillKeeps | ytsearch.js:5-20 | values the caller supplied are never changed, and only default keys are added |
| OptionDefaults.FillComplete | ytsearch.js:5-20 | after success every default key is present, with the default's type and, for numbers, not negative |
| OptionDefaults.FillMissing | ytsearch.js:9-10 | a key the caller left out takes its default |
| OptionDefaults.FillEffective | ytsearch.js:9-17 | after a successful walk each default key holds the caller's value if there was one, else the default |
| OptionDefaults.FillErrorIff | ytsearch.js:9-16 | the walk fails iff some default's effective value has another `typeof` or is a negative number |
| OptionDefaults.FillIdempotent | ytsearch.js:5-20 | applying the same defaults again to the result changes nothing and succeeds |
| OptionDefaults.Options.FactoryOptions | ytsearch.js:5-20 | the loop leaves the object, and returns the error, exactly as the walk `Fill` describes, including keys filled before a failure |
| YTSearchModel.Configure | ytsearch.js:28-46 | construction succeeds iff the defaults are accepted and the caller's options own a string `query`; the page and item counts are the effective `countPages` and `countItems` (the caller's value, else 1); a rejected default is reported as such |
| YTSearchModel.FilledCounts | ytsearch.js:31-36 | once the defaults are accepted, `countPages` and `countItems` hold their effective values, which are non-negative numbers |
| YTSearchModel.NewSearch | ytsearch.js:28-75 | writes the defaults into the caller's object, fails as `Configure` does, and stores the pages `loadPages` collects; responses are needed only for the requests the loop sends, so none when `countItems` is 0 |
| YTSearchModel.LoadPages | ytsearch.js:46-72 | the loop yields the pages and requests of the round-by-round description `Load` |
| YTSearchModel.Load | ytsearch.js:54-68 | with `countItems` 0 no request is sent from any round on |
| YTSearchModel.LoadGrows | ytsearch.js:54-68 | each round of `Load` only appends to the pages and requests collected so far, and the rounds left add at most one page and one request each |
| YTSearchModel.Token | ytsearch.js:62-64 | a truthy token held is one some response carried; undefined is held exactly when no response carried a truthy `nextPage` |
| YTSearchModel.TokenLast | ytsearch.js:62-64 | the token held is the one carried by the last response with a truthy `nextPage` |
| YTSearchModel.ItemsOf | ytsearch.js:65-67 | one page per response that has items, never more pages than responses |
| YTSearchModel.LoadFrom | ytsearch.js:54-68 | from any round on, the loop completes the requests and pages that `RequestAt` and `ItemsOf` describe |
| YTSearchModel.LoadPagesRequests | ytsearch.js:54-68 | with items requested: exactly `countPages` requests, the first by keyword, later ones by the last token received; pages are the responses' items in order |
| YTSearchModel.LoadPagesBound | ytsearch.js:54-68 | never more than `countPages` pages |
| YTSearchModel.LoadPagesNoItems | ytsearch.js:54-58 | with `countItems` 0: one empty page (none if no page is asked for) and no request |
| YTSearchModel.ParseCategory | ytsearch.js:198-226 | exactly the seven category names are recognised, each by strict equality to its own case, so each name maps to its own category and only that name does |
| YTSearchModel.Values | ytsearch.js:77-79 | one value per video, its `views` or `seconds` |
| YTSearchModel.MaxOf | ytsearch.js:83-85 | the result is an element and no element exceeds it |
| YTSearchModel.MinOf | ytsearch.js:86-88 | the result is an element and no element is below it |
| YTSearchModel.FindBy | ytsearch.js:80-82 | the first index whose field equals the value, or none if no video has it |
| YTSearchModel.RandomIndex | ytsearch.js:167 | for a random fraction in [0, 1), the index is below the length of a non-empty page |
| YTSearchModel.YTSearch.constructor | ytsearch.js:75 | the search object holds the loaded pages |
| YTSearchModel.YTSearch.GetVideoList | ytsearch.js:92-116 | a result is a non-empty stored page; a `page` option that the defaults check rejects fails with that rejection |
| YTSearchModel.VideoListRejects | ytsearch.js:97 | a `page` option that is not a number, or is negative, is rejected before any page is read |
| YTSearchModel.VideoListIff | ytsearch.js:99-115 | page `p` succeeds iff 1 ≤ p ≤ page count and page `p` is non-empty, and then yields it; page 0 is the "Get 0 page" error |
| YTSearchModel.VideoListDefault | ytsearch.js:93-97 | without a page option, page 1 is read |
| YTSearchModel.YTSearch.GetFirstVideo | ytsearch.js:121-126 | element 0 of the page, failing exactly when the page lookup fails |
| YTSearchModel.YTSearch.GetLastVideo | ytsearch.js:127-132 | the final element of the page, failing exactly when the page lookup fails |
| YTSearchModel.YTSearch.GetVideoByExtreme | ytsearch.js:133-164 | the first video of the page attaining the largest (smallest) `views` or `seconds`; it is ≥ (≤) every video of the page |
| YTSearchModel.YTSearch.GetRandomVideo | ytsearch.js:165-171 | a video of the page, failing exactly when the page lookup fails |
| YTSearchModel.YTSearch.PickVideo | ytsearch.js:172-189 | one argument means page 1 with that index; succeeds exactly for a number 0 ≤ index ≤ length on a page that exists, and index == length yields undefined |
| YTSearchModel.PickVideoPastEnd | ytsearch.js:182-186 | `pickVideo(length)` on page 1 succeeds with undefined, whereas the corrected check rejects it |
| YTSearchModel.YTSearch.PickVideoChecked | ytsearch.js:182 | with the bound 0 ≤ index < length, every success is a video of the page and every other number fails |
| YTSearchModel.PickVideoCheckedAgrees | ytsearch.js:182-186 | wherever the corrected check accepts, `pickVideo` gives the same video |
| YTSearchModel.ByArguments | ytsearch.js:191-196 | with one argument, the page is 1 and that argument is the category ("" when falsy); with two, an undefined category takes the default "" |
| YTSearchModel.YTSearch.GetVideoBy | ytsearch.js:190-229 | after the argument shift, "first" gives `getFirstVideo`, "last" `getLastVideo`, "most"/"least" the video with the most/fewest views, "longest"/"shortest" the longest/shortest one, "random" `getRandomVideo`, each on the shifted page; any other category fails |

## Left out

- The HTTP requests to the analyze and convert endpoints, and the endpoint URLs and headers read from config.json. config.json is not part of this model; replies are parameters.
- The `yt-search` and `youtube-search-api` libraries. Search answers and page responses are parameters, and `YTSearch.search` is not modelled. Every page response is a successful value, so a page request that the search library rejects inside `loadPages` is not modelled.
- Promises and `async`/`await`: everything is sequential.
- Logging with `console.log` and `console.error`.
- The wording of error messages: each error keeps its kind and the values it mentions.
- `Math.random`: it is a fraction `num / den` in [0, 1) supplied by the caller.
- `getVideoDetail` (index.js:98-100) computes a value and discards it.
- `getAudioList` (ytsearch.js:117-120) reads a field that never exists.
- JavaScript number edge cases: NaN, infinities and fractions (for example a fractional page or index). `Math.max`/`Math.min` are taken only over non-empty pages, which `getVideoList` guarantees.
- Y2MatezClient.HasOwn: a string's index keys are counted in characters, whereas JavaScript counts UTF-16 code units, so a string with characters outside the Basic Multilingual Plane owns more index keys in JavaScript than in the model (`"😀"` owns `"1"` there).
- Y2MatezClient.HasOwn: the global object that null and undefined stand for in sloppy mode is taken to own no keys. The keys this code asks about (`query`, `url`, `videoId`, `token`) are not properties of Node's global object.
- Y2MatezClient.Select: the catalog of the analyze reply is a parameter, one sequence of entries per format in enumeration order. It is not decoded from the reply's `links` object, so a non-object `links` (for which `Object.keys` would list indices) is not modelled.
- Y2MatezClient.Y2Matez.GetInfo: the returned `convertInfo` is the whole convert reply rather than its four copied fields.
- Y2MatezClient.Y2Matez.Analyze: `related` and `links` are not split out of the reply's data. The search library's answer is the `detail` parameter for whichever lookup was chosen.
- YTSearchModel.YTSearch.GetVideoByExtreme: page entries are taken as resolved video records with integer `views` and `seconds`. In the source the entries are still pending video lookups (ytsearch.js:70) when `factoryMap` reads them, which this model does not capture.
- YTSearchModel.LoadPages: the `withPlayList`, `countItems` and `options` arguments passed with each request are not recorded in `Request`.
- YTSearchModel.YTSearch.GetVideoList: the caller's options object is read as a value. `factoryOptions` writing `page` into it is not modelled here (it is modelled in `Options.FactoryOptions`).

## Findings

| source | as written | input that shows it | evidently intended | confidence | as-written member | corrected member |
|---|---|---|---|---|---|---|
| ytsearch.js:182 | `index > videos.length` lets `index == videos.length` through, and `videos[index]` is then undefined | `pickVideo(n)` where page 1 holds `n` videos | reject every index outside 0 ≤ index < length | medium, not executed | YTSearchModel.PickVideoPastEnd | YTSearchModel.YTSearch.PickVideoChecked |
