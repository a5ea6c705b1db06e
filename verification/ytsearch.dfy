/**
 * The `YTSearch` class of ytsearch.js: construction (option defaults, the
 * query check and the page loading loop) and the pickers that read the
 * stored pages.
 *
 * The search engine is not modelled: the page responses it would answer are
 * a parameter, one per request in request order. Each video is taken as the
 * record the video-info lookup resolves to, with integer `views` and
 * `seconds`.
 */
module YTSearchModel {
  import opened Wrappers
  import opened JsValues
  import opened OptionDefaults

  datatype Video = Video(id: string, views: int, seconds: int)

  datatype SearchError =
    | OptionRejected(cause: OptionError)
    | MissingQuery
    | QueryNotString(given: string)
    | ZeroPage
    | PageUnavailable(page: int, count: nat)
    | NoVideos
    | BadIndex(count: nat)
    | BadCategory

  /** The defaults of the constructor, in enumeration order. */
  const SearchDefaults: Defaults :=
    [("countPages", JsNumber(1)), ("countItems", JsNumber(1)), ("withPlayList", JsBool(false)),
     ("limit", JsNumber(1)), ("options", JsObject(map[]))]

  /** The defaults of `getVideoList`. */
  const PageDefaults: Defaults := [("page", JsNumber(1))]

  /** One answer of the search engine: a continuation token and, maybe, the items. */
  datatype PageResponse = PageResponse(nextPage: JsValue, items: Option<seq<Video>>)

  /** A request to the search engine: by keyword, or for the page after a token. */
  datatype Request = ByKeyword(query: string) | NextPage(token: JsValue)

  datatype Loaded = Loaded(pages: seq<seq<Video>>, requests: seq<Request>)

  /** The loop of `loadPages` from round `i` on, holding token `nextPage`
      and what has been collected so far in `acc`. */
  function Load(query: string, maxPages: nat, maxItems: nat, responses: seq<PageResponse>,
                i: nat, nextPage: JsValue, acc: Loaded): (r: Loaded)
    requires maxItems == 0 || maxPages <= |responses|
    ensures maxItems == 0 ==> r.requests == acc.requests
    decreases maxPages - i
  {
    if i >= maxPages then acc
    else if maxItems == 0 then Loaded(acc.pages + [[]], acc.requests)
    else
      var request := if Truthy(nextPage) then NextPage(nextPage) else ByKeyword(query);
      var response := responses[i];
      var token := if Truthy(response.nextPage) then response.nextPage else nextPage;
      var pages := if response.items.Some? then acc.pages + [response.items.value] else acc.pages;
      Load(query, maxPages, maxItems, responses, i + 1, token, Loaded(pages, acc.requests + [request]))
  }

  /** Each round only appends to what has been collected, and the rounds left
      add at most one page and one request each. */
  lemma {:induction false} LoadGrows(query: string, maxPages: nat, maxItems: nat, responses: seq<PageResponse>,
                                     i: nat, nextPage: JsValue, acc: Loaded)
    requires maxItems == 0 || maxPages <= |responses|
    ensures var r := Load(query, maxPages, maxItems, responses, i, nextPage, acc);
      acc.pages <= r.pages && acc.requests <= r.requests
    ensures var r := Load(query, maxPages, maxItems, responses, i, nextPage, acc);
      i <= maxPages ==>
        |r.pages| <= |acc.pages| + (maxPages - i) && |r.requests| <= |acc.requests| + (maxPages - i)
    decreases maxPages - i
  {
    if i < maxPages && 0 < maxItems {
      var response := responses[i];
      var token := if Truthy(response.nextPage) then response.nextPage else nextPage;
      var request := if Truthy(nextPage) then NextPage(nextPage) else ByKeyword(query);
      var pages := if response.items.Some? then acc.pages + [response.items.value] else acc.pages;
      LoadGrows(query, maxPages, maxItems, responses, i + 1, token, Loaded(pages, acc.requests + [request]));
    }
  }

  /** The token held after the given responses: the last truthy `nextPage`, else undefined. */
  function Token(rs: seq<PageResponse>): (t: JsValue)
    ensures Truthy(t) ==> exists k :: 0 <= k < |rs| && rs[k].nextPage == t
    ensures !Truthy(t) ==> t == JsUndefined && forall k | 0 <= k < |rs| :: !Truthy(rs[k].nextPage)
  {
    if |rs| == 0 then JsUndefined
    else if Truthy(rs[|rs| - 1].nextPage) then rs[|rs| - 1].nextPage
    else
      var t := Token(rs[..|rs| - 1]);
      assert forall k | 0 <= k < |rs| - 1 :: rs[..|rs| - 1][k] == rs[k];
      t
  }

  /** The token held is the one the last response carrying a truthy
      `nextPage` carried: no later response carries one. */
  lemma {:induction false} TokenLast(rs: seq<PageResponse>)
    ensures Truthy(Token(rs)) ==>
      exists k :: 0 <= k < |rs| && rs[k].nextPage == Token(rs) && forall m | k < m < |rs| :: !Truthy(rs[m].nextPage)
  {
    if |rs| > 0 && !Truthy(rs[|rs| - 1].nextPage) {
      var front := rs[..|rs| - 1];
      TokenLast(front);
      if Truthy(Token(rs)) {
        var k :| 0 <= k < |front| && front[k].nextPage == Token(front) &&
          forall m | k < m < |front| :: !Truthy(front[m].nextPage);
        assert rs[k] == front[k];
        assert forall m | k < m < |rs| - 1 :: rs[m] == front[m];
      }
    }
  }

  /** The request issued in round `j`: by keyword until some response carried a token. */
  function RequestAt(query: string, responses: seq<PageResponse>, j: nat): (req: Request)
    requires j <= |responses|
  {
    var t := Token(responses[..j]);
    if Truthy(t) then NextPage(t) else ByKeyword(query)
  }

  /** The item lists of the responses that carry items, in order. */
  function ItemsOf(rs: seq<PageResponse>): (pages: seq<seq<Video>>)
    ensures |pages| <= |rs|
  {
    if |rs| == 0 then []
    else ItemsOf(rs[..|rs| - 1]) + (if rs[|rs| - 1].items.Some? then [rs[|rs| - 1].items.value] else [])
  }

  /** `loadPages()`: at most `maxPages` requests, the first one by keyword. */
  method LoadPages(query: string, maxPages: nat, maxItems: nat, responses: seq<PageResponse>)
    returns (pages: seq<seq<Video>>, requests: seq<Request>)
    requires maxItems == 0 || maxPages <= |responses|
    ensures Loaded(pages, requests) == Load(query, maxPages, maxItems, responses, 0, JsUndefined, Loaded([], []))
  {
    pages := [];
    requests := [];
    var nextPage := JsUndefined;
    var i := 0;
    while i < maxPages
      invariant 0 <= i <= maxPages
      invariant Load(query, maxPages, maxItems, responses, i, nextPage, Loaded(pages, requests))
             == Load(query, maxPages, maxItems, responses, 0, JsUndefined, Loaded([], []))
    {
      if maxItems == 0 {
        pages := pages + [[]];
        break;
      }
      var request := if Truthy(nextPage) then NextPage(nextPage) else ByKeyword(query);
      requests := requests + [request];
      var page := responses[i];
      if Truthy(page.nextPage) {
        nextPage := page.nextPage;
      }
      if page.items.Some? {
        pages := pages + [page.items.value];
      }
      i := i + 1;
    }
  }

  /** One more response moves the token and the kept pages on by one round. */
  lemma RoundStep(rs: seq<PageResponse>, i: nat)
    requires i < |rs|
    ensures Token(rs[..i + 1]) == if Truthy(rs[i].nextPage) then rs[i].nextPage else Token(rs[..i])
    ensures ItemsOf(rs[..i + 1]) ==
      if rs[i].items.Some? then ItemsOf(rs[..i]) + [rs[i].items.value] else ItemsOf(rs[..i])
  {
    assert rs[..i + 1][..i] == rs[..i];
    assert rs[..i + 1][i] == rs[i];
  }

  /** The loop from round `i` on, started in the state the earlier rounds leave. */
  lemma {:induction false} LoadFrom(query: string, maxPages: nat, maxItems: nat, responses: seq<PageResponse>,
                                    i: nat, acc: Loaded)
    requires 0 < maxItems && maxPages <= |responses| && i <= maxPages
    requires |acc.requests| == i && forall j | 0 <= j < i :: acc.requests[j] == RequestAt(query, responses, j)
    requires acc.pages == ItemsOf(responses[..i])
    ensures |Load(query, maxPages, maxItems, responses, i, Token(responses[..i]), acc).requests| == maxPages
    ensures Load(query, maxPages, maxItems, responses, i, Token(responses[..i]), acc).pages ==
      ItemsOf(responses[..maxPages])
    ensures var r := Load(query, maxPages, maxItems, responses, i, Token(responses[..i]), acc);
      forall j | 0 <= j < maxPages :: r.requests[j] == RequestAt(query, responses, j)
    decreases maxPages - i
  {
    if i < maxPages {
      var nextPage := Token(responses[..i]);
      var request := if Truthy(nextPage) then NextPage(nextPage) else ByKeyword(query);
      var response := responses[i];
      var token := if Truthy(response.nextPage) then response.nextPage else nextPage;
      var pages := if response.items.Some? then acc.pages + [response.items.value] else acc.pages;
      var next := Loaded(pages, acc.requests + [request]);
      RoundStep(responses, i);
      assert request == RequestAt(query, responses, i);
      assert forall j | 0 <= j < i + 1 :: next.requests[j] == RequestAt(query, responses, j);
      assert Load(query, maxPages, maxItems, responses, i, nextPage, acc) ==
        Load(query, maxPages, maxItems, responses, i + 1, token, next);
      LoadFrom(query, maxPages, maxItems, responses, i + 1, next);
    }
  }

  /** With items requested, `loadPages` sends exactly `maxPages` requests: the
      first by keyword, each later one by the last token a response carried
      (by keyword again while none did); a page is kept exactly for each
      response that has items. */
  lemma LoadPagesRequests(query: string, maxPages: nat, maxItems: nat, responses: seq<PageResponse>)
    requires 0 < maxItems && maxPages <= |responses|
    ensures var r := Load(query, maxPages, maxItems, responses, 0, JsUndefined, Loaded([], []));
      |r.requests| == maxPages && r.pages == ItemsOf(responses[..maxPages]) &&
      (forall j | 0 <= j < maxPages :: r.requests[j] == RequestAt(query, responses, j)) &&
      (0 < maxPages ==> r.requests[0] == ByKeyword(query))
  {
    assert responses[..0] == [];
    LoadFrom(query, maxPages, maxItems, responses, 0, Loaded([], []));
  }

  /** `loadPages` never keeps more pages than `maxPages`. */
  lemma LoadPagesBound(query: string, maxPages: nat, maxItems: nat, responses: seq<PageResponse>)
    requires maxItems == 0 || maxPages <= |responses|
    ensures |Load(query, maxPages, maxItems, responses, 0, JsUndefined, Loaded([], [])).pages| <= maxPages
  {
    if 0 < maxItems {
      LoadPagesRequests(query, maxPages, maxItems, responses);
    }
  }

  /** With no items requested, one empty page is kept (if any page is asked
      for) and no request is sent. */
  lemma LoadPagesNoItems(query: string, maxPages: nat, responses: seq<PageResponse>)
    ensures Load(query, maxPages, 0, responses, 0, JsUndefined, Loaded([], [])) ==
      if maxPages == 0 then Loaded([], []) else Loaded([[]], [])
  {
  }

  /** The settings `loadPages` reads from the defaulted options. */
  datatype Config = Config(query: string, maxPages: nat, maxItems: nat)

  /** The constructor's defaults have distinct keys. */
  lemma SearchDefaultsDistinct()
    ensures DistinctKeys(SearchDefaults)
  {
  }

  /** Once the defaults are accepted, `countPages` and `countItems` hold their
      effective values, and these are non-negative numbers. */
  lemma FilledCounts(props: map<string, JsValue>)
    requires Fill(props, SearchDefaults).error.None?
    ensures var f := Fill(props, SearchDefaults).props;
      "countPages" in f && f["countPages"] == Effective(props, SearchDefaults[0]) &&
      f["countPages"].JsNumber? && f["countPages"].n >= 0
    ensures var f := Fill(props, SearchDefaults).props;
      "countItems" in f && f["countItems"] == Effective(props, SearchDefaults[1]) &&
      f["countItems"].JsNumber? && f["countItems"].n >= 0
  {
    SearchDefaultsDistinct();
    FillEffective(props, SearchDefaults, 0);
    FillEffective(props, SearchDefaults, 1);
    FillComplete(props, SearchDefaults, 0);
    FillComplete(props, SearchDefaults, 1);
  }

  /** The validation of the constructor: the defaults must be accepted, and the
      options must then hold a string `query` (no default supplies one). */
  function Configure(props: map<string, JsValue>): (r: Result<Config, SearchError>)
    ensures r.Success? <==>
      Fill(props, SearchDefaults).error.None? && "query" in props && props["query"].JsString?
    ensures r.Success? ==> r.value.query == props["query"].s
    ensures Fill(props, SearchDefaults).error.Some? ==>
      r == Failure(OptionRejected(Fill(props, SearchDefaults).error.value))
    ensures r.Success? ==>
      Effective(props, SearchDefaults[0]).JsNumber? && r.value.maxPages == Effective(props, SearchDefaults[0]).n
    ensures r.Success? ==>
      Effective(props, SearchDefaults[1]).JsNumber? && r.value.maxItems == Effective(props, SearchDefaults[1]).n
  {
    var f := Fill(props, SearchDefaults);
    FillKeeps(props, SearchDefaults);
    assert !IsDefaultKey(SearchDefaults, "query");
    if f.error.Some? then Failure(OptionRejected(f.error.value))
    else if "query" !in f.props then Failure(MissingQuery)
    else if !f.props["query"].JsString? then Failure(QueryNotString(TypeOf(f.props["query"])))
    else
      FilledCounts(props);
      Success(Config(f.props["query"].s, f.props["countPages"].n, f.props["countItems"].n))
  }

  /** The responses answer every request the configured loop sends: none are
      needed when construction fails or no items are asked for. */
  predicate EnoughResponses(props: map<string, JsValue>, responses: seq<PageResponse>) {
    var c := Configure(props);
    c.Success? ==> c.value.maxItems == 0 || c.value.maxPages <= |responses|
  }

  /** The page and category `getVideoBy` goes on with. */
  datatype Arguments = Arguments(page: JsValue, category: JsValue)

  /** The argument shift of `getVideoBy`: called with one argument (`category`
      absent), that argument is the category ("" when falsy) and the page is 1;
      an explicit undefined category takes the default "". */
  function ByArguments(page: JsValue, category: Option<JsValue>): (a: Arguments)
    ensures category.None? ==> a.page == JsNumber(1) && (Truthy(page) ==> a.category == page)
    ensures category.None? && !Truthy(page) ==> a.category == JsString("")
    ensures category.Some? ==> a.page == page
    ensures category.Some? ==>
      a.category == if category.value == JsUndefined then JsString("") else category.value
  {
    if category.None? then Arguments(JsNumber(1), if Truthy(page) then page else JsString(""))
    else Arguments(page, if category.value == JsUndefined then JsString("") else category.value)
  }

  /** The kinds of video `getVideoBy` picks. */
  datatype Category = First | Last | Most | Least | Longest | Shortest | Random

  /** The `switch` of `getVideoBy`: strict equality with one of seven names. */
  function ParseCategory(c: JsValue): (r: Option<Category>)
    ensures r.Some? <==>
      c in {JsString("first"), JsString("last"), JsString("most"), JsString("least"),
            JsString("longest"), JsString("shortest"), JsString("random")}
    ensures c == JsString("first") <==> r == Some(First)
    ensures c == JsString("last") <==> r == Some(Last)
    ensures c == JsString("most") <==> r == Some(Most)
    ensures c == JsString("least") <==> r == Some(Least)
    ensures c == JsString("longest") <==> r == Some(Longest)
    ensures c == JsString("shortest") <==> r == Some(Shortest)
    ensures c == JsString("random") <==> r == Some(Random)
  {
    if c == JsString("first") then Some(First)
    else if c == JsString("last") then Some(Last)
    else if c == JsString("most") then Some(Most)
    else if c == JsString("least") then Some(Least)
    else if c == JsString("longest") then Some(Longest)
    else if c == JsString("shortest") then Some(Shortest)
    else if c == JsString("random") then Some(Random)
    else None
  }

  /** The numeric fields the extremum pickers compare. */
  datatype Field = Views | Seconds

  function FieldOf(v: Video, f: Field): int {
    match f
    case Views => v.views
    case Seconds => v.seconds
  }

  /** `factoryMap(videos, field)`. */
  function Values(videos: seq<Video>, f: Field): (xs: seq<int>)
    ensures |xs| == |videos|
    ensures forall i | 0 <= i < |videos| :: xs[i] == FieldOf(videos[i], f)
  {
    if |videos| == 0 then [] else [FieldOf(videos[0], f)] + Values(videos[1..], f)
  }

  /** `findMax(xs)` on a non-empty list. */
  function MaxOf(xs: seq<int>): (m: int)
    requires |xs| > 0
    ensures m in xs
    ensures forall x | x in xs :: x <= m
  {
    if |xs| == 1 then xs[0]
    else
      var rest := MaxOf(xs[1..]);
      assert forall x | x in xs :: x == xs[0] || x in xs[1..];
      if xs[0] >= rest then xs[0] else rest
  }

  /** `findMin(xs)` on a non-empty list. */
  function MinOf(xs: seq<int>): (m: int)
    requires |xs| > 0
    ensures m in xs
    ensures forall x | x in xs :: m <= x
  {
    if |xs| == 1 then xs[0]
    else
      var rest := MinOf(xs[1..]);
      assert forall x | x in xs :: x == xs[0] || x in xs[1..];
      if xs[0] <= rest then xs[0] else rest
  }

  /** `factoryFind(videos, field, value)`: the index of the first video whose field equals `value`. */
  function FindBy(videos: seq<Video>, f: Field, value: int): (r: Option<nat>)
    ensures r.Some? ==> r.value < |videos| && FieldOf(videos[r.value], f) == value
    ensures r.Some? ==> forall j | 0 <= j < r.value :: FieldOf(videos[j], f) != value
    ensures r.None? ==> forall j | 0 <= j < |videos| :: FieldOf(videos[j], f) != value
  {
    if |videos| == 0 then None
    else if FieldOf(videos[0], f) == value then Some(0)
    else
      var rest := FindBy(videos[1..], f, value);
      if rest.Some? then Some(rest.value + 1) else None
  }

  /** The `{page}` argument the pickers pass: an undefined page is 1 (the default parameter). */
  function PageArg(page: JsValue): map<string, JsValue> {
    map["page" := if page == JsUndefined then JsNumber(1) else page]
  }

  /** Multiplying by a natural number keeps the order. */
  lemma {:induction false} MulMono(a: int, b: int, c: nat)
    requires a <= b
    ensures a * c <= b * c
    decreases c
  {
    if c > 0 {
      MulMono(a, b, c - 1);
      assert a * c == a * (c - 1) + a && b * c == b * (c - 1) + b;
    }
  }

  /** A quotient by `den` of a number below `den * length` is below `length`. */
  lemma DivBelow(x: nat, den: nat, length: nat)
    requires 0 < den && x < den * length
    ensures x / den < length
  {
    var q := x / den;
    assert q * den <= x;
    if q >= length {
      MulMono(length, q, den);
      assert false;
    }
  }

  /** Math.floor(r * length) for a random fraction r = num / den in [0, 1). */
  function RandomIndex(num: nat, den: nat, length: nat): (k: nat)
    requires num < den
    ensures length > 0 ==> k < length
  {
    assert length > 0 ==> (num * length) / den < length by {
      if length > 0 {
        MulMono(num, den - 1, length);
        assert (den - 1) * length == den * length - length;
        DivBelow(num * length, den, length);
      }
    }
    (num * length) / den
  }

  /** A search object; `pages` is what `loadPages` resolved to. */
  class YTSearch {
    const pages: seq<seq<Video>>

    constructor(pages: seq<seq<Video>>)
      ensures this.pages == pages
    {
      this.pages := pages;
    }

    /** `getVideoList(opts)`: the 1-based page after the `page` default; page 0,
        a page past the last and an empty page are errors. */
    function GetVideoList(opts: map<string, JsValue>): (r: Result<seq<Video>, SearchError>)
      ensures r.Success? ==> |r.value| > 0 && exists i :: 0 <= i < |pages| && r.value == pages[i]
      ensures Fill(opts, PageDefaults).error.Some? ==> r == Failure(OptionRejected(Fill(opts, PageDefaults).error.value))
    {
      var f := Fill(opts, PageDefaults);
      if f.error.Some? then Failure(OptionRejected(f.error.value))
      else
        assert "page" in f.props && Acceptable(f.props, PageDefaults[0]) by { FillComplete(opts, PageDefaults, 0); }
        var page := f.props["page"].n;
        if page == 0 then Failure(ZeroPage)
        else if page > |pages| then Failure(PageUnavailable(page, |pages|))
        else if |pages[page - 1]| == 0 then Failure(NoVideos)
        else Success(pages[page - 1])
    }

    /** `getFirstVideo(page)`. */
    function GetFirstVideo(page: JsValue): (r: Result<Video, SearchError>)
      ensures r.Success? <==> GetVideoList(PageArg(page)).Success?
      ensures r.Success? ==> r.value == GetVideoList(PageArg(page)).value[0]
    {
      var videos := GetVideoList(PageArg(page));
      if videos.Failure? then Failure(videos.error) else Success(videos.value[0])
    }

    /** `getLastVideo(page)`. */
    function GetLastVideo(page: JsValue): (r: Result<Video, SearchError>)
      ensures r.Success? <==> GetVideoList(PageArg(page)).Success?
      ensures r.Success? ==>
        var videos := GetVideoList(PageArg(page)).value; r.value == videos[|videos| - 1]
    {
      var videos := GetVideoList(PageArg(page));
      if videos.Failure? then Failure(videos.error) else Success(videos.value[|videos.value| - 1])
    }

    /** The four extremum pickers: the first video of the page whose field is
        the largest (`most`) or the smallest value of that field on the page. */
    function GetVideoByExtreme(page: JsValue, f: Field, most: bool): (r: Result<Video, SearchError>)
      ensures r.Success? <==> GetVideoList(PageArg(page)).Success?
      ensures r.Success? ==>
        var videos := GetVideoList(PageArg(page)).value;
        exists i :: 0 <= i < |videos| && r.value == videos[i] &&
          forall j | 0 <= j < i :: FieldOf(videos[j], f) != FieldOf(videos[i], f)
      ensures r.Success? && most ==>
        forall v | v in GetVideoList(PageArg(page)).value :: FieldOf(v, f) <= FieldOf(r.value, f)
      ensures r.Success? && !most ==>
        forall v | v in GetVideoList(PageArg(page)).value :: FieldOf(r.value, f) <= FieldOf(v, f)
    {
      var videos := GetVideoList(PageArg(page));
      if videos.Failure? then Failure(videos.error)
      else
        var xs := Values(videos.value, f);
        var target := if most then MaxOf(xs) else MinOf(xs);
        var found := FindBy(videos.value, f, target);
        assert found.Some? by {
          var i :| 0 <= i < |xs| && xs[i] == target;
          assert FieldOf(videos.value[i], f) == target;
        }
        var v := videos.value[found.value];
        assert forall w | w in videos.value :: FieldOf(w, f) in xs;
        Success(v)
    }

    /** `getRandomVideo(page)` for a random fraction num / den in [0, 1). */
    function GetRandomVideo(page: JsValue, num: nat, den: nat): (r: Result<Video, SearchError>)
      requires num < den
      ensures r.Success? <==> GetVideoList(PageArg(page)).Success?
      ensures r.Success? ==> r.value in GetVideoList(PageArg(page)).value
    {
      var videos := GetVideoList(PageArg(page));
      if videos.Failure? then Failure(videos.error)
      else Success(videos.value[RandomIndex(num, den, |videos.value|)])
    }

    /** `pickVideo(page, index)`; with one argument (`index` absent) the page is 1
        and the argument is the index. The bound check lets `index == length`
        through, which yields undefined (`None`). */
    function PickVideo(page: JsValue, index: Option<JsValue>): (r: Result<Option<Video>, SearchError>)
      ensures r.Success? ==>
        var videos := GetVideoList(map["page" := if index.None? then JsNumber(1) else page]);
        var idx := if index.None? then page else index.value;
        videos.Success? && idx.JsNumber? && 0 <= idx.n <= |videos.value| &&
        r.value == (if idx.n < |videos.value| then Some(videos.value[idx.n]) else None)
      ensures var videos := GetVideoList(map["page" := if index.None? then JsNumber(1) else page]);
        var idx := if index.None? then page else index.value;
        videos.Success? && idx.JsNumber? && 0 <= idx.n <= |videos.value| ==> r.Success?
    {
      var p := if index.None? then JsNumber(1) else page;
      var idx := if index.None? then page else index.value;
      var videos := GetVideoList(map["page" := p]);
      if videos.Failure? then Failure(videos.error)
      else if !idx.JsNumber? || idx.n > |videos.value| || idx.n < 0 then Failure(BadIndex(|videos.value|))
      else Success(if idx.n < |videos.value| then Some(videos.value[idx.n]) else None)
    }

    /** `pickVideo` with the bound tightened to 0 ≤ index < length, the
        positions that hold a video: every accepted index yields a video of
        the page. */
    function PickVideoChecked(page: JsValue, index: Option<JsValue>): (r: Result<Video, SearchError>)
      ensures r.Success? ==>
        var videos := GetVideoList(map["page" := if index.None? then JsNumber(1) else page]);
        var idx := if index.None? then page else index.value;
        videos.Success? && idx.JsNumber? && 0 <= idx.n < |videos.value| && r.value == videos.value[idx.n]
      ensures r.Failure? ==>
        var videos := GetVideoList(map["page" := if index.None? then JsNumber(1) else page]);
        var idx := if index.None? then page else index.value;
        videos.Failure? || !idx.JsNumber? || idx.n < 0 || idx.n >= |videos.value|
    {
      var p := if index.None? then JsNumber(1) else page;
      var idx := if index.None? then page else index.value;
      var videos := GetVideoList(map["page" := p]);
      if videos.Failure? then Failure(videos.error)
      else if !idx.JsNumber? || idx.n >= |videos.value| || idx.n < 0 then Failure(BadIndex(|videos.value|))
      else Success(videos.value[idx.n])
    }

    /** `getVideoBy(page, category)`; with one argument the page is 1 and the
        argument (or "" when falsy) is the category. */
    function GetVideoBy(page: JsValue, category: Option<JsValue>, num: nat, den: nat): (r: Result<Video, SearchError>)
      requires num < den
      ensures var a := ByArguments(page, category); ParseCategory(a.category).None? ==> r == Failure(BadCategory)
      ensures var a := ByArguments(page, category); a.category == JsString("first") ==> r == GetFirstVideo(a.page)
      ensures var a := ByArguments(page, category); a.category == JsString("last") ==> r == GetLastVideo(a.page)
      ensures var a := ByArguments(page, category);
        a.category == JsString("most") ==> r == GetVideoByExtreme(a.page, Views, true)
      ensures var a := ByArguments(page, category);
        a.category == JsString("least") ==> r == GetVideoByExtreme(a.page, Views, false)
      ensures var a := ByArguments(page, category);
        a.category == JsString("longest") ==> r == GetVideoByExtreme(a.page, Seconds, true)
      ensures var a := ByArguments(page, category);
        a.category == JsString("shortest") ==> r == GetVideoByExtreme(a.page, Seconds, false)
      ensures var a := ByArguments(page, category);
        a.category == JsString("random") ==> r == GetRandomVideo(a.page, num, den)
    {
      var a := ByArguments(page, category);
      match ParseCategory(a.category)
      case None => Failure(BadCategory)
      case Some(First) => GetFirstVideo(a.page)
      case Some(Last) => GetLastVideo(a.page)
      case Some(Most) => GetVideoByExtreme(a.page, Views, true)
      case Some(Least) => GetVideoByExtreme(a.page, Views, false)
      case Some(Longest) => GetVideoByExtreme(a.page, Seconds, true)
      case Some(Shortest) => GetVideoByExtreme(a.page, Seconds, false)
      case Some(Random) => GetRandomVideo(a.page, num, den)
    }
  }

  /** `getVideoList` succeeds for page `p` exactly when `p` names an existing,
      non-empty page, and then yields that page. */
  lemma VideoListIff(s: YTSearch, p: int)
    ensures s.GetVideoList(map["page" := JsNumber(p)]).Success? <==>
      1 <= p <= |s.pages| && |s.pages[p - 1]| > 0
    ensures s.GetVideoList(map["page" := JsNumber(p)]).Success? ==>
      s.GetVideoList(map["page" := JsNumber(p)]).value == s.pages[p - 1]
    ensures p == 0 ==> s.GetVideoList(map["page" := JsNumber(p)]) == Failure(ZeroPage)
  {
    var opts := map["page" := JsNumber(p)];
    if p >= 0 {
      assert Fill(opts, PageDefaults) == Fill(opts, PageDefaults[1..]);
    } else {
      assert Fill(opts, PageDefaults).error.Some?;
    }
  }

  /** A `page` option that is not a number, or is a negative number, is
      rejected by the defaults check before any page is read. */
  lemma VideoListRejects(s: YTSearch, opts: map<string, JsValue>)
    requires "page" in opts && (!opts["page"].JsNumber? || opts["page"].n < 0)
    ensures s.GetVideoList(opts).Failure? && s.GetVideoList(opts).error.OptionRejected?
  {
    assert !Acceptable(opts, PageDefaults[0]);
    FillErrorIff(opts, PageDefaults);
  }

  /** Without a `page` option `getVideoList` reads page 1. */
  lemma VideoListDefault(s: YTSearch)
    ensures s.GetVideoList(map[]) == s.GetVideoList(map["page" := JsNumber(1)])
  {
    assert Fill(map[], PageDefaults) == Fill(map["page" := JsNumber(1)], PageDefaults[1..]);
    assert Fill(map["page" := JsNumber(1)], PageDefaults) == Fill(map["page" := JsNumber(1)], PageDefaults[1..]);
  }

  /** As written, `pickVideo` accepts the index equal to the page length and
      answers undefined instead of rejecting it. */
  lemma PickVideoPastEnd(s: YTSearch)
    requires s.GetVideoList(map["page" := JsNumber(1)]).Success?
    ensures var n := |s.GetVideoList(map["page" := JsNumber(1)]).value|;
      s.PickVideo(JsNumber(n), None) == Success(None) &&
      s.PickVideoChecked(JsNumber(n), None).Failure?
  {
  }

  /** The corrected bound accepts exactly the indices of the page and agrees
      with `pickVideo` on all of them. */
  lemma PickVideoCheckedAgrees(s: YTSearch, page: JsValue, index: Option<JsValue>)
    ensures s.PickVideoChecked(page, index).Success? ==>
      s.PickVideo(page, index) == Success(Some(s.PickVideoChecked(page, index).value))
  {
  }

  /** `new YTSearch(opts)`: the defaults are written into `opts`, a string
      `query` is required, and the pages are loaded from `responses`. */
  method NewSearch(opts: Options, responses: seq<PageResponse>) returns (r: Result<YTSearch, SearchError>)
    requires EnoughResponses(opts.props, responses)
    modifies opts
    ensures opts.props == Fill(old(opts.props), SearchDefaults).props
    ensures r.Success? <==> Configure(old(opts.props)).Success?
    ensures r.Failure? ==> r.error == Configure(old(opts.props)).error
    ensures r.Success? ==> fresh(r.value)
    ensures r.Success? ==> (var c := Configure(old(opts.props)).value;
      r.value.pages == Load(c.query, c.maxPages, c.maxItems, responses, 0, JsUndefined, Loaded([], [])).pages)
  {
    ghost var given := opts.props;
    var error := opts.FactoryOptions(SearchDefaults);
    if error.Some? {
      return Failure(OptionRejected(error.value));
    }
    if "query" !in opts.props {
      return Failure(MissingQuery);
    }
    var query := opts.props["query"];
    if !query.JsString? {
      return Failure(QueryNotString(TypeOf(query)));
    }
    var c := Configure(given);
    assert c.Success? && c.value.query == query.s;
    FillComplete(given, SearchDefaults, 0);
    FillComplete(given, SearchDefaults, 1);
    var maxPages := opts.props["countPages"].n;
    var maxItems := opts.props["countItems"].n;
    assert maxPages == c.value.maxPages && maxItems == c.value.maxItems;
    var pages, _ := LoadPages(query.s, maxPages, maxItems, responses);
    var s := new YTSearch(pages);
    return Success(s);
  }
}
