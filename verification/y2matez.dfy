/**
 * The `Y2Matez` client of index.js: argument validation, the id parse of a
 * YouTube URL, the success/failure classification of server replies, the
 * query/url state of a client object, the dispatch of `analyze`, the
 * argument checks of `convert` and the format/quality selection of `getInfo`.
 *
 * The HTTP round trips and the search library are not modelled: their
 * outcomes are parameters (`Response` values and a `Detail`), and the
 * endpoint URLs read from the configuration file are constructor parameters.
 * Error messages are modelled by their kind and the values they mention.
 */
module Y2MatezClient {
  import opened Wrappers
  import opened JsValues
  import YoutubeId

  datatype Error =
    | MissingArgument(what: string)                          // ReferenceError "Undefined or missing …"
    | TypeMismatch(name: string, expected: string, given: string)
    | FalsyValue(name: string, value: JsValue)
    | MatchNotAFunction                                       // `.match` on a truthy non-string
    | InvalidYoutubeUrl(url: JsValue)
    | ServerResponse(status: JsValue, loc: string)
    | EmptyResponse(loc: string)
    | NotOk(loc: string)
    | MissingQueryOrUrl
    | MissingField(field: string)
    | SearchFailed
    | FormatRequired
    | FormatUnavailable(ftype: JsValue)
    | QualityUnavailable(auto: bool, quality: JsValue)

  /** The decimal spelling of `n`, which is how an index is written as a property key. */
  function Decimal(n: nat): (s: string)
    ensures |s| > 0 && forall c | c in s :: '0' <= c <= '9'
  {
    var digit := ['0', '1', '2', '3', '4', '5', '6', '7', '8', '9'][n % 10];
    if n < 10 then [digit] else Decimal(n / 10) + [digit]
  }

  /** Whether `key` is the index key of one of the first `length` positions. */
  predicate IsIndexKey(key: string, length: nat) {
    exists i: nat | i < length :: key == Decimal(i)
  }

  /**
   * `hasOwnProperty.call(v, key)` in sloppy mode: null and undefined become
   * the global object, which owns none of the keys used here; a string is
   * boxed and owns its `length` and index keys; a boxed number or boolean
   * owns nothing.
   */
  function HasOwn(v: JsValue, key: string): (r: bool)
    ensures v.JsObject? ==> (r <==> key in v.props)
    ensures v.JsString? ==> (r <==> key == "length" || IsIndexKey(key, |v.s|))
    ensures !v.JsObject? && !v.JsString? ==> !r
  {
    match v
    case JsObject(props) => key in props
    case JsString(s) => key == "length" || IsIndexKey(key, |s|)
    case _ => false
  }

  /** For a key that is neither `length` nor starts with a digit, only an
      object owning it passes `hasOwnProperty`: null, undefined and every
      primitive fail. */
  lemma HasOwnNamed(v: JsValue, key: string)
    requires |key| > 0 && !('0' <= key[0] <= '9') && key != "length"
    ensures HasOwn(v, key) <==> v.JsObject? && key in v.props
  {
    if v.JsString? {
      forall i: nat | i < |v.s| ensures key != Decimal(i) {
        assert Decimal(i)[0] in Decimal(i);
      }
    }
  }

  /** `sameAsType(a, b, name)`: `a` must have the `typeof` of `b` and be truthy. */
  function SameAsType(a: JsValue, b: JsValue, name: string): (r: Result<string, Error>)
    ensures r.Success? <==> TypeOf(a) == TypeOf(b) && Truthy(a)
    ensures r.Success? ==> r.value == TypeOf(a)
    ensures TypeOf(a) != TypeOf(b) ==> r == Failure(TypeMismatch(name, TypeOf(b), TypeOf(a)))
  {
    if TypeOf(a) != TypeOf(b) then Failure(TypeMismatch(name, TypeOf(b), TypeOf(a)))
    else if !Truthy(a) then Failure(FalsyValue(name, a))
    else Success(TypeOf(a))
  }

  /** Checked against a string sample, `sameAsType` accepts exactly the non-empty strings. */
  lemma SameAsStringIff(v: JsValue, sample: string, name: string)
    ensures SameAsType(v, JsString(sample), name).Success? <==> v.JsString? && v.s != ""
  {
  }

  datatype Parsed = Parsed(url: JsValue, videoId: Option<string>)

  /**
   * `parseYoutubeId(url, strict)`: a falsy `url` is matched as "", a truthy
   * non-string has no `match` method. The result echoes `url` unchanged.
   */
  function ParseYoutubeId(url: JsValue, strict: bool): (r: Result<Parsed, Error>)
    ensures r.Success? ==> r.value.url == url
    ensures r.Failure? <==>
      (Truthy(url) && !url.JsString?) ||
      (strict && (!Truthy(url) || YoutubeId.ExtractId(url.s).None?))
    ensures r.Success? && url.JsString? ==> r.value.videoId == YoutubeId.ExtractId(url.s)
    ensures r.Success? && !url.JsString? ==> r.value.videoId.None?
    ensures !Truthy(url) && !strict ==> r == Success(Parsed(url, None))
  {
    if Truthy(url) && !url.JsString? then Failure(MatchNotAFunction)
    else
      var subject := if Truthy(url) then url.s else "";
      var videoId := YoutubeId.ExtractId(subject);
      if videoId.None? && strict then Failure(InvalidYoutubeUrl(url))
      else Success(Parsed(url, videoId))
  }

  /** A reply of the server, or the error object the request was rejected with. */
  datatype Response = ErrorResponse(status: JsValue) | Reply(data: JsValue)

  /** `checkResponse(response, loc)`: an error, then missing data, then a status other than "ok". */
  function CheckResponse(response: Response, loc: string): (r: Option<Error>)
    ensures r.None? <==>
      response.Reply? && Truthy(response.data) && Prop(response.data, "status") == JsString("ok")
    ensures response.ErrorResponse? ==> r == Some(ServerResponse(response.status, loc))
    ensures response.Reply? && !Truthy(response.data) ==> r == Some(EmptyResponse(loc))
    ensures response.Reply? && Truthy(response.data) && Prop(response.data, "status") != JsString("ok") ==>
      r == Some(NotOk(loc))
  {
    if response.ErrorResponse? then Some(ServerResponse(response.status, loc))
    else if !Truthy(response.data) then Some(EmptyResponse(loc))
    else if Prop(response.data, "status") != JsString("ok") then Some(NotOk(loc))
    else None
  }

  /** What `analyze` looks the video up by: the search query or the id from the url. */
  datatype Lookup = ByQuery(query: string) | ById(videoId: string)

  /** The search library's answer: a rejection, or a video with its `url` and `videoId`. */
  datatype Detail = DetailError | Found(url: string, videoId: JsValue)

  datatype AnalyzeInfo = AnalyzeInfo(lookup: Lookup, kQuery: string, data: JsValue, detail: Detail)

  const WatchPrefix: string := "https://www.youtube.com/watch?v="

  predicate Contains(s: string, part: string) {
    exists i: nat | i <= |s| :: YoutubeId.StartsAt(s, i, part)
  }

  /** The URL posted as `k_query`: the detail's own url when it contains "http",
      else a watch URL built from the video id (`false` on the query path). */
  function FinalUrl(lookup: Lookup, detailUrl: string): (u: string)
    ensures Contains(detailUrl, "http") ==> u == detailUrl
    ensures !Contains(detailUrl, "http") && lookup.ById? ==> u == WatchPrefix + lookup.videoId
    ensures !Contains(detailUrl, "http") && lookup.ByQuery? ==> u == WatchPrefix + "false"
  {
    if Contains(detailUrl, "http") then detailUrl
    else WatchPrefix + (if lookup.ById? then lookup.videoId else "false")
  }

  /** One catalog entry picked by `getInfo`. */
  datatype Choice = Choice(index: nat, token: JsValue, q: JsValue, qText: JsValue, size: JsValue)

  /** The quality `getInfo` looks for: a falsy quality is "auto", and "auto"
      is 360p for mp4, 128kbps for mp3 and stays "auto" otherwise. */
  function SelectQuality(ftype: JsValue, fquality: JsValue): (q: JsValue)
    ensures !Truthy(fquality) || fquality == JsString("auto") ==>
      q == (if ftype == JsString("mp4") then JsString("360p")
            else if ftype == JsString("mp3") then JsString("128kbps")
            else JsString("auto"))
    ensures Truthy(fquality) && fquality != JsString("auto") ==> q == fquality
  {
    var fq := if Truthy(fquality) then fquality else JsString("auto");
    if fq == JsString("auto") then
      if ftype == JsString("mp4") then JsString("360p")
      else if ftype == JsString("mp3") then JsString("128kbps")
      else fq
    else fq
  }

  predicate IsAuto(fquality: JsValue) {
    !Truthy(fquality) || fquality == JsString("auto")
  }

  /** Index of the first entry whose `q` is `quality`, if any (`Array.prototype.find`). */
  function FindQuality(entries: seq<JsValue>, quality: JsValue): (r: Option<nat>)
    ensures r.Some? ==> r.value < |entries| && Prop(entries[r.value], "q") == quality
    ensures r.Some? ==> forall j :: 0 <= j < r.value ==> Prop(entries[j], "q") != quality
    ensures r.None? ==> forall j :: 0 <= j < |entries| ==> Prop(entries[j], "q") != quality
  {
    if |entries| == 0 then None
    else if Prop(entries[0], "q") == quality then Some(0)
    else
      var rest := FindQuality(entries[1..], quality);
      if rest.Some? then Some(rest.value + 1) else None
  }

  /**
   * The selection of `getInfo`: `links` maps each format to its entries in
   * enumeration order. The format must be a key (no other format is tried),
   * and the first entry whose `q` equals the selected quality is taken.
   */
  function Select(links: map<string, seq<JsValue>>, ftype: JsValue, fquality: JsValue): (r: Result<Choice, Error>)
    ensures r.Success? ==>
      ftype.JsString? && ftype.s in links && r.value.index < |links[ftype.s]|
    ensures r.Success? ==>
      var e := links[ftype.s][r.value.index];
      r.value.q == Prop(e, "q") == SelectQuality(ftype, fquality) &&
      r.value.token == Prop(e, "k") && r.value.qText == Prop(e, "q_text") && r.value.size == Prop(e, "size")
    ensures !(ftype.JsString? && ftype.s in links) ==> r == Failure(FormatUnavailable(ftype))
  {
    if !(ftype.JsString? && ftype.s in links) then Failure(FormatUnavailable(ftype))
    else
      var entries := links[ftype.s];
      var quality := SelectQuality(ftype, fquality);
      var found := FindQuality(entries, quality);
      if found.None? then Failure(QualityUnavailable(IsAuto(fquality), quality))
      else
        var e := entries[found.value];
        Success(Choice(found.value, Prop(e, "k"), Prop(e, "q"), Prop(e, "q_text"), Prop(e, "size")))
  }

  /** Selection succeeds exactly when the format is a key and some entry carries the selected quality. */
  lemma SelectIff(links: map<string, seq<JsValue>>, ftype: JsValue, fquality: JsValue)
    ensures Select(links, ftype, fquality).Success? <==>
      ftype.JsString? && ftype.s in links &&
      exists j :: 0 <= j < |links[ftype.s]| && Prop(links[ftype.s][j], "q") == SelectQuality(ftype, fquality)
  {
    if ftype.JsString? && ftype.s in links {
      var entries := links[ftype.s];
      var found := FindQuality(entries, SelectQuality(ftype, fquality));
      if found.Some? {
        assert Prop(entries[found.value], "q") == SelectQuality(ftype, fquality);
      }
    }
  }

  /** The chosen entry is the first one in catalog order with the selected quality. */
  lemma SelectFirst(links: map<string, seq<JsValue>>, ftype: JsValue, fquality: JsValue, j: nat)
    requires Select(links, ftype, fquality).Success?
    requires j < Select(links, ftype, fquality).value.index
    ensures Prop(links[ftype.s][j], "q") != SelectQuality(ftype, fquality)
  {
  }

  /** A falsy quality behaves exactly like "auto". */
  lemma FalsyQualityIsAuto(links: map<string, seq<JsValue>>, ftype: JsValue, fquality: JsValue)
    requires !Truthy(fquality)
    ensures Select(links, ftype, fquality) == Select(links, ftype, JsString("auto"))
  {
  }

  /** The arguments `convert` posts: `videoId` and `token`, both own properties
      holding non-empty strings, checked in that order. */
  function ConvertArgs(info: JsValue): (r: Result<(string, string), Error>)
    ensures r.Success? <==>
      info.JsObject? && "videoId" in info.props && "token" in info.props &&
      info.props["videoId"].JsString? && info.props["videoId"].s != "" &&
      info.props["token"].JsString? && info.props["token"].s != ""
    ensures r.Success? ==> r.value == (info.props["videoId"].s, info.props["token"].s)
    ensures !(info.JsObject? && "videoId" in info.props) ==> r == Failure(MissingField("videoId"))
    ensures info.JsObject? && "videoId" in info.props && "token" !in info.props ==> r == Failure(MissingField("token"))
  {
    HasOwnNamed(info, "videoId");
    HasOwnNamed(info, "token");
    if !HasOwn(info, "videoId") then Failure(MissingField("videoId"))
    else if !HasOwn(info, "token") then Failure(MissingField("token"))
    else
      var videoId := Prop(info, "videoId");
      var token := Prop(info, "token");
      var c1 := SameAsType(videoId, JsString(""), "videoId");
      if c1.Failure? then Failure(c1.error)
      else
        var c2 := SameAsType(token, JsString(""), "token");
        if c2.Failure? then Failure(c2.error)
        else Success((videoId.s, token.s))
  }

  /** Text `analyze` takes as a url: a string with a video id in it. */
  predicate IsUrlText(text: JsValue) {
    text.JsString? && YoutubeId.ExtractId(text.s).Some?
  }

  /** Text `analyze` takes as a search query: a non-empty string without a video id. */
  predicate IsQueryText(text: JsValue) {
    text.JsString? && text.s != "" && YoutubeId.ExtractId(text.s).None?
  }

  /** The state a client object keeps between calls. */
  class Y2Matez {
    var query: JsValue
    var url: JsValue
    var nourl: JsValue
    const analyzeUrl: string
    const convertUrl: string

    /** Only null or a non-empty string is ever stored in `query` or `url`, and
        a stored url always carries a video id. */
    predicate Valid()
      reads this
    {
      (query.JsNull? || (query.JsString? && query.s != "")) &&
      (url.JsNull? || (url.JsString? && YoutubeId.ExtractId(url.s).Some?))
    }

    /** The field initialisation of the constructor; `nourl` is not set. */
    constructor(analyzeUrl: string, convertUrl: string)
      ensures query == JsNull && url == JsNull && nourl == JsUndefined
      ensures this.analyzeUrl == analyzeUrl && this.convertUrl == convertUrl
      ensures Valid()
    {
      query := JsNull;
      url := JsNull;
      nourl := JsUndefined;
      this.analyzeUrl := analyzeUrl;
      this.convertUrl := convertUrl;
    }

    /** `useQuery(query)`: a non-empty string becomes the query; `url` is untouched. */
    method UseQuery(q: Option<JsValue>) returns (e: Option<Error>)
      requires Valid()
      modifies this
      ensures Valid()
      ensures e.None? <==> q.Some? && q.value.JsString? && q.value.s != ""
      ensures q.None? ==> e == Some(MissingArgument("query"))
      ensures e.None? ==> query == q.value && nourl == JsBool(true)
      ensures e.Some? ==> query == old(query) && nourl == old(nourl)
      ensures url == old(url)
    {
      if q.None? {
        return Some(MissingArgument("query"));
      }
      var check := SameAsType(q.value, JsString(""), "query");
      if check.Failure? {
        return Some(check.error);
      }
      query := q.value;
      nourl := JsBool(true);
      return None;
    }

    /** `useUrl(url)`: a non-empty string with a video id is stored as given
        (not the id); `query` is untouched. */
    method UseUrl(u: Option<JsValue>) returns (e: Option<Error>)
      requires Valid()
      modifies this
      ensures Valid()
      ensures e.None? <==>
        u.Some? && u.value.JsString? && u.value.s != "" && YoutubeId.ExtractId(u.value.s).Some?
      ensures u.None? ==> e == Some(MissingArgument("url"))
      ensures e.None? ==> url == u.value && nourl == JsBool(false)
      ensures e.Some? ==> url == old(url) && nourl == old(nourl)
      ensures query == old(query)
    {
      if u.None? {
        return Some(MissingArgument("url"));
      }
      var check := SameAsType(u.value, JsString(""), "url");
      if check.Failure? {
        return Some(check.error);
      }
      var parsed := ParseYoutubeId(u.value, true);
      if parsed.Failure? {
        return Some(parsed.error);
      }
      url := parsed.value.url;
      nourl := JsBool(false);
      return None;
    }

    /** `checkRequired()`: fails exactly when neither a query nor a url is set. */
    function CheckRequired(): (r: Option<Error>)
      reads this
      ensures r.Some? <==> query == JsNull && url == JsNull
      ensures r.Some? ==> r.value == MissingQueryOrUrl
    {
      if query == JsNull && url == JsNull then Some(MissingQueryOrUrl) else None
    }

    /** The lookup `analyze` performs in the current state: the query wins over the url. */
    function CurrentLookup(): (l: Lookup)
      reads this
      requires Valid() && CheckRequired().None?
      ensures query.JsString? ==> l == ByQuery(query.s)
      ensures query.JsNull? ==> l.ById? && url.JsString? && YoutubeId.ExtractId(url.s) == Some(l.videoId)
    {
      if query.JsString? then ByQuery(query.s)
      else ById(YoutubeId.ExtractId(url.s).value)
    }

    /** The input part of `analyze(text)`: text with a video id is used as the
        url, any other text as the query. */
    method TakeText(text: JsValue) returns (e: Option<Error>)
      requires Valid()
      modifies this
      ensures Valid()
      ensures Truthy(text) && !text.JsString? ==> e == Some(MatchNotAFunction)
      ensures IsUrlText(text) ==>
        e.None? && url == text && nourl == JsBool(false) && query == old(query)
      ensures IsQueryText(text) ==>
        e.None? && query == text && nourl == JsBool(true) && url == old(url)
      ensures e.Some? ==> query == old(query) && url == old(url) && nourl == old(nourl)
      ensures !Truthy(text) ==> e.Some?
    {
      var parsed := ParseYoutubeId(text, false);
      if parsed.Failure? {
        return Some(parsed.error);
      }
      if parsed.value.videoId.Some? {
        e := UseUrl(Some(parsed.value.url));
      } else {
        e := UseQuery(Some(text));
      }
    }

    /**
     * `analyze(text)` up to the analyze request and its reply: the optional
     * text is taken in, a query or url must be set, the video is looked up
     * (`detail` is the search library's answer to that lookup), the URL to
     * post is built, and `page` is the server's reply.
     */
    method Analyze(text: Option<JsValue>, detail: Detail, page: Response) returns (r: Result<AnalyzeInfo, Error>)
      requires Valid()
      modifies this
      ensures Valid()
      ensures text.None? ==> query == old(query) && url == old(url) && nourl == old(nourl)
      ensures text.Some? && IsUrlText(text.value) ==>
        url == text.value && nourl == JsBool(false) && query == old(query)
      ensures text.Some? && IsQueryText(text.value) ==>
        query == text.value && nourl == JsBool(true) && url == old(url)
      ensures r.Success? ==> CheckRequired().None? && r.value.lookup == CurrentLookup()
      ensures r.Success? && old(query).JsString? && !(text.Some? && IsQueryText(text.value)) ==>
        r.value.lookup == ByQuery(old(query).s)
      ensures r.Success? ==> detail.Found? && r.value.detail == detail && r.value.kQuery == FinalUrl(r.value.lookup, detail.url)
      ensures r.Success? ==> CheckResponse(page, "payload{v1}").None? && r.value.data == page.data
      ensures text.None? && old(CheckRequired()).Some? ==> r == Failure(MissingQueryOrUrl)
      ensures text.Some? && !IsUrlText(text.value) && !IsQueryText(text.value) ==>
        r.Failure? && query == old(query) && url == old(url) && nourl == old(nourl)
      ensures ((text.None? ==> old(CheckRequired()).None?) &&
               (text.Some? ==> IsUrlText(text.value) || IsQueryText(text.value)) &&
               detail.Found? && CheckResponse(page, "payload{v1}").None?) ==> r.Success?
    {
      if text.Some? {
        var e := TakeText(text.value);
        if e.Some? {
          return Failure(e.value);
        }
      }
      var missing := CheckRequired();
      if missing.Some? {
        return Failure(missing.value);
      }
      var lookup := CurrentLookup();
      if detail.DetailError? {
        return Failure(SearchFailed);
      }
      var kQuery := FinalUrl(lookup, detail.url);
      var bad := CheckResponse(page, "payload{v1}");
      if bad.Some? {
        return Failure(bad.value);
      }
      return Success(AnalyzeInfo(lookup, kQuery, page.data, detail));
    }

    /**
     * `getInfo(ftype, fquality)`: a format is required; the stored query or
     * url is analyzed; the first catalog entry of the format with the selected
     * quality gives the token that `convert` posts with the detail's video id.
     * `links` is the catalog of the analyze reply, `convertPage` the reply
     * to the convert request.
     */
    method GetInfo(ftype: Option<JsValue>, fquality: JsValue, detail: Detail, page: Response,
                   links: map<string, seq<JsValue>>, convertPage: Response)
      returns (r: Result<(AnalyzeInfo, Choice, JsValue), Error>)
      requires Valid()
      modifies this
      ensures query == old(query) && url == old(url) && nourl == old(nourl)
      ensures ftype.None? ==> r == Failure(FormatRequired)
      ensures r.Success? ==> CheckRequired().None? && r.value.0.lookup == CurrentLookup()
      ensures r.Success? ==> r.value.0.detail == detail && detail.Found? && r.value.0.kQuery == FinalUrl(r.value.0.lookup, detail.url)
      ensures r.Success? ==> CheckResponse(page, "payload{v1}").None? && r.value.0.data == page.data
      ensures r.Success? ==> ftype.Some? && Select(links, ftype.value, fquality) == Success(r.value.1)
      ensures r.Success? ==> CheckResponse(convertPage, "payload{v2}").None? && r.value.2 == convertPage.data
      ensures r.Success? ==> (r.value.0.detail.Found? &&
        ConvertArgs(JsObject(map["videoId" := r.value.0.detail.videoId, "token" := r.value.1.token])).Success?)
      ensures (ftype.Some? && CheckRequired().None? && detail.Found? &&
               CheckResponse(page, "payload{v1}").None? && Select(links, ftype.value, fquality).Success? &&
               ConvertArgs(JsObject(map["videoId" := detail.videoId,
                                        "token" := Select(links, ftype.value, fquality).value.token])).Success? &&
               CheckResponse(convertPage, "payload{v2}").None?) ==> r.Success?
    {
      if ftype.None? {
        return Failure(FormatRequired);
      }
      var info := Analyze(None, detail, page);
      if info.Failure? {
        return Failure(info.error);
      }
      var choice := Select(links, ftype.value, fquality);
      if choice.Failure? {
        return Failure(choice.error);
      }
      var args := ConvertArgs(JsObject(map["videoId" := info.value.detail.videoId, "token" := choice.value.token]));
      if args.Failure? {
        return Failure(args.error);
      }
      var bad := CheckResponse(convertPage, "payload{v2}");
      if bad.Some? {
        return Failure(bad.value);
      }
      return Success((info.value, choice.value, convertPage.data));
    }
  }

  /** `new Y2Matez(opts)`: a `query` option goes through `useQuery`, then a
      `url` option through `useUrl`; either can throw. Options that are not
      an object (the absent default included) own neither key. */
  method NewClient(opts: JsValue, analyzeUrl: string, convertUrl: string)
    returns (r: Result<Y2Matez, Error>)
    ensures r.Success? ==> fresh(r.value) && r.value.Valid()
    ensures r.Success? ==> r.value.analyzeUrl == analyzeUrl && r.value.convertUrl == convertUrl
    ensures r.Success? && opts.JsObject? && "query" in opts.props ==> r.value.query == opts.props["query"]
    ensures r.Success? && !(opts.JsObject? && "query" in opts.props) ==> r.value.query == JsNull
    ensures r.Success? && opts.JsObject? && "url" in opts.props ==> r.value.url == opts.props["url"]
    ensures r.Success? && !(opts.JsObject? && "url" in opts.props) ==> r.value.url == JsNull
    ensures r.Success? ==>
      r.value.nourl == (if opts.JsObject? && "url" in opts.props then JsBool(false)
                        else if opts.JsObject? && "query" in opts.props then JsBool(true)
                        else JsUndefined)
    ensures r.Success? <==>
      !opts.JsObject? ||
      (("query" in opts.props ==> opts.props["query"].JsString? && opts.props["query"].s != "") &&
       ("url" in opts.props ==>
          opts.props["url"].JsString? && opts.props["url"].s != "" && YoutubeId.ExtractId(opts.props["url"].s).Some?))
  {
    HasOwnNamed(opts, "query");
    HasOwnNamed(opts, "url");
    var c := new Y2Matez(analyzeUrl, convertUrl);
    if HasOwn(opts, "query") {
      var e := c.UseQuery(Some(Prop(opts, "query")));
      if e.Some? {
        return Failure(e.value);
      }
    }
    if HasOwn(opts, "url") {
      var e := c.UseUrl(Some(Prop(opts, "url")));
      if e.Some? {
        return Failure(e.value);
      }
    }
    return Success(c);
  }
}
