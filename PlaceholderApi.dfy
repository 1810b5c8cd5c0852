/**
 * The placeholder API's endpoints, the request each one stands for, the
 * partial inverse from requests back to endpoints, and how
 * `fetchUserByUserId` turns a network response into a `Result`.
 */
module PlaceholderApi {
  import opened Wrappers
  import opened Models
  import opened IntText
  import opened StringExtensions

  /** The cases of the `PlaceholderApi` enum. */
  datatype Endpoint = Error | Posts | PostsByUserId(postsUserId: int) | Users | UserByUserId(userId: int)

  const BaseUrl: string := "https://jsonplaceholder.typicode.com"

  /** `URLRequest(url:)`: the request is determined by its URL alone. */
  datatype UrlRequest = UrlRequest(url: UrlComponents)

  /**
   * What `BaseUrl.toUrlComponents(path, queryItems:)` yields once the query
   * dictionary has been enumerated as `items`: the base URL has no path and
   * no query of its own, so the whole base string is its origin.
   */
  function BaseUrlWith(path: string, items: seq<QueryItem>): UrlComponents {
    UrlComponents(BaseUrl, "/" + path, Some(items))
  }

  /** The path argument each case passes to `toUrlComponents`. */
  function PathArgument(e: Endpoint): string {
    match e
    case Error => "error"
    case Posts | PostsByUserId(_) => "posts"
    case Users | UserByUserId(_) => "users"
  }

  /** The query dictionary each case passes to `toUrlComponents`. */
  function QueryArgument(e: Endpoint): map<string, string> {
    match e
    case PostsByUserId(n) => map["userId" := DecimalText(n)]
    case UserByUserId(n) => map["id" := DecimalText(n)]
    case _ => map[]
  }

  /** `rawValue`: the request for an endpoint. */
  function RawValue(e: Endpoint): (r: UrlRequest)
    ensures r.url.origin == BaseUrl
    ensures r.url.path == if e.Error? then "/error" else if e.Posts? || e.PostsByUserId? then "/posts" else "/users"
    ensures r.url.queryItems.Some?
    ensures e.PostsByUserId? ==> r.url.queryItems.value == [QueryItem("userId", DecimalText(e.postsUserId))]
    ensures e.UserByUserId? ==> r.url.queryItems.value == [QueryItem("id", DecimalText(e.userId))]
    ensures e.Error? || e.Posts? || e.Users? ==> r.url.queryItems.value == []
  {
    match e
    case Error => UrlRequest(BaseUrlWith("error", []))
    case Posts => UrlRequest(BaseUrlWith("posts", []))
    case PostsByUserId(n) => UrlRequest(BaseUrlWith("posts", [QueryItem("userId", DecimalText(n))]))
    case Users => UrlRequest(BaseUrlWith("users", []))
    case UserByUserId(n) => UrlRequest(BaseUrlWith("users", [QueryItem("id", DecimalText(n))]))
  }

  /**
   * Whatever order the dictionary is enumerated in, `toUrlComponents` on the
   * base URL with each case's arguments builds exactly `RawValue(e)`'s URL.
   */
  lemma RawValueIsBuiltUrl(e: Endpoint, q: seq<QueryItem>)
    ensures Enumerates(q, QueryArgument(e)) <==> BaseUrlWith(PathArgument(e), q) == RawValue(e).url
  {
    match e
    case PostsByUserId(n) => SingleEntryEnumeration("userId", DecimalText(n), q);
    case UserByUserId(n) => SingleEntryEnumeration("id", DecimalText(n), q);
    case _ => EmptyDictionaryGivesEmptyQuery(q);
  }

  /**
   * `rawValue` computed the way the source does, through `toUrlComponents`;
   * `parse` is Foundation's parser, of which only its result on the base URL
   * matters.
   */
  method BuildRawValue(e: Endpoint, parse: string -> Option<UrlComponents>) returns (r: UrlRequest)
    requires parse(BaseUrl).Some? && parse(BaseUrl).value.origin == BaseUrl
    ensures r == RawValue(e)
  {
    var url := ToUrlComponents(BaseUrl, parse, PathArgument(e), QueryArgument(e));
    RawValueIsBuiltUrl(e, url.queryItems.value);
    r := UrlRequest(url);
  }

  /** `init?(rawValue:)`: only the three cases without a parameter are recognised. */
  function FromRawValue(r: UrlRequest): (e: Option<Endpoint>)
    ensures e.Some? ==> RawValue(e.value) == r
    ensures e.Some? ==> !e.value.PostsByUserId? && !e.value.UserByUserId?
  {
    if r == UrlRequest(BaseUrlWith("error", [])) then Some(Error)
    else if r == UrlRequest(BaseUrlWith("posts", [])) then Some(Posts)
    else if r == UrlRequest(BaseUrlWith("users", [])) then Some(Users)
    else None
  }

  /**
   * The round trip `init?(rawValue: e.rawValue) == e` holds exactly for the
   * cases without a parameter; for the others `init?` gives `nil`.
   */
  lemma RoundTrip(e: Endpoint)
    ensures e.Error? || e.Posts? || e.Users? ==> FromRawValue(RawValue(e)) == Some(e)
    ensures e.PostsByUserId? || e.UserByUserId? ==> FromRawValue(RawValue(e)) == None
  {
  }

  /** `init?(rawValue:)` recognises a request exactly when it is a parameterless case's `rawValue`. */
  lemma FromRawValueExact(r: UrlRequest, e: Endpoint)
    ensures FromRawValue(r) == Some(e) <==> r == RawValue(e) && (e.Error? || e.Posts? || e.Users?)
  {
  }

  /** Distinct endpoints, including distinct user ids, give distinct requests. */
  lemma RawValueInjective(a: Endpoint, b: Endpoint)
    ensures RawValue(a) == RawValue(b) ==> a == b
  {
    if RawValue(a) == RawValue(b) {
      match a
      case PostsByUserId(n) =>
        assert RawValue(b).url.queryItems.value[0].value == DecimalText(n);
        DecimalTextInjective(n, b.postsUserId);
      case UserByUserId(n) =>
        assert RawValue(b).url.queryItems.value[0].value == DecimalText(n);
        DecimalTextInjective(n, b.userId);
      case _ =>
    }
  }

  /** The endpoint `fetchUserByUserId` asks for: the error endpoint when sabotaged. */
  function RequestFor(userId: int, sabotage: bool): (e: Endpoint)
    ensures sabotage ==> RawValue(e).url.path == "/error"
    ensures !sabotage ==> RawValue(e).url == BaseUrlWith("users", [QueryItem("id", DecimalText(userId))])
  {
    if sabotage then Error else UserByUserId(userId)
  }

  /** What the data task hands its completion handler: optional data, optional error. */
  datatype Response<D, E> = Response(data: Option<D>, error: Option<E>)

  /**
   * The completion handler's classification. `decode` stands for decoding an
   * array of users from the data; `None` is a thrown decoding error.
   */
  function Classify<D, E>(response: Response<D, E>, decode: D -> Option<seq<ExampleUser>>): (r: Result<Option<ExampleUser>, CustomError>)
    ensures r == Failure(HoustonWeHaveAProblem) <==> response.data.None? || response.error.Some?
    ensures r == Failure(ParsingWentWrong) <==>
      response.data.Some? && response.error.None? && decode(response.data.value).None?
    ensures r.Success? <==> response.data.Some? && response.error.None? && decode(response.data.value).Some?
    ensures r.Success? ==>
      var users := decode(response.data.value).value;
      r.value == if users == [] then None else Some(users[0])
    ensures r != Failure(MathImpossibility)
  {
    if response.data.None? || response.error.Some? then Failure(HoustonWeHaveAProblem)
    else match decode(response.data.value)
      case None => Failure(ParsingWentWrong)
      case Some(users) => Success(if |users| == 0 then None else Some(users[0]))
  }

  /**
   * `fetchUserByUserId`: the values the (optional) completion handler
   * receives for the one response `respond` gives to the request sent.
   */
  function FetchUserByUserId<D, E>(
    userId: int,
    sabotage: bool,
    hasCompletion: bool,
    respond: UrlRequest -> Response<D, E>,
    decode: D -> Option<seq<ExampleUser>>
  ): (calls: seq<Result<Option<ExampleUser>, CustomError>>)
    ensures |calls| == if hasCompletion then 1 else 0
    ensures hasCompletion ==> calls[0] == Classify(respond(RawValue(RequestFor(userId, sabotage))), decode)
  {
    var response := respond(RawValue(RequestFor(userId, sabotage)));
    if hasCompletion then [Classify(response, decode)] else []
  }

  /** A sabotaged fetch sends the error endpoint's request, whatever the user id. */
  lemma SabotageIgnoresUserId<D, E>(
    a: int, b: int, hasCompletion: bool,
    respond: UrlRequest -> Response<D, E>,
    decode: D -> Option<seq<ExampleUser>>)
    ensures FetchUserByUserId(a, true, hasCompletion, respond, decode) == FetchUserByUserId(b, true, hasCompletion, respond, decode)
  {
  }
}
