/**
  `REST(path)`: the six request builders of an entity's HTTP API, as pure
  request descriptors. The base URL is an opaque parameter and the HTTP
  transport a function from request to exchange.
 */
module RestApi {
  import opened JsValue

  /** The property names of the object `REST(path)` returns. */
  datatype Operation = Create | GetMany | GetOne | Delete | Update | Patch

  function OperationName(op: Operation): string {
    match op
    case Create => "create"
    case GetMany => "getMany"
    case GetOne => "getOne"
    case Delete => "delete"
    case Update => "update"
    case Patch => "patch"
  }

  /** The operations that address one member, `base/path/id`. */
  predicate AddressesMember(op: Operation) {
    op != Create && op != GetMany
  }

  datatype Verb = HttpGet | HttpPost | HttpPut | HttpPatch | HttpDelete

  /** The `params` argument: an object, or absent (`undefined`). */
  type Params = Option<map<string, Value>>

  /** What axios is asked to send: query parameters and body are absent or an object. */
  datatype Request = Request(verb: Verb, url: string, query: Params, body: Params)

  function CollectionUrl(base: string, path: string): string {
    base + "/" + path
  }

  function MemberUrl(base: string, path: string, id: Value): string {
    CollectionUrl(base, path) + "/" + ToJsString(id)
  }

  /** `params.id`, or the `id` of `const { id, ...rest } = params`. */
  function IdOf(p: map<string, Value>): Value {
    if "id" in p then p["id"] else Undefined
  }

  /** The `rest` of `const { id, ...rest } = params`. */
  function WithoutId(p: map<string, Value>): (rest: map<string, Value>)
    ensures "id" !in rest
    ensures rest.Keys == p.Keys - {"id"}
    ensures forall k :: k in rest ==> rest[k] == p[k]
  {
    p - {"id"}
  }

  /** `create`: POST to the collection, the params as body. */
  function BuildCreate(base: string, path: string, params: Params): (r: Request)
    ensures r.verb == HttpPost && r.url == CollectionUrl(base, path)
    ensures r.body == params && r.query.None?
  {
    Request(HttpPost, CollectionUrl(base, path), None, params)
  }

  /** `getMany`: GET on the collection, the params as query. */
  function BuildGetMany(base: string, path: string, params: Params): (r: Request)
    ensures r.verb == HttpGet && r.url == CollectionUrl(base, path)
    ensures r.query == params && r.body.None?
  {
    Request(HttpGet, CollectionUrl(base, path), params, None)
  }

  /** `getOne`: GET on the member; the id goes into the URL and every other param into the query. */
  function BuildGetOne(base: string, path: string, params: Params): (r: Result<Request>)
    ensures r.Err? <==> params.None?
    ensures r.Err? ==> r.thrown == TypeError
    ensures r.Ok? ==> r.value.verb == HttpGet && r.value.url == MemberUrl(base, path, IdOf(params.value))
    ensures r.Ok? ==> r.value.body.None? && r.value.query.Some?
    ensures r.Ok? ==> "id" !in r.value.query.value && r.value.query.value.Keys == params.value.Keys - {"id"}
    ensures r.Ok? ==> forall k :: k in r.value.query.value ==> r.value.query.value[k] == params.value[k]
  {
    match params
    case None => Err(TypeError)  // destructuring undefined
    case Some(p) => Ok(Request(HttpGet, MemberUrl(base, path, IdOf(p)), Some(WithoutId(p)), None))
  }

  /** `delete`: DELETE on the member, with the full params, `id` included, as query. */
  function BuildDelete(base: string, path: string, params: Params): (r: Result<Request>)
    ensures r.Err? <==> params.None?
    ensures r.Err? ==> r.thrown == TypeError
    ensures r.Ok? ==> r.value.verb == HttpDelete && r.value.url == MemberUrl(base, path, IdOf(params.value))
    ensures r.Ok? ==> r.value.query == params && r.value.body.None?
  {
    match params
    case None => Err(TypeError)  // reading `params.id` of undefined
    case Some(p) => Ok(Request(HttpDelete, MemberUrl(base, path, IdOf(p)), params, None))
  }

  /** `update`: PUT on the member, the full params as body. */
  function BuildUpdate(base: string, path: string, params: Params): (r: Result<Request>)
    ensures r.Err? <==> params.None?
    ensures r.Err? ==> r.thrown == TypeError
    ensures r.Ok? ==> r.value.verb == HttpPut && r.value.url == MemberUrl(base, path, IdOf(params.value))
    ensures r.Ok? ==> r.value.body == params && r.value.query.None?
  {
    match params
    case None => Err(TypeError)  // reading `params.id` of undefined
    case Some(p) => Ok(Request(HttpPut, MemberUrl(base, path, IdOf(p)), None, params))
  }

  /** `patch`: PATCH on the member, every param but `id` as body. */
  function BuildPatch(base: string, path: string, params: Params): (r: Result<Request>)
    ensures r.Err? <==> params.None?
    ensures r.Err? ==> r.thrown == TypeError
    ensures r.Ok? ==> r.value.verb == HttpPatch && r.value.url == MemberUrl(base, path, IdOf(params.value))
    ensures r.Ok? ==> r.value.query.None? && r.value.body.Some?
    ensures r.Ok? ==> "id" !in r.value.body.value && r.value.body.value.Keys == params.value.Keys - {"id"}
    ensures r.Ok? ==> forall k :: k in r.value.body.value ==> r.value.body.value[k] == params.value[k]
  {
    match params
    case None => Err(TypeError)  // destructuring undefined
    case Some(p) => Ok(Request(HttpPatch, MemberUrl(base, path, IdOf(p)), None, Some(WithoutId(p))))
  }

  /** The axios method each operation calls. */
  function VerbOf(op: Operation): Verb {
    match op
    case Create => HttpPost
    case GetMany => HttpGet
    case GetOne => HttpGet
    case Delete => HttpDelete
    case Update => HttpPut
    case Patch => HttpPatch
  }

  /** `REST(path)[op](params)` up to the point where axios is called. */
  function Build(base: string, path: string, op: Operation, params: Params): (r: Result<Request>)
    ensures r.Err? <==> AddressesMember(op) && params.None?
    ensures r.Ok? ==> r.value.verb == VerbOf(op)
    ensures r.Ok? && (op == Create || op == Update) ==> r.value.body == params && r.value.query.None?
    ensures r.Ok? && (op == GetMany || op == Delete) ==> r.value.query == params && r.value.body.None?
    ensures r.Ok? && op == GetOne ==> r.value.query == Some(WithoutId(params.value)) && r.value.body.None?
    ensures r.Ok? && op == Patch ==> r.value.body == Some(WithoutId(params.value)) && r.value.query.None?
    ensures r.Ok? && AddressesMember(op) ==> r.value.url == MemberUrl(base, path, IdOf(params.value))
    ensures r.Ok? && !AddressesMember(op) ==> r.value.url == CollectionUrl(base, path)
  {
    match op
    case Create => Ok(BuildCreate(base, path, params))
    case GetMany => Ok(BuildGetMany(base, path, params))
    case GetOne => BuildGetOne(base, path, params)
    case Delete => BuildDelete(base, path, params)
    case Update => BuildUpdate(base, path, params)
    case Patch => BuildPatch(base, path, params)
  }

  /** An HTTP response as axios reports it. */
  datatype Response = Response(status: int, statusText: string, data: Value)

  /**
    How the transport settles a request: a 2xx answer, a non-2xx answer
    (axios rejects with `err.response` set), or no answer at all.
   */
  datatype Exchange = Answered(response: Response) | Refused(response: Response) | Unanswered

  /** How the promise an API function returns settles. */
  datatype Reply = Resolved(value: Value) | Failed(response: Option<Response>)

  /**
    Calling `REST(path)[op](params)`: a request that cannot be built throws
    before any transport (the error has no `response`); otherwise the reply
    is the transport's, with `.then(response => response.data)` applied.
   */
  function Call(base: string, path: string, op: Operation, params: Params, transport: Request -> Exchange): Reply {
    match Build(base, path, op, params)
    case Err(_) => Failed(None)
    case Ok(req) =>
      match transport(req)
      case Answered(resp) => Resolved(resp.data)
      case Refused(resp) => Failed(Some(resp))
      case Unanswered => Failed(None)
  }

  /** Every operation yields the body of a 2xx response, unwrapped one level. */
  lemma CallYieldsResponseData(base: string, path: string, op: Operation, params: Params, transport: Request -> Exchange)
    ensures var r := Call(base, path, op, params, transport);
      && (r.Resolved? <==> Build(base, path, op, params).Ok? && transport(Build(base, path, op, params).value).Answered?)
      && (r.Resolved? ==> r.value == transport(Build(base, path, op, params).value).response.data)
      && (r.Failed? && r.response.Some? ==> transport(Build(base, path, op, params).value) == Refused(r.response.value))
  {
  }

  /**
    The four member operations address the same URL, which is the collection
    URL followed by `/` and the id's text.
   */
  lemma MemberOperationsShareUrl(base: string, path: string, p: map<string, Value>, op1: Operation, op2: Operation)
    requires AddressesMember(op1) && AddressesMember(op2)
    ensures Build(base, path, op1, Some(p)).Ok? && Build(base, path, op2, Some(p)).Ok?
    ensures Build(base, path, op1, Some(p)).value.url == Build(base, path, op2, Some(p)).value.url
    ensures var url := Build(base, path, op1, Some(p)).value.url;
      var prefix := Build(base, path, Create, Some(p)).value.url + "/";
      url[..|prefix|] == prefix && url[|prefix|..] == ToJsString(IdOf(p))
  {
  }

  /**
    What `getOne` and `patch` strip from the params is exactly the `id` that
    went into the URL: putting it back restores the params.
   */
  lemma StrippedParamsRestore(base: string, path: string, p: map<string, Value>)
    requires "id" in p
    ensures var q := BuildGetOne(base, path, Some(p)).value.query.value;
      q["id" := IdOf(p)] == p
    ensures var b := BuildPatch(base, path, Some(p)).value.body.value;
      b["id" := IdOf(p)] == p
    ensures BuildDelete(base, path, Some(p)).value.query.value == BuildGetOne(base, path, Some(p)).value.query.value["id" := IdOf(p)]
  {
  }

  /** Without an `id` param the member URL ends in the text `undefined`. */
  lemma MissingIdAddressesUndefined(base: string, path: string, p: map<string, Value>, op: Operation)
    requires AddressesMember(op) && "id" !in p
    ensures Build(base, path, op, Some(p)).Ok?
    ensures Build(base, path, op, Some(p)).value.url == base + "/" + path + "/undefined"
  {
  }
}
