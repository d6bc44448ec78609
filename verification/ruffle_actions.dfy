/**
  The async-action half of `Ruffle`: action-type naming, the thunk that calls
  an entity's API and turns a failed call into a normalised error payload,
  the error guard `throwIfError`, and `unwrapAsyncResponse`.
 */
module RuffleActions {
  import opened JsValue
  import opened RestApi

  /**
    The thunk `Ruffle.async(sliceName, eventName)` creates; the shortcuts
    `Ruffle.create`, `Ruffle.getMany`, .. fix the event to one operation name.
   */
  datatype AsyncAction = AsyncAction(slice: string, event: Operation)

  /** The type prefix `${sliceName}/${eventName}` of the thunk's actions. */
  function ActionType(a: AsyncAction): string {
    a.slice + "/" + OperationName(a.event)
  }

  /** The type of the action dispatched when the thunk's payload creator returns. */
  function FulfilledType(a: AsyncAction): string {
    ActionType(a) + "/fulfilled"
  }

  /** The type of the action dispatched when the thunk's payload creator throws. */
  function RejectedType(a: AsyncAction): string {
    ActionType(a) + "/rejected"
  }

  /** A dispatched action. */
  datatype Action = Action(actionType: string, payload: Value)

  /** `s.indexOf(c)`: the first position of `c`, or -1. */
  function IndexOf(s: string, c: char): (i: int)
    ensures -1 <= i < |s|
    ensures i == -1 <==> c !in s
    ensures 0 <= i ==> s[i] == c
    ensures forall k :: 0 <= k < i ==> s[k] != c
  {
    if s == [] then -1
    else if s[0] == c then 0
    else
      var j := IndexOf(s[1..], c);
      if j == -1 then -1 else j + 1
  }

  /** The slice name read back from an action type: `type.substring(0, type.indexOf('/'))`. */
  function SliceOfType(t: string): string {
    var i := IndexOf(t, '/');
    // substring clamps a negative end to 0
    if i < 0 then "" else t[..i]
  }

  lemma IndexOfAfterPrefix(s: string, rest: string)
    requires '/' !in s
    ensures IndexOf(s + "/" + rest, '/') == |s|
  {
    var t := s + "/" + rest;
    assert t[|s|] == '/';
    assert forall k :: 0 <= k < |s| ==> t[k] == s[k];
  }

  /** Reading the slice name back from any of a thunk's action types recovers the slice. */
  lemma {:induction false} SliceOfTypeRoundTrip(a: AsyncAction)
    requires '/' !in a.slice
    ensures SliceOfType(ActionType(a)) == a.slice
    ensures SliceOfType(FulfilledType(a)) == a.slice
    ensures SliceOfType(RejectedType(a)) == a.slice
  {
    IndexOfAfterPrefix(a.slice, OperationName(a.event));
    IndexOfAfterPrefix(a.slice, OperationName(a.event) + "/fulfilled");
    assert FulfilledType(a) == a.slice + "/" + (OperationName(a.event) + "/fulfilled");
    IndexOfAfterPrefix(a.slice, OperationName(a.event) + "/rejected");
    assert RejectedType(a) == a.slice + "/" + (OperationName(a.event) + "/rejected");
  }

  lemma OperationNameShape(op: Operation)
    ensures '/' !in OperationName(op)
    ensures forall op' :: OperationName(op') == OperationName(op) ==> op' == op
  {
  }

  lemma NoSlashAfterSeparator(s: string, n: string)
    requires '/' !in n
    ensures forall q :: |s| < q < |s + "/" + n| ==> (s + "/" + n)[q] != '/'
  {
    var t := s + "/" + n;
    forall q | |s| < q < |t|
      ensures t[q] != '/'
    {
      assert t[q] == n[q - |s| - 1];
    }
  }

  /** A `/`-free suffix after the last `/` splits a string in one way only. */
  lemma SplitAtLastSlash(s1: string, n1: string, s2: string, n2: string)
    requires s1 + "/" + n1 == s2 + "/" + n2
    requires '/' !in n1 && '/' !in n2
    ensures s1 == s2 && n1 == n2
  {
    var t := s1 + "/" + n1;
    NoSlashAfterSeparator(s1, n1);
    NoSlashAfterSeparator(s2, n2);
    assert t[|s1|] == '/' && t[|s2|] == '/';
    assert |s1| == |s2|;
    assert s1 == t[..|s1|] == s2;
    assert n1 == t[|s1| + 1..] == n2;
  }

  /**
    Two thunks share an action type only if they are the same thunk, even
    when slice names contain `/`: the event name is the text after the last `/`.
   */
  lemma ActionTypeInjective(a: AsyncAction, b: AsyncAction)
    requires ActionType(a) == ActionType(b)
    ensures a == b
  {
    OperationNameShape(a.event);
    OperationNameShape(b.event);
    SplitAtLastSlash(a.slice, OperationName(a.event), b.slice, OperationName(b.event));
  }

  /** Each thunk's fulfilled type is its own, and never some thunk's rejected type. */
  lemma SettledTypesDistinct(a: AsyncAction, b: AsyncAction)
    ensures FulfilledType(a) == FulfilledType(b) ==> a == b
    ensures FulfilledType(a) != RejectedType(b)
  {
    var fa, fb, rb := FulfilledType(a), FulfilledType(b), RejectedType(b);
    if fa == fb {
      assert ActionType(a) == fa[..|fa| - 10] == fb[..|fb| - 10] == ActionType(b);
      ActionTypeInjective(a, b);
    }
    if |fa| == |rb| {
      assert fa[|fa| - 9] == 'f' && rb[|rb| - 9] == '/';
    } else {
      assert |fa| != |rb|;
    }
  }

  /** An `errorMessage` property that is a non-empty string, array or object. */
  predicate CarriesErrorMessage(payload: Value) {
    && payload.Obj?
    && "errorMessage" in payload.props
    && match payload.props["errorMessage"]
       case Str(s) => s != ""
       case Arr(xs) => xs != []
       case Obj(m) => m != map[]
       case _ => false
  }

  /**
    `Ruffle.throwIfError(action)`: throws the payload itself when its
    `errorMessage` is present and has at least one key; no effect otherwise.
   */
  function ThrowIfError(action: Action): (r: Result<()>)
    ensures r.Err? <==> CarriesErrorMessage(action.payload)
    ensures r.Err? ==> r.thrown == Raised(action.payload)
  {
    var p := action.payload;
    if Truthy(p) && Truthy(Field(p, "errorMessage")) && KeyCount(Field(p, "errorMessage")) > 0
    then Err(Raised(p))
    else Ok(())
  }

  /**
    The catch block of `Ruffle.async`: `{status, errorMessage: statusText,
    details}`, where `details` is `data.details` when truthy and otherwise
    the whole `data`. Reading `details` of a null or undefined body throws.
   */
  function NormaliseError(resp: Response): (r: Result<Value>)
    ensures r.Err? <==> Nullish(resp.data)
    ensures r.Ok? ==> r.value.Obj? && r.value.props.Keys == {"status", "errorMessage", "details"}
    ensures r.Ok? ==> Field(r.value, "status") == Num(resp.status)
    ensures r.Ok? ==> Field(r.value, "errorMessage") == Str(resp.statusText)
    ensures r.Ok? && Truthy(Field(resp.data, "details")) ==> Field(r.value, "details") == Field(resp.data, "details")
    ensures r.Ok? && !Truthy(Field(resp.data, "details")) ==> Field(r.value, "details") == resp.data
  {
    var details :- Prop(resp.data, "details");
    Ok(Obj(map[
      "status" := Num(resp.status),
      "errorMessage" := Str(resp.statusText),
      "details" := if Truthy(details) then details else resp.data]))
  }

  /** How a thunk's payload creator settles: it returns a payload, or throws. */
  datatype Settlement = Fulfilled(payload: Value) | Rejected

  /**
    The payload creator of `Ruffle.async(slice, event)`, given the API
    object (slice name to REST path) and the transport: a resolved call's
    value is returned; a failed call is caught and normalised; only an error
    without a `response`, or a response body without properties, escapes the
    catch block and rejects.
   */
  function RunThunk(a: AsyncAction, api: map<string, string>, base: string, params: Params,
                    transport: Request -> Exchange): Settlement
  {
    if a.slice !in api then Rejected  // api[sliceName] is undefined
    else
      match Call(base, api[a.slice], a.event, params, transport)
      case Resolved(v) => Fulfilled(v)
      case Failed(None) => Rejected  // err.response.status of undefined
      case Failed(Some(resp)) =>
        match NormaliseError(resp)
        case Ok(e) => Fulfilled(e)
        case Err(_) => Rejected
  }

  /** The action dispatched when the thunk settles. */
  function SettledAction(a: AsyncAction, s: Settlement): (act: Action)
    ensures s.Fulfilled? ==> act == Action(FulfilledType(a), s.payload)
    ensures s.Rejected? ==> act.actionType == RejectedType(a)
  {
    match s
    case Fulfilled(p) => Action(FulfilledType(a), p)
    case Rejected => Action(RejectedType(a), Undefined)
  }

  /**
    A call the server refuses with a body resolves (is fulfilled) with the
    normalised error, and that payload trips `throwIfError` exactly when the
    response has a non-empty status text.
   */
  lemma FailedCallResolvesWithNormalisedError(a: AsyncAction, api: map<string, string>, base: string,
                                              params: Params, transport: Request -> Exchange)
    requires a.slice in api
    requires Build(base, api[a.slice], a.event, params).Ok?
    requires transport(Build(base, api[a.slice], a.event, params).value).Refused?
    ensures var resp := transport(Build(base, api[a.slice], a.event, params).value).response;
      var s := RunThunk(a, api, base, params, transport);
      && (s.Fulfilled? <==> !Nullish(resp.data))
      && (s.Fulfilled? ==> NormaliseError(resp).Ok? && s.payload == NormaliseError(resp).value)
      && (s.Fulfilled? ==> Field(s.payload, "errorMessage") == Str(resp.statusText))
      && (s.Fulfilled? ==> (ThrowIfError(SettledAction(a, s)).Err? <==> resp.statusText != ""))
  {
  }

  /** A call the server answers is fulfilled with the answer's body. */
  lemma AnsweredCallFulfilsWithData(a: AsyncAction, api: map<string, string>, base: string,
                                    params: Params, transport: Request -> Exchange)
    requires a.slice in api
    requires Build(base, api[a.slice], a.event, params).Ok?
    requires transport(Build(base, api[a.slice], a.event, params).value).Answered?
    ensures RunThunk(a, api, base, params, transport)
      == Fulfilled(transport(Build(base, api[a.slice], a.event, params).value).response.data)
  {
    CallYieldsResponseData(base, api[a.slice], a.event, params, transport);
  }

  /**
    The payload creator rejects exactly when `api[sliceName]` is missing, or
    the call fails without a response, or with a null or undefined body: the
    catch block then throws reading `err.response.status` or
    `err.response.data.details`.
   */
  lemma ThunkRejectsWhen(a: AsyncAction, api: map<string, string>, base: string,
                         params: Params, transport: Request -> Exchange)
    ensures RunThunk(a, api, base, params, transport).Rejected? <==>
      || a.slice !in api
      || (var c := Call(base, api[a.slice], a.event, params, transport);
          c.Failed? && (c.response.None? || Nullish(c.response.value.data)))
  {
  }

  /** `{ ...v }`: the own enumerable properties of `v` as a fresh object. */
  function Spread(v: Value): (m: map<string, Value>)
    ensures v.Obj? ==> m == v.props
    ensures v.Arr? ==> forall i :: 0 <= i < |v.elems| ==> NatToString(i) in m && m[NatToString(i)] == v.elems[i]
    ensures v.Arr? ==> forall k :: k in m ==> exists i :: 0 <= i < |v.elems| && k == NatToString(i)
    ensures v.Str? ==> forall i :: 0 <= i < |v.s| ==> NatToString(i) in m && m[NatToString(i)] == Str([v.s[i]])
    ensures v.Str? ==> forall k :: k in m ==> exists i :: 0 <= i < |v.s| && k == NatToString(i)
    ensures !v.Obj? && !v.Arr? && !v.Str? ==> m == map[]
  {
    match v
    case Obj(props) => props
    case Arr(xs) => IndexMap(xs)
    case Str(s) => IndexMap(seq(|s|, i requires 0 <= i < |s| => Str([s[i]])))
    case _ => map[]
  }

  /** The index-keyed object `{"0": xs[0], "1": xs[1], ..}`. */
  function IndexMap(xs: seq<Value>): (m: map<string, Value>)
    ensures forall i :: 0 <= i < |xs| ==> NatToString(i) in m && m[NatToString(i)] == xs[i]
    ensures forall k :: k in m ==> exists i :: 0 <= i < |xs| && k == NatToString(i)
  {
    assert forall i, j :: 0 <= i < |xs| && 0 <= j < |xs| && NatToString(i) == NatToString(j) ==> i == j by {
      forall i, j | 0 <= i < |xs| && 0 <= j < |xs| && NatToString(i) == NatToString(j) {
        NatToStringInjective(i, j);
      }
    }
    map i | 0 <= i < |xs| :: NatToString(i) := xs[i]
  }

  /** `Ruffle.unwrapAsyncResponse(action)`: a shallow copy of `action.payload.data`. */
  function UnwrapAsyncResponse(action: Action): (r: Result<map<string, Value>>)
    ensures r.Err? <==> Nullish(action.payload)
    ensures r.Ok? ==> r.value == Spread(Field(action.payload, "data"))
    ensures r.Ok? && Field(action.payload, "data").Obj? ==> r.value == Field(action.payload, "data").props
    ensures r.Ok? && Nullish(Field(action.payload, "data")) ==> r.value == map[]
  {
    var data :- Prop(action.payload, "data");
    Ok(Spread(data))
  }
}
