/**
  The example entity slice for trucks: its five thunks, its state
  `{allTrucks, truck}`, the five fulfilled-action transitions (each guarded
  by `throwIfError`), and the callback it registers with `Ruffle`.
 */
module TruckSlice {
  import opened JsValue
  import opened RestApi
  import opened RuffleActions
  import opened RuffleRegistry

  const SliceName := "truck"

  const CreateTruck := AsyncAction(SliceName, Create)
  const GetTrucks := AsyncAction(SliceName, GetMany)
  const GetTruck := AsyncAction(SliceName, GetOne)
  const DeleteTruck := AsyncAction(SliceName, Delete)
  const UpdateTruck := AsyncAction(SliceName, Update)

  /** The slice state. `allTrucks` holds whatever a getMany response delivered, normally an array. */
  datatype TruckState = TruckState(allTrucks: Value, truck: Value)

  /** `{ allTrucks: [], truck: {} }`. */
  const InitialState := TruckState(Arr([]), Obj(map[]))

  /**
    A fulfilled create: `truck` becomes the created item, which is pushed at
    the end of `allTrucks`.
   */
  function OnCreate(s: TruckState, action: Action): (r: Result<TruckState>)
    ensures CarriesErrorMessage(action.payload) ==> r == Err(Raised(action.payload))
    ensures r.Ok? <==> !CarriesErrorMessage(action.payload) && !Nullish(action.payload) && s.allTrucks.Arr?
    ensures r.Ok? ==>
      var before, after := s.allTrucks.elems, r.value.allTrucks;
      && r.value.truck == Field(action.payload, "data")
      && after.Arr? && |after.elems| == |before| + 1
      && after.elems[..|before|] == before
      && after.elems[|before|] == r.value.truck
  {
    var _ :- ThrowIfError(action);
    var data :- Prop(action.payload, "data");
    if s.allTrucks.Arr? then Ok(TruckState(Arr(s.allTrucks.elems + [data]), data))
    else Err(TypeError)  // only an array has `push`
  }

  /** A fulfilled getMany: `allTrucks` is replaced wholesale, `truck` kept. */
  function OnGetMany(s: TruckState, action: Action): (r: Result<TruckState>)
    ensures CarriesErrorMessage(action.payload) ==> r == Err(Raised(action.payload))
    ensures r.Ok? <==> !CarriesErrorMessage(action.payload) && !Nullish(action.payload)
    ensures r.Ok? ==> r.value.allTrucks == Field(action.payload, "data") && r.value.truck == s.truck
  {
    var _ :- ThrowIfError(action);
    var data :- Prop(action.payload, "data");
    Ok(s.(allTrucks := data))
  }

  /** A fulfilled getOne: `truck` is replaced, `allTrucks` kept. */
  function OnGetOne(s: TruckState, action: Action): (r: Result<TruckState>)
    ensures CarriesErrorMessage(action.payload) ==> r == Err(Raised(action.payload))
    ensures r.Ok? <==> !CarriesErrorMessage(action.payload) && !Nullish(action.payload)
    ensures r.Ok? ==> r.value.truck == Field(action.payload, "data") && r.value.allTrucks == s.allTrucks
  {
    var _ :- ThrowIfError(action);
    var data :- Prop(action.payload, "data");
    Ok(s.(truck := data))
  }

  /** Whether `filter` keeps truck `t` when the deleted item is `data`: `t.id !== data.id`. */
  predicate KeepTruck(t: Value, data: Value) {
    !StrictEquals(Field(t, "id"), Field(data, "id"))
  }

  /**
    `trucks.filter(t => t.id !== data.id)`: throws when it reads `id` of a
    null or undefined truck, or (once there is a truck to test) of a null or
    undefined `data`; otherwise keeps exactly the trucks whose id differs,
    each as often as it occurs.
   */
  function RemoveById(xs: seq<Value>, data: Value): (r: Result<seq<Value>>)
    ensures r.Ok? <==> (forall i :: 0 <= i < |xs| ==> !Nullish(xs[i])) && (xs != [] ==> !Nullish(data))
    ensures r.Err? ==> r.thrown == TypeError
    ensures r.Ok? ==> forall t :: t in r.value ==> t in xs && KeepTruck(t, data)
    ensures r.Ok? ==> forall t :: multiset(r.value)[t] == if KeepTruck(t, data) then multiset(xs)[t] else 0
    decreases |xs|
  {
    if xs == [] then Ok([])
    else
      var tid :- Prop(xs[0], "id");
      var did :- Prop(data, "id");
      var rest :- RemoveById(xs[1..], data);
      assert xs == [xs[0]] + xs[1..];
      Ok(if StrictEquals(tid, did) then rest else [xs[0]] + rest)
  }

  /** `a` is `b` with some elements left out, the rest in their original order. */
  predicate IsSubsequence(a: seq<Value>, b: seq<Value>)
    decreases |b|
  {
    if a == [] then true
    else if b == [] then false
    else (a[0] == b[0] && IsSubsequence(a[1..], b[1..])) || IsSubsequence(a, b[1..])
  }

  /** The surviving trucks keep their relative order. */
  lemma {:induction false} RemoveByIdIsSubsequence(xs: seq<Value>, data: Value)
    requires RemoveById(xs, data).Ok?
    ensures IsSubsequence(RemoveById(xs, data).value, xs)
    decreases |xs|
  {
    if xs != [] {
      var rest := RemoveById(xs[1..], data).value;
      RemoveByIdIsSubsequence(xs[1..], data);
      if KeepTruck(xs[0], data) {
        assert RemoveById(xs, data).value == [xs[0]] + rest;
        assert ([xs[0]] + rest)[1..] == rest;
      } else {
        assert RemoveById(xs, data).value == rest;
      }
    }
  }

  /** Filtering out the same id a second time removes nothing more. */
  lemma {:induction false} RemoveByIdIdempotent(xs: seq<Value>, data: Value)
    requires RemoveById(xs, data).Ok?
    ensures RemoveById(RemoveById(xs, data).value, data) == RemoveById(xs, data)
    decreases |xs|
  {
    if xs != [] {
      var rest := RemoveById(xs[1..], data).value;
      RemoveByIdIdempotent(xs[1..], data);
      if KeepTruck(xs[0], data) {
        var ys := [xs[0]] + rest;
        assert ys[1..] == rest;
        assert RemoveById(xs, data).value == ys;
      }
    }
  }

  /** A fulfilled delete: every truck whose id is the deleted id leaves `allTrucks`, `truck` kept. */
  function OnDelete(s: TruckState, action: Action): (r: Result<TruckState>)
    ensures CarriesErrorMessage(action.payload) ==> r == Err(Raised(action.payload))
    ensures r.Ok? <==> && !CarriesErrorMessage(action.payload) && s.allTrucks.Arr?
                       && RemoveById(s.allTrucks.elems, Field(action.payload, "data")).Ok?
    ensures r.Ok? ==> s.allTrucks.Arr? && r.value.allTrucks.Arr? && r.value.truck == s.truck
    ensures r.Ok? ==>
      var data := Field(action.payload, "data");
      && IsSubsequence(r.value.allTrucks.elems, s.allTrucks.elems)
      && (forall t :: t in r.value.allTrucks.elems ==> KeepTruck(t, data))
      && (forall t :: t in s.allTrucks.elems && KeepTruck(t, data) ==> t in r.value.allTrucks.elems)
      && (forall t :: multiset(r.value.allTrucks.elems)[t]
                       == if KeepTruck(t, data) then multiset(s.allTrucks.elems)[t] else 0)
  {
    var _ :- ThrowIfError(action);
    if !s.allTrucks.Arr? then Err(TypeError)  // only an array has `filter`
    else if Nullish(action.payload) && s.allTrucks.elems != [] then Err(TypeError)
    else
      var data := Field(action.payload, "data");
      var kept :- RemoveById(s.allTrucks.elems, data);
      RemoveByIdIsSubsequence(s.allTrucks.elems, data);
      assert forall t :: t in s.allTrucks.elems && KeepTruck(t, data) ==> t in kept by {
        forall t | t in s.allTrucks.elems && KeepTruck(t, data)
          ensures t in kept
        {
          assert multiset(s.allTrucks.elems)[t] > 0;
        }
      }
      Ok(s.(allTrucks := Arr(kept)))
  }

  /** A fulfilled update: `truck` becomes `data.updated`, `allTrucks` kept. */
  function OnUpdate(s: TruckState, action: Action): (r: Result<TruckState>)
    ensures CarriesErrorMessage(action.payload) ==> r == Err(Raised(action.payload))
    ensures r.Ok? <==> (!CarriesErrorMessage(action.payload) && !Nullish(action.payload)
                        && !Nullish(Field(action.payload, "data")))
    ensures r.Ok? ==> r.value.truck == Field(Field(action.payload, "data"), "updated")
                      && r.value.allTrucks == s.allTrucks
  {
    var _ :- ThrowIfError(action);
    var data :- Prop(action.payload, "data");
    var updated :- Prop(data, "updated");
    Ok(s.(truck := updated))
  }

  /** The action types the slice's `extraReducers` handle. */
  function HandledTypes(): set<string> {
    {FulfilledType(CreateTruck), FulfilledType(GetTrucks), FulfilledType(GetTruck),
     FulfilledType(DeleteTruck), FulfilledType(UpdateTruck)}
  }

  /**
    The slice reducer: each handled fulfilled type goes to its transition;
    every other action leaves the state as it is. `Err` means the dispatch
    throws and the store keeps its previous state.
   */
  function TruckReducer(s: TruckState, action: Action): (r: Result<TruckState>)
    ensures action.actionType !in HandledTypes() ==> r == Ok(s)
    ensures action.actionType in HandledTypes() && CarriesErrorMessage(action.payload) ==> r == Err(Raised(action.payload))
  {
    var t := action.actionType;
    if t == FulfilledType(CreateTruck) then OnCreate(s, action)
    else if t == FulfilledType(GetTrucks) then OnGetMany(s, action)
    else if t == FulfilledType(GetTruck) then OnGetOne(s, action)
    else if t == FulfilledType(DeleteTruck) then OnDelete(s, action)
    else if t == FulfilledType(UpdateTruck) then OnUpdate(s, action)
    else Ok(s)
  }

  /** Each handled fulfilled type runs the transition `extraReducers` keys it to. */
  lemma TruckReducerRoutes(s: TruckState, action: Action)
    ensures action.actionType == FulfilledType(CreateTruck) ==> TruckReducer(s, action) == OnCreate(s, action)
    ensures action.actionType == FulfilledType(GetTrucks) ==> TruckReducer(s, action) == OnGetMany(s, action)
    ensures action.actionType == FulfilledType(GetTruck) ==> TruckReducer(s, action) == OnGetOne(s, action)
    ensures action.actionType == FulfilledType(DeleteTruck) ==> TruckReducer(s, action) == OnDelete(s, action)
    ensures action.actionType == FulfilledType(UpdateTruck) ==> TruckReducer(s, action) == OnUpdate(s, action)
  {
    SettledTypesDistinct(CreateTruck, GetTrucks);
    SettledTypesDistinct(CreateTruck, GetTruck);
    SettledTypesDistinct(CreateTruck, DeleteTruck);
    SettledTypesDistinct(CreateTruck, UpdateTruck);
    SettledTypesDistinct(GetTrucks, GetTruck);
    SettledTypesDistinct(GetTrucks, DeleteTruck);
    SettledTypesDistinct(GetTrucks, UpdateTruck);
    SettledTypesDistinct(GetTruck, DeleteTruck);
    SettledTypesDistinct(GetTruck, UpdateTruck);
    SettledTypesDistinct(DeleteTruck, UpdateTruck);
  }

  /** No rejected action of any thunk, and no truck patch, reaches a transition. */
  lemma SettledTypesRouting(a: AsyncAction, payload: Value, s: TruckState)
    ensures TruckReducer(s, Action(RejectedType(a), payload)) == Ok(s)
    ensures a.slice != SliceName || a.event == Patch ==> TruckReducer(s, Action(FulfilledType(a), payload)) == Ok(s)
  {
    SettledTypesDistinct(CreateTruck, a);
    SettledTypesDistinct(GetTrucks, a);
    SettledTypesDistinct(GetTruck, a);
    SettledTypesDistinct(DeleteTruck, a);
    SettledTypesDistinct(UpdateTruck, a);
    SettledTypesDistinct(a, CreateTruck);
    SettledTypesDistinct(a, GetTrucks);
    SettledTypesDistinct(a, GetTruck);
    SettledTypesDistinct(a, DeleteTruck);
    SettledTypesDistinct(a, UpdateTruck);
  }

  /**
    Delivering the same fulfilled getMany, getOne, delete or update a second
    time leaves the state as the first delivery left it.
   */
  lemma RepeatedDeliveryIsIdempotent(s: TruckState, action: Action)
    requires action.actionType in HandledTypes() - {FulfilledType(CreateTruck)}
    requires TruckReducer(s, action).Ok?
    ensures TruckReducer(TruckReducer(s, action).value, action) == TruckReducer(s, action)
  {
    if action.actionType == FulfilledType(DeleteTruck) {
      SettledTypesDistinct(DeleteTruck, CreateTruck);
      SettledTypesDistinct(DeleteTruck, GetTrucks);
      SettledTypesDistinct(DeleteTruck, GetTruck);
      assert TruckReducer(s, action) == OnDelete(s, action);
      var data := Field(action.payload, "data");
      assert s.allTrucks.Arr? && RemoveById(s.allTrucks.elems, data).Ok?;
      RemoveByIdIdempotent(s.allTrucks.elems, data);
    }
  }

  /** Two fulfilled creates of the same item push it twice. */
  lemma CreateIsNotIdempotent(s: TruckState, action: Action)
    requires action.actionType == FulfilledType(CreateTruck)
    requires TruckReducer(s, action).Ok?
    ensures var s1 := TruckReducer(s, action).value;
      TruckReducer(s1, action).Ok? && |TruckReducer(s1, action).value.allTrucks.elems| == |s.allTrucks.elems| + 2
  {
  }

  /** `truckSlice.reducer`. */
  const TruckReducerRef := ReducerRef(0)

  /**
    The callback `truck.js` registers: the reducer under `truck`, and a
    websocket listener that, as written, passes `getTrucksAction` in the
    `getOne` position and `getTruckAction` in the `getMany` position.
   */
  function TruckCallback(): Callback {
    [RegisterReducerStep(SliceName, TruckReducerRef), AddListenerStep(SliceName, GetTrucks, GetTruck)]
  }

  /** The callback with the two thunks in the positions their names suggest. */
  function TruckCallbackIntended(): Callback {
    [RegisterReducerStep(SliceName, TruckReducerRef), AddListenerStep(SliceName, GetTruck, GetTrucks)]
  }

  /** Loading `truck.js`: `Ruffle.registerSlice('truck', ..)`. */
  function LoadTruckSlice(r: Ruffle): (r': Ruffle)
    ensures SliceName in r'.registeredSlices && r'.registeredSlices[SliceName] == TruckCallback()
    ensures Valid(r) ==> Valid(r')
  {
    RegisterSlice(r, SliceName, TruckCallback())
  }

  /**
    Configuring a fresh store after loading only the truck slice installs
    the truck reducer (one `replaceReducer` call) and the truck listener.
   */
  lemma TruckConfiguration(id: nat)
    ensures var w := ConfigureSlices(World(LoadTruckSlice(InitialRuffle), NewStore(id))).0;
      && w.store.currentReducers == Some(map[SliceName := TruckReducerRef])
      && w.store.rootReducers == [map[SliceName := TruckReducerRef]]
      && w.ruffle.websocketListeners == map[SliceName := Listener(id, GetTrucks, GetTruck)]
  {
    var w0 := World(LoadTruckSlice(InitialRuffle), NewStore(id));
    assert w0.ruffle.sliceOrder == [SliceName];
    var cb := TruckCallback();
    var w1 := ApplyEffect(w0, cb[0]);
    var w2 := ApplyEffect(w1, cb[1]);
    assert RunCallback(w0, cb) == RunCallback(w1, cb[1..]) == RunCallback(w2, []) == w2;
    assert ConfigureKeys(w0, [SliceName]).0 == ConfigureKeys(w2, []).0 == w2;
  }

  /**
    As written, a push message naming a truck id triggers the getMany thunk
    with `{id}` (a GET of the whole collection), and a message without an
    id triggers the getOne thunk without params, which throws while building
    its request: the thunk rejects and the slice state stays as it was.
   */
  lemma TruckPushAsWritten(w: World, id: Value, api: map<string, string>, base: string,
                           transport: Request -> Exchange, s: TruckState)
    requires Truthy(id)
    requires SliceName in api
    ensures var r := RunCallback(w, TruckCallback()).ruffle;
      var sid := w.store.id;
      && FireMessageReceived(r, Message(SliceName, id)) == Ok(Dispatch(sid, GetTrucks, Some(map["id" := id])))
      && Build(base, api[SliceName], GetTrucks.event, Some(map["id" := id]))
           == Ok(Request(HttpGet, CollectionUrl(base, api[SliceName]), Some(map["id" := id]), None))
    ensures var r := RunCallback(w, TruckCallback()).ruffle;
      && FireMessageReceived(r, Message(SliceName, Undefined)) == Ok(Dispatch(w.store.id, GetTruck, None))
      && RunThunk(GetTruck, api, base, None, transport) == Rejected
      && TruckReducer(s, SettledAction(GetTruck, Rejected)) == Ok(s)
  {
    var cb := TruckCallback();
    var w1 := ApplyEffect(w, cb[0]);
    var w2 := ApplyEffect(w1, cb[1]);
    assert RunCallback(w, cb) == RunCallback(w1, cb[1..]) == RunCallback(w2, []) == w2;
    SettledTypesRouting(GetTruck, Undefined, s);
  }

  /**
    With the thunks in their intended positions, a message with an id
    fetches that truck (`GET base/path/id`), and one without fetches the
    collection (`GET base/path`).
   */
  lemma TruckPushIntended(w: World, id: Value, api: map<string, string>, base: string)
    requires Truthy(id)
    requires SliceName in api
    ensures var r := RunCallback(w, TruckCallbackIntended()).ruffle;
      && FireMessageReceived(r, Message(SliceName, id)) == Ok(Dispatch(w.store.id, GetTruck, Some(map["id" := id])))
      && Build(base, api[SliceName], GetTruck.event, Some(map["id" := id]))
           == Ok(Request(HttpGet, MemberUrl(base, api[SliceName], id), Some(map[]), None))
    ensures var r := RunCallback(w, TruckCallbackIntended()).ruffle;
      && FireMessageReceived(r, Message(SliceName, Undefined)) == Ok(Dispatch(w.store.id, GetTrucks, None))
      && Build(base, api[SliceName], GetTrucks.event, None)
           == Ok(Request(HttpGet, CollectionUrl(base, api[SliceName]), None, None))
  {
    var cb := TruckCallbackIntended();
    var w1 := ApplyEffect(w, cb[0]);
    var w2 := ApplyEffect(w1, cb[1]);
    assert RunCallback(w, cb) == RunCallback(w1, cb[1..]) == RunCallback(w2, []) == w2;
    assert map["id" := id] - {"id"} == map[];
  }
}
