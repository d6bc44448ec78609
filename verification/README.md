# Ruffle, modelled in Dafny

Ruffle is a thin layer over Redux. It generates CRUD async actions ("thunks") for an entity slice, and it turns a failed HTTP call into a normalised error payload. Every slice transition is guarded by `throwIfError`. Slices register themselves through a process-wide callback registry. Each slice's reducer goes into a reducer table kept on the store. Websocket push messages are routed to a slice's refetch thunks.

This project models that logic as pure functions over immutable values:

- `js_value.dfy` (`JsValue`): the JavaScript values the layer handles. It covers truthiness, property reads that throw on `null`/`undefined`, `===`, `Object.keys(..).length` and template-literal string conversion. Every `throw` becomes a `Result` error (`Raised(payload)` or `TypeError`).
- `rest_api.dfy` (`RestApi`): `REST(path)`. The six request builders are pure request descriptors (verb, URL, query, body). The HTTP transport is a function parameter.
- `ruffle_actions.dfy` (`RuffleActions`): the `slice/event` action types, the thunk's payload creator with error normalisation, `throwIfError` and `unwrapAsyncResponse`.
- `ruffle_registry.dfy` (`RuffleRegistry`): `registerSlice`/`configureSlices`, `registerReducer` and `addWebsocketListener`/`fireMessageReceived`. State is one `Ruffle` value plus a `Store` value. A registration callback is the list of store calls it makes.
- `truck_slice.dfy` (`TruckSlice`): the example truck slice. Its initial state is `InitialState`, `{allTrucks: [], truck: {}}`. It has five guarded transitions of type `state -> Ok(state) | Err(thrown)` and the callback the slice registers. When a transition returns `Err`, the dispatch throws and the store keeps its previous state.

## Model

| member | source | states |
|---|---|---|
| `RestApi.BuildCreate` | src/ruffle-api.js:7 | create is a POST to `base/path` with the params, unchanged, as body and no query |
| `RestApi.BuildGetMany` | src/ruffle-api.js:8-10 | getMany is a GET to `base/path` with the params, unchanged, as query |
| `RestApi.BuildGetOne` | src/ruffle-api.js:11-14 | getOne is a GET to `base/path/id`; its query holds every param except `id`, each with its value unchanged; absent params throw a TypeError |
| `RestApi.BuildDelete` | src/ruffle-api.js:15 | delete is a DELETE to `base/path/id` with the full params, `id` included, as query; absent params throw |
| `RestApi.BuildUpdate` | src/ruffle-api.js:16 | update is a PUT to `base/path/id` with the full params as body; absent params throw |
| `RestApi.BuildPatch` | src/ruffle-api.js:17-20 | patch is a PATCH to `base/path/id`; its body holds every param except `id`, each with its value unchanged; absent params throw |
| `RestApi.Build` | src/ruffle-api.js:6-21 | building fails exactly for a member operation without params; member operations address the member URL, the others the collection URL; each operation uses its own verb (POST, GET, GET, DELETE, PUT, PATCH), create and update send the params as body, getMany and delete as query, getOne sends the params without `id` as query and patch as body |
| `RestApi.CallYieldsResponseData` | src/ruffle-api.js:7-19 | an API call resolves exactly when the request is built and answered 2xx, and then with `response.data` |
| `RestApi.MemberOperationsShareUrl` | src/ruffle-api.js:11-20 | getOne, delete, update and patch address the same URL: the collection URL, then `/`, then the id's text |
| `RestApi.StrippedParamsRestore` | src/ruffle-api.js:11-20 | what getOne and patch strip from the params is exactly the `id`: putting it back restores the params, and gives delete's query |
| `RestApi.MissingIdAddressesUndefined` | src/ruffle-api.js:11-20 | with no `id` param, a member operation addresses `base/path/undefined` |
| `RuffleActions.SliceOfTypeRoundTrip` | src/ruffle-redux.js:12-13 | for a slice name without `/`, the logger's reading of the text before the first `/` recovers the slice name from a thunk's action type and from its fulfilled and rejected types |
| `RuffleActions.ActionTypeInjective` | src/ruffle-redux.js:6-13 | `slice + "/" + event` names one thunk only: equal action types mean equal slice and event |
| `RuffleActions.SettledTypesDistinct` | src/ruffle-redux.js:12-13 | distinct thunks have distinct fulfilled types, and no fulfilled type is a rejected type |
| `RuffleActions.ThrowIfError` | src/ruffle-redux.js:31-35 | raises iff the payload has an `errorMessage` that is a non-empty string, array or object; when it raises it raises the payload itself |
| `RuffleActions.NormaliseError` | src/ruffle-redux.js:18-24 | a refused call becomes `{status, errorMessage: statusText, details}`, with `details` being `data.details` when truthy and otherwise all of `data`; a null or undefined body throws |
| `RuffleActions.FailedCallResolvesWithNormalisedError` | src/ruffle-redux.js:14-25 | a refused call with a body fulfils, and does not reject, with exactly the normalised error `{status, errorMessage, details}`; that payload trips the guard iff the status text is non-empty |
| `RuffleActions.AnsweredCallFulfilsWithData` | src/ruffle-redux.js:14-17 | an answered call fulfils with the response body |
| `RuffleActions.ThunkRejectsWhen` | src/ruffle-redux.js:13-26 | the payload creator rejects exactly when the API has no entry for the slice, or the call fails with no response, or with a null or undefined body; every other outcome fulfils |
| `RuffleActions.Spread` | src/ruffle-redux.js:29 | `{...v}` copies an object's entries, keys an array's or string's elements by their decimal positions and by nothing else, and is empty for other values |
| `RuffleActions.UnwrapAsyncResponse` | src/ruffle-redux.js:28-30 | returns `{...payload.data}` for every kind of `data`: the object's own entries, an array's or string's indexed elements, `{}` for null, undefined and other primitives; it throws iff the payload is null or undefined |
| `RuffleRegistry.RegisterSlice` | src/ruffle-redux.js:39-42 | sets the entry for the name to the callback, whatever was there before, and leaves every other entry and the listeners unchanged; a new name is appended to the key order |
| `RuffleRegistry.RegisterReducer` | src/ruffle-redux.js:48-56 | creates the table if needed; a name the `in` test finds, registered or inherited from `Object.prototype`, changes nothing else and calls no `replaceReducer`; any other name is added as exactly one new entry, keeping the others, and `replaceReducer` is called once with the whole table |
| `RuffleRegistry.InheritedNameNeverRegisters` | src/ruffle-redux.js:52 | a slice named `constructor`, `toString` or another `Object.prototype` property never gets its reducer installed and never triggers `replaceReducer` |
| `RuffleRegistry.RegisterOwnReducer` | src/ruffle-redux.js:48-56 | with an own-property test, the name always ends up in the table; only a name already registered is skipped |
| `RuffleRegistry.RegisterOwnReducerInstalls` | src/ruffle-redux.js:52 | the own-property version agrees with the original on every name outside `Object.prototype`, and installs the reducer for an inherited name where the original does not |
| `RuffleRegistry.AddWebsocketListener` | src/ruffle-redux.js:60-62 | sets the listener for the name to `{store, getOne, getMany}`, whatever was there before, and leaves the other listeners and the registry unchanged |
| `RuffleRegistry.FireMessageReceived` | src/ruffle-redux.js:63-71 | fails iff no listener exists for the message type; otherwise produces exactly one dispatch on the listener's store, `getOne({id})` when `id` is truthy and `getMany()` otherwise |
| `RuffleRegistry.RoutingFollowsLastListener` | src/ruffle-redux.js:59-71 | a message is routed by the listener most recently added under its type; a listener added under another name does not change the routing |
| `RuffleRegistry.ConfigureSlices` | src/ruffle-redux.js:43-47 | every registered callback is invoked exactly once, in key order, and every invocation gets the same store |
| `RuffleRegistry.ConfigureSlicesRunsCallbacks` | src/ruffle-redux.js:43-47 | the world `configureSlices` leaves is the world that running the registered callbacks one after another, in key order, with the same store leaves |
| `RuffleRegistry.ConfigureSlicesIdempotent` | src/ruffle-redux.js:43-56 | configuring the same store a second time changes neither the reducer table nor the `replaceReducer` history nor the listeners |
| `RuffleRegistry.DuplicateNamePolicies` | src/ruffle-redux.js:39-55 | on a duplicate name the callback registry keeps the last registration but the reducer table keeps the first |
| `TruckSlice.OnCreate` | examples/slice/truck.js:20-24 | a successful create sets `truck` to the data and appends it to `allTrucks`: the length grows by one and the old items stay as a prefix; an error payload raises |
| `TruckSlice.OnGetMany` | examples/slice/truck.js:25-28 | a successful getMany replaces `allTrucks` by the data and keeps `truck`; an error payload raises |
| `TruckSlice.OnGetOne` | examples/slice/truck.js:29-32 | a successful getOne sets `truck` to the data and keeps `allTrucks`; an error payload raises |
| `TruckSlice.RemoveById` | examples/slice/truck.js:35-37 | the filter throws iff it reads `id` of a null or undefined value; otherwise each truck survives iff its id is not `===` the deleted id, and as often as it occurred |
| `TruckSlice.RemoveByIdIsSubsequence` | examples/slice/truck.js:35-37 | the survivors keep their relative order |
| `TruckSlice.RemoveByIdIdempotent` | examples/slice/truck.js:35-37 | filtering out the same id again removes nothing more |
| `TruckSlice.OnDelete` | examples/slice/truck.js:33-38 | a delete succeeds iff the payload carries no error message, `allTrucks` is an array, and the filter reads no `id` of null or undefined; it then keeps exactly the trucks whose id differs from the deleted one, in their order and with their multiplicity, and keeps `truck`; an error payload raises |
| `TruckSlice.OnUpdate` | examples/slice/truck.js:39-42 | a successful update sets `truck` to `data.updated` and keeps `allTrucks`; an error payload raises |
| `TruckSlice.TruckReducer` | examples/slice/truck.js:15-44 | a handled fulfilled action with an error payload raises before any change; any other action type leaves the state unchanged |
| `TruckSlice.TruckReducerRoutes` | examples/slice/truck.js:19-43 | each of the five fulfilled types runs exactly the transition `extraReducers` keys to it |
| `TruckSlice.SettledTypesRouting` | examples/slice/truck.js:19-43 | no rejected action, no truck patch and no other slice's action reaches a truck transition |
| `TruckSlice.RepeatedDeliveryIsIdempotent` | examples/slice/truck.js:25-42 | delivering the same fulfilled getMany, getOne, delete or update twice leaves the state as one delivery does |
| `TruckSlice.CreateIsNotIdempotent` | examples/slice/truck.js:20-24 | delivering the same fulfilled create twice pushes the item twice |
| `TruckSlice.LoadTruckSlice` | examples/slice/truck.js:46-49 | loading the slice registers its callback under `truck` and keeps the registry well formed |
| `TruckSlice.TruckConfiguration` | examples/slice/truck.js:46-49 | configuring a fresh store installs the truck reducer under `truck` with one `replaceReducer` call; it also installs a listener whose getOne slot holds `getTrucksAction` and whose getMany slot holds `getTruckAction` |
| `TruckSlice.TruckPushAsWritten` | examples/slice/truck.js:48 | as written, a push with an id refetches the whole collection; a push without an id runs the getOne thunk without params, which rejects, so the state is unchanged |
| `TruckSlice.TruckPushIntended` | examples/slice/truck.js:48 | with the thunks in their named positions, a push with an id fetches `base/path/id` and one without fetches `base/path` |

## Findings

| source | as written | input that shows it | evidently intended | confidence | as-written member | corrected member |
|---|---|---|---|---|---|---|
| examples/slice/truck.js:48 | `addWebsocketListener(reduxStore, sliceName, getTrucksAction, getTruckAction)` fills the parameters `(getOne, getMany)` of src/ruffle-redux.js:60 the wrong way round | the message `{"type":"truck","id":"42"}` dispatches the list thunk with `{id: "42"}`; the message `{"type":"truck"}` dispatches the single-item thunk with no params, which throws while building its request | `getTruckAction` in the getOne slot and `getTrucksAction` in the getMany slot | high, not executed | `TruckSlice.TruckPushAsWritten` (with `TruckSlice.TruckCallback`) | `TruckSlice.TruckPushIntended` (with `TruckSlice.TruckCallbackIntended`) |
| src/ruffle-redux.js:52 | `sliceName in reduxStore.currentReducers` tests a `{}` literal, so it also finds the names every object inherits from `Object.prototype` | `registerReducer(store, "constructor", slice)` on a fresh store leaves the table `{}` and never calls `replaceReducer`, so the slice's actions reach no reducer | an own-property test, so that only an already registered name is skipped | medium, not executed | `RuffleRegistry.InheritedNameNeverRegisters` (about `RuffleRegistry.RegisterReducer`) | `RuffleRegistry.RegisterOwnReducer` (with `RuffleRegistry.RegisterOwnReducerInstalls`) |

`LoadTruckSlice` registers the as-written callback, and callbacks run the as-written `RegisterReducer`, because the rest of the model describes the program as it is. The corrected callback is proved to route both kinds of message as intended. The corrected `RegisterOwnReducer` is proved to install every new name. The two findings do not interact, since `truck` is not an `Object.prototype` property.

## Other behaviour worth knowing

- `FailedCallResolvesWithNormalisedError`: `errorMessage` is the HTTP status text, so a refused call with an empty status text passes `throwIfError`. HTTP/2 responses carry no reason phrase. Such an error payload then reaches the transition as if it were data.
- `ThrowIfError` does not raise for a numeric or boolean `errorMessage`, because `Object.keys` of a number or a boolean is empty.

## Left out

- The axios transport and the `process.env` base URLs (src/ruffle-api.js:1-4): the base URL is a string parameter, and the transport is a function from request to exchange.
- The module `../api/index` imported at src/ruffle-redux.js:3 is not part of this model. The API object is modelled as a map from slice name to REST path, and a slice missing from it makes the thunk reject.
- Redux Toolkit internals: the pending action, abort and `condition` of `createAsyncThunk`, and the error serialised into a rejected action. A rejected action is modelled by its type alone, with an undefined payload.
- `combineReducers`: the root reducer is modelled as the table it is built from. Immer drafts: a transition that throws yields `Err`, and the state is left as it was.
- `JSON.parse` at src/ruffle-redux.js:64: a message is an already-parsed `type` string and `id` value.
- `configureLogger` and all console output (src/ruffle-redux.js:40, 73-82) are logging only. Only the logger's slice-name extraction appears, as the decoding side of `SliceOfTypeRoundTrip`.
- Asynchrony and the order in which concurrent calls settle: the model takes one settled action at a time.
- JavaScript numbers are modelled as unbounded integers. Fractions, `NaN` and infinities are not modelled. Neither is the 2^53 limit of exact integers. `String(n)` switching to exponent notation at 10^21 is not modelled either, so `MemberUrl` renders an id of that size in plain digits where JavaScript writes `1e+21`.
- Strings are sequences of Unicode code points, not UTF-16 code units. `Spread` of a string therefore gives one key per code point. JavaScript gives one key per code unit, so a character outside the Basic Multilingual Plane yields two keys (`{..."😀"}` has keys `"0"` and `"1"`). Lengths and `KeyCount` of such strings differ the same way.
- Object identity: two objects or arrays are never `===`, because every compared value comes from a separate deserialised response.
- `Object.keys` lists integer-like keys first. The registry order is modelled as plain insertion order, so that is not modelled.
- `websocketListeners` is an array, so registering a listener under the name `length` would throw. A message naming a built-in array property fails with a TypeError, as an unregistered name does in the model.
- `params` is modelled as an object or absent. `null` or primitive params are not modelled.
- A registration callback is modelled as its sequence of `registerReducer` and `addWebsocketListener` calls on the store it is handed. Callbacks that do anything else, such as registering slices during `configureSlices`, are not modelled.
- `RuffleRegistry.ConfigureSlices`: its own contract states the invocation trace and the registry. `ConfigureSlicesRunsCallbacks` states the final world as the run of the concatenated callbacks, not in closed form. Its reducer table and listeners are characterised by `RunCallbackRegisters`, `RunCallbackListeners` and, for trucks, `TruckConfiguration`.
- `registeredSlices` is a `{}` literal, so `registerSlice("__proto__", cb)` replaces the registry's prototype instead of adding a key. That name is modelled as an ordinary key.
- `RuffleRegistry.RegisterOwnReducer`: for the name `__proto__`, an own-property test followed by a plain assignment would replace the table's prototype rather than add an entry. The corrected model treats it as an ordinary key. A faithful correction would also need a prototype-free table, such as `Object.create(null)` or a `Map`.
