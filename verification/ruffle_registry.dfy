/**
  The registries of `Ruffle`: the process-wide table of slice registration
  callbacks, the reducer table kept on the Redux store, and the websocket
  listener table with its message router.
 */
module RuffleRegistry {
  import opened JsValue
  import opened RestApi
  import opened RuffleActions

  /** A slice's `reducer` function, by identity. */
  datatype ReducerRef = ReducerRef(id: nat)

  type ReducerTable = map<string, ReducerRef>

  /**
    The Redux store as the registry sees it: its identity, the
    `currentReducers` table (absent until the first registration), and the
    tables each `replaceReducer(combineReducers(..))` call was given, oldest first.
   */
  datatype Store = Store(id: nat, currentReducers: Option<ReducerTable>, rootReducers: seq<ReducerTable>)

  /** A fresh store: no table yet, no reducer replaced. */
  function NewStore(id: nat): Store {
    Store(id, None, [])
  }

  /** The reducer table, reading an absent one as empty. */
  function TableOf(s: Store): ReducerTable {
    if s.currentReducers.Some? then s.currentReducers.value else map[]
  }

  /** An entry of `Ruffle.websocketListeners`. */
  datatype Listener = Listener(store: nat, getOne: AsyncAction, getMany: AsyncAction)

  /** One call a registration callback makes on the store it is handed. */
  datatype Effect =
    | RegisterReducerStep(name: string, reducer: ReducerRef)
    | AddListenerStep(name: string, getOne: AsyncAction, getMany: AsyncAction)

  /** The body of a `registerSlice` callback, `reduxStore => { .. }`. */
  type Callback = seq<Effect>

  /**
    The process-wide state of `Ruffle`: the registered callbacks, their keys
    in the order `Object.keys` lists them (first insertion), and the listeners.
   */
  datatype Ruffle = Ruffle(registeredSlices: map<string, Callback>, sliceOrder: seq<string>,
                           websocketListeners: map<string, Listener>)

  const InitialRuffle := Ruffle(map[], [], map[])

  /** The global registry together with the store being configured. */
  datatype World = World(ruffle: Ruffle, store: Store)

  predicate Distinct(xs: seq<string>) {
    forall i, j :: 0 <= i < j < |xs| ==> xs[i] != xs[j]
  }

  /** `sliceOrder` lists every registered name exactly once. */
  predicate Valid(r: Ruffle) {
    && Distinct(r.sliceOrder)
    && (forall k :: k in r.registeredSlices ==> k in r.sliceOrder)
    && (forall k :: k in r.sliceOrder ==> k in r.registeredSlices)
  }

  /** `Ruffle.registerSlice(name, cb)`: last registration wins, other entries untouched. */
  function RegisterSlice(r: Ruffle, name: string, cb: Callback): (r': Ruffle)
    ensures name in r'.registeredSlices && r'.registeredSlices[name] == cb
    ensures forall n :: n != name ==> (n in r'.registeredSlices <==> n in r.registeredSlices)
    ensures forall n :: n != name && n in r.registeredSlices ==> r'.registeredSlices[n] == r.registeredSlices[n]
    ensures name in r.registeredSlices ==> r'.sliceOrder == r.sliceOrder
    ensures name !in r.registeredSlices ==> r'.sliceOrder == r.sliceOrder + [name]
    ensures r'.websocketListeners == r.websocketListeners
    ensures Valid(r) ==> Valid(r')
  {
    Ruffle(r.registeredSlices[name := cb],
           if name in r.registeredSlices then r.sliceOrder else r.sliceOrder + [name],
           r.websocketListeners)
  }

  /**
    `Ruffle.registerReducer(store, name, slice)`: creates the table when
    absent; a name the `in` test finds, whether already registered or
    inherited from `Object.prototype`, changes nothing else and replaces no
    reducer; any other name is added and the root reducer is rebuilt from
    the whole table.
   */
  function RegisterReducer(s: Store, name: string, reducer: ReducerRef): (s': Store)
    ensures s'.id == s.id && s'.currentReducers.Some?
    ensures HasProperty(TableOf(s), name) ==>
      s'.currentReducers.value == TableOf(s) && s'.rootReducers == s.rootReducers
    ensures HasProperty(TableOf(s), name) && s.currentReducers.Some? ==> s' == s
    ensures !HasProperty(TableOf(s), name) ==>
      && s'.currentReducers.value.Keys == TableOf(s).Keys + {name}
      && s'.currentReducers.value[name] == reducer
      && (forall n :: n in TableOf(s) ==> s'.currentReducers.value[n] == TableOf(s)[n])
      && s'.rootReducers == s.rootReducers + [s'.currentReducers.value]
  {
    var table := TableOf(s);
    if HasProperty(table, name) then s.(currentReducers := Some(table))
    else
      var table' := table[name := reducer];
      Store(s.id, Some(table'), s.rootReducers + [table'])
  }

  /**
    A slice named after an `Object.prototype` property never gets its
    reducer installed, on a fresh store or later: the table stays without
    it and `replaceReducer` is never called.
   */
  lemma InheritedNameNeverRegisters(s: Store, name: string, reducer: ReducerRef)
    requires name in ObjectPrototypeKeys
    ensures name !in TableOf(s) ==> name !in RegisterReducer(s, name, reducer).currentReducers.value
    ensures RegisterReducer(s, name, reducer).rootReducers == s.rootReducers
    ensures RegisterReducer(NewStore(0), "constructor", reducer) == Store(0, Some(map[]), [])
  {
  }

  /**
    `registerReducer` with the membership test it evidently means, an own
    property test (`Object.hasOwn`): only an already registered name is
    skipped.
   */
  function RegisterOwnReducer(s: Store, name: string, reducer: ReducerRef): (s': Store)
    ensures s'.id == s.id && s'.currentReducers.Some?
    ensures name in s'.currentReducers.value
    ensures name in TableOf(s) ==> s'.currentReducers.value == TableOf(s) && s'.rootReducers == s.rootReducers
    ensures name !in TableOf(s) ==>
      && s'.currentReducers.value == TableOf(s)[name := reducer]
      && s'.rootReducers == s.rootReducers + [s'.currentReducers.value]
  {
    var table := TableOf(s);
    if name in table then s.(currentReducers := Some(table))
    else
      var table' := table[name := reducer];
      Store(s.id, Some(table'), s.rootReducers + [table'])
  }

  /**
    The two agree on every name outside `Object.prototype`; on a name inside
    it the corrected one installs the reducer where the original does not.
   */
  lemma RegisterOwnReducerInstalls(s: Store, name: string, reducer: ReducerRef)
    ensures name !in ObjectPrototypeKeys ==> RegisterOwnReducer(s, name, reducer) == RegisterReducer(s, name, reducer)
    ensures name in ObjectPrototypeKeys && name !in TableOf(s) ==>
      && RegisterOwnReducer(s, name, reducer).currentReducers.value[name] == reducer
      && name !in RegisterReducer(s, name, reducer).currentReducers.value
  {
  }

  /** `Ruffle.addWebsocketListener(store, name, getOne, getMany)`: last registration wins. */
  function AddWebsocketListener(r: Ruffle, store: nat, name: string, getOne: AsyncAction, getMany: AsyncAction): (r': Ruffle)
    ensures name in r'.websocketListeners && r'.websocketListeners[name] == Listener(store, getOne, getMany)
    ensures forall n :: n != name ==> (n in r'.websocketListeners <==> n in r.websocketListeners)
    ensures forall n :: n != name && n in r.websocketListeners ==> r'.websocketListeners[n] == r.websocketListeners[n]
    ensures r'.registeredSlices == r.registeredSlices && r'.sliceOrder == r.sliceOrder
  {
    r.(websocketListeners := r.websocketListeners[name := Listener(store, getOne, getMany)])
  }

  /** A websocket message after `JSON.parse`: its `type` and its `id` (undefined when absent). */
  datatype Message = Message(msgType: string, id: Value)

  /** `store.dispatch(thunk(params))`: the one dispatch a message causes. */
  datatype Dispatch = Dispatch(store: nat, thunk: AsyncAction, params: Params)

  /**
    `Ruffle.fireMessageReceived(message)`: an unknown type fails (destructuring
    an undefined entry); a truthy `id` dispatches `getOne({id})`, anything
    else `getMany()`, on the store the listener was registered with.
   */
  function FireMessageReceived(r: Ruffle, msg: Message): (res: Result<Dispatch>)
    ensures res.Err? <==> msg.msgType !in r.websocketListeners
    ensures res.Err? ==> res.thrown == TypeError
    ensures res.Ok? ==> res.value.store == r.websocketListeners[msg.msgType].store
    ensures res.Ok? && Truthy(msg.id) ==>
      res.value.thunk == r.websocketListeners[msg.msgType].getOne && res.value.params == Some(map["id" := msg.id])
    ensures res.Ok? && !Truthy(msg.id) ==>
      res.value.thunk == r.websocketListeners[msg.msgType].getMany && res.value.params.None?
  {
    if msg.msgType !in r.websocketListeners then Err(TypeError)
    else
      var l := r.websocketListeners[msg.msgType];
      if Truthy(msg.id) then Ok(Dispatch(l.store, l.getOne, Some(map["id" := msg.id])))
      else Ok(Dispatch(l.store, l.getMany, None))
  }

  /**
    A message is routed by the listener most recently added under its type;
    adding a listener under another name does not change its routing.
   */
  lemma RoutingFollowsLastListener(r: Ruffle, store: nat, name: string, getOne: AsyncAction,
                                   getMany: AsyncAction, msg: Message)
    ensures var r' := AddWebsocketListener(r, store, name, getOne, getMany);
      && (msg.msgType == name ==>
            FireMessageReceived(r', msg) ==
              Ok(if Truthy(msg.id) then Dispatch(store, getOne, Some(map["id" := msg.id]))
                 else Dispatch(store, getMany, None)))
      && (msg.msgType != name ==> FireMessageReceived(r', msg) == FireMessageReceived(r, msg))
  {
  }

  function ApplyEffect(w: World, e: Effect): World {
    match e
    case RegisterReducerStep(name, reducer) => w.(store := RegisterReducer(w.store, name, reducer))
    case AddListenerStep(name, getOne, getMany) =>
      w.(ruffle := AddWebsocketListener(w.ruffle, w.store.id, name, getOne, getMany))
  }

  /** Invoking a callback with the world's store. */
  function RunCallback(w: World, cb: Callback): (w': World)
    ensures w'.store.id == w.store.id
    ensures w'.ruffle.registeredSlices == w.ruffle.registeredSlices
    ensures w'.ruffle.sliceOrder == w.ruffle.sliceOrder
    decreases |cb|
  {
    if cb == [] then w else RunCallback(ApplyEffect(w, cb[0]), cb[1..])
  }

  /** One invocation of a registered callback: its key and the store it was handed. */
  datatype Invocation = Invocation(key: string, store: nat)

  /** The `forEach` of `configureSlices` over the keys still to visit. */
  function ConfigureKeys(w: World, keys: seq<string>): (res: (World, seq<Invocation>))
    requires forall k :: k in keys ==> k in w.ruffle.registeredSlices
    ensures res.0.store.id == w.store.id
    ensures res.0.ruffle.registeredSlices == w.ruffle.registeredSlices
    ensures res.0.ruffle.sliceOrder == w.ruffle.sliceOrder
    ensures |res.1| == |keys|
    ensures forall i :: 0 <= i < |keys| ==> res.1[i] == Invocation(keys[i], w.store.id)
    decreases |keys|
  {
    if keys == [] then (w, [])
    else
      var w1 := RunCallback(w, w.ruffle.registeredSlices[keys[0]]);
      var rest := ConfigureKeys(w1, keys[1..]);
      (rest.0, [Invocation(keys[0], w.store.id)] + rest.1)
  }

  /**
    `Ruffle.configureSlices(store)`: every registered callback is invoked
    exactly once, in registration order, each time with the same store.
   */
  function ConfigureSlices(w: World): (res: (World, seq<Invocation>))
    requires Valid(w.ruffle)
    ensures forall k :: k in w.ruffle.registeredSlices <==> exists i :: 0 <= i < |res.1| && res.1[i].key == k
    ensures forall i, j :: 0 <= i < j < |res.1| ==> res.1[i].key != res.1[j].key
    ensures forall i :: 0 <= i < |res.1| ==> res.1[i].store == w.store.id
    ensures |res.1| == |w.ruffle.sliceOrder| && forall i :: 0 <= i < |res.1| ==> res.1[i].key == w.ruffle.sliceOrder[i]
    ensures res.0.ruffle.registeredSlices == w.ruffle.registeredSlices
    ensures res.0.store.id == w.store.id
    ensures Valid(res.0.ruffle)
  {
    var res := ConfigureKeys(w, w.ruffle.sliceOrder);
    assert forall k :: k in w.ruffle.registeredSlices ==> exists i :: 0 <= i < |res.1| && res.1[i].key == k by {
      forall k | k in w.ruffle.registeredSlices
        ensures exists i :: 0 <= i < |res.1| && res.1[i].key == k
      {
        var i :| 0 <= i < |w.ruffle.sliceOrder| && w.ruffle.sliceOrder[i] == k;
        assert res.1[i].key == k;
      }
    }
    res
  }

  /** The names a callback registers reducers under. */
  function ReducerNames(cb: Callback): set<string>
    decreases |cb|
  {
    if cb == [] then {}
    else (if cb[0].RegisterReducerStep? then {cb[0].name} else {}) + ReducerNames(cb[1..])
  }

  /** The listener entries a callback writes, later writes overriding earlier ones. */
  function ListenerWrites(cb: Callback, store: nat): map<string, Listener>
    decreases |cb|
  {
    if cb == [] then map[]
    else
      var first := match cb[0]
        case AddListenerStep(name, getOne, getMany) => map[name := Listener(store, getOne, getMany)]
        case RegisterReducerStep(_, _) => map[];
      first + ListenerWrites(cb[1..], store)
  }

  /** Running a callback overwrites exactly the listeners it writes. */
  lemma {:induction false} RunCallbackListeners(w: World, cb: Callback)
    ensures RunCallback(w, cb).ruffle.websocketListeners
         == w.ruffle.websocketListeners + ListenerWrites(cb, w.store.id)
    decreases |cb|
  {
    if cb != [] {
      var w1 := ApplyEffect(w, cb[0]);
      RunCallbackListeners(w1, cb[1..]);
      assert w1.store.id == w.store.id;
    }
  }

  /** After a callback runs, every name it registers has a reducer, and no entry is lost. */
  lemma {:induction false} RunCallbackRegisters(w: World, cb: Callback)
    ensures TableOf(w.store).Keys + (ReducerNames(cb) - ObjectPrototypeKeys) <= TableOf(RunCallback(w, cb).store).Keys
    ensures w.store.currentReducers.Some? || ReducerNames(cb) != {} ==> RunCallback(w, cb).store.currentReducers.Some?
    decreases |cb|
  {
    if cb != [] {
      RunCallbackRegisters(ApplyEffect(w, cb[0]), cb[1..]);
    }
  }

  /** A callback whose reducer names the `in` test already finds in an existing table leaves the store alone. */
  lemma {:induction false} RunCallbackKeepsFullStore(w: World, cb: Callback)
    requires ReducerNames(cb) <= TableOf(w.store).Keys + ObjectPrototypeKeys
    requires w.store.currentReducers.Some? || ReducerNames(cb) == {}
    ensures RunCallback(w, cb).store == w.store
    decreases |cb|
  {
    if cb != [] {
      if cb[0].RegisterReducerStep? {
        assert HasProperty(TableOf(w.store), cb[0].name);
      }
      RunCallbackKeepsFullStore(ApplyEffect(w, cb[0]), cb[1..]);
    }
  }

  /** Running the same callback twice with the same store is the same as running it once. */
  lemma RunCallbackTwice(w: World, cb: Callback)
    ensures RunCallback(RunCallback(w, cb), cb) == RunCallback(w, cb)
  {
    var w1 := RunCallback(w, cb);
    var w2 := RunCallback(w1, cb);
    RunCallbackRegisters(w, cb);
    RunCallbackKeepsFullStore(w1, cb);
    RunCallbackListeners(w, cb);
    RunCallbackListeners(w1, cb);
    var lw := ListenerWrites(cb, w.store.id);
    assert w2.ruffle.websocketListeners == (w.ruffle.websocketListeners + lw) + lw;
    assert w2.ruffle == w1.ruffle;
  }

  lemma {:induction false} RunCallbackAppend(w: World, a: Callback, b: Callback)
    ensures RunCallback(w, a + b) == RunCallback(RunCallback(w, a), b)
    decreases |a|
  {
    if a != [] {
      assert (a + b)[0] == a[0];
      assert (a + b)[1..] == a[1..] + b;
      RunCallbackAppend(ApplyEffect(w, a[0]), a[1..], b);
    } else {
      assert a + b == b;
    }
  }

  /** All the callbacks of `keys`, in order, as one callback. */
  function Concatenated(r: Ruffle, keys: seq<string>): Callback
    requires forall k :: k in keys ==> k in r.registeredSlices
    decreases |keys|
  {
    if keys == [] then [] else r.registeredSlices[keys[0]] + Concatenated(r, keys[1..])
  }

  lemma {:induction false} ConcatenatedDependsOnRegistry(r1: Ruffle, r2: Ruffle, keys: seq<string>)
    requires r1.registeredSlices == r2.registeredSlices
    requires forall k :: k in keys ==> k in r1.registeredSlices
    ensures Concatenated(r1, keys) == Concatenated(r2, keys)
    decreases |keys|
  {
    if keys != [] {
      ConcatenatedDependsOnRegistry(r1, r2, keys[1..]);
    }
  }

  lemma {:induction false} ConfigureKeysRunsConcatenation(w: World, keys: seq<string>)
    requires forall k :: k in keys ==> k in w.ruffle.registeredSlices
    ensures ConfigureKeys(w, keys).0 == RunCallback(w, Concatenated(w.ruffle, keys))
    decreases |keys|
  {
    if keys != [] {
      var cb := w.ruffle.registeredSlices[keys[0]];
      var w1 := RunCallback(w, cb);
      ConfigureKeysRunsConcatenation(w1, keys[1..]);
      ConcatenatedDependsOnRegistry(w1.ruffle, w.ruffle, keys[1..]);
      RunCallbackAppend(w, cb, Concatenated(w.ruffle, keys[1..]));
    }
  }

  /** What `configureSlices` leaves is what the callbacks leave, run one after another in key order. */
  lemma ConfigureSlicesRunsCallbacks(w: World)
    requires Valid(w.ruffle)
    ensures ConfigureSlices(w).0 == RunCallback(w, Concatenated(w.ruffle, w.ruffle.sliceOrder))
  {
    ConfigureKeysRunsConcatenation(w, w.ruffle.sliceOrder);
  }

  /**
    Configuring the same store twice changes nothing the second time: every
    reducer name is already in the table or inherited (first registration
    wins, so no `replaceReducer` call), and the listeners are overwritten with the same entries.
   */
  lemma ConfigureSlicesIdempotent(w: World)
    requires Valid(w.ruffle)
    ensures ConfigureSlices(ConfigureSlices(w).0).0 == ConfigureSlices(w).0
  {
    var keys := w.ruffle.sliceOrder;
    var cb := Concatenated(w.ruffle, keys);
    var w1 := ConfigureSlices(w).0;
    ConfigureSlicesRunsCallbacks(w);
    ConfigureKeysRunsConcatenation(w1, keys);
    ConcatenatedDependsOnRegistry(w1.ruffle, w.ruffle, keys);
    RunCallbackTwice(w, cb);
  }

  /**
    The two tables disagree on a duplicate name: the callback registry keeps
    the last registration, the reducer table the first (and the second
    registration calls `replaceReducer` no more).
   */
  lemma DuplicateNamePolicies(r: Ruffle, s: Store, name: string, cb1: Callback, cb2: Callback,
                              red1: ReducerRef, red2: ReducerRef)
    ensures RegisterSlice(RegisterSlice(r, name, cb1), name, cb2).registeredSlices[name] == cb2
    ensures RegisterSlice(RegisterSlice(r, name, cb1), name, cb2) == RegisterSlice(r, name, cb2)
    ensures var s1 := RegisterReducer(s, name, red1);
      && RegisterReducer(s1, name, red2) == s1
      && (!HasProperty(TableOf(s), name) ==> RegisterReducer(s1, name, red2).currentReducers.value[name] == red1)
  {
  }
}
