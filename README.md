# RcoCcontext: a verified model of the reference-passing RPC context

jsRCO lets two peers call each other's functions over any message channel.
Its engine is the class `RcoCcontext`. The class keeps four pieces of state:

- the named functions the peer may call by name;
- the table of local functions the peer may call by handle id (each entry a
  `TmpFunctionInfo`: the function, a single-use flag and a release target);
- the proxies it holds for the peer's functions;
- the output stream with its encoding.

When a value crosses the channel, every function inside it is replaced by a
placeholder and registered under a fresh id (extraction). On arrival, every
placeholder becomes a proxy that calls the peer back by that id (injection).
Each outbound call mints a resolve/reject pair of single-use entries, and
each of the two retires the other when it is invoked.

The project has five modules:

- `Values` (`values.dfy`): the value tree that crosses the channel. It has
  `Undefined`, `Null`, booleans, numbers, strings, arrays, objects,
  functions, placeholders and `Error` instances (`HostError`). It
  also has the measures used in the lemmas: the functions of a tree in order
  (`Fns`), whether it contains a null (`HasNull`), and its shape.
- `FunctionInfo` (`function_info.dfy`): `TmpFunctionInfo` as the datatype
  `FuncInfo`. It also defines the entry that extraction registers
  (`Ordinary`) and what looking an entry up for invocation does to the table
  (`AfterInvoke`).
- `Codec` (`codec.dfy`): extraction and injection as pure recursive
  functions, with their lemmas. These cover:
  - null handling;
  - plain trees passing through unchanged;
  - tokens numbered in order;
  - shape preservation;
  - the extract-then-inject round trip;
  - distinct proxies for distinct occurrences.
- `Protocol` (`protocol.dfy`): the context's state as the value `State`, and
  every operation as a function on it, with the invariant and the protocol
  properties proved as lemmas. The operations are the packet dispatcher,
  answering a call, outbound calls, collection, binding, named functions and
  `onData`.
- `Context` (`context.dfy`): the class `RcoContext`, whose fields mirror
  `State`. Its methods update those fields in place, as the source does:
  - the extraction recursion registers each function as it walks, and fills
    the handle map;
  - the injection loop fills the generated and holding maps;
  - the release loop deletes ids one by one.

  Each method's `ensures` ties the new state, through `Snapshot()`, to the
  `Protocol` function of the old state. Every lemma proved in `Protocol`
  therefore holds of the class.

Modelling choices:

- Handle ids come from `MintId(n)`, a counter. The id minted at count `n`
  has length `n + 1`, so an id minted later never equals one already in the
  table.
- The empty string stands for an absent resolve id, reject id or release
  target. The source treats `undefined` and `""` alike, since both are
  falsy.
- Each inbound packet is one atomic step. How the invoked function comes
  back is a parameter: `Returned(v)` or `Threw(e)`.
- Writing to an output that was never bound throws in the source. That
  exception never produces a packet, so here `Emit` is a no-op when the
  stream is unbound.
- `null` has `typeof` `"object"`, so both traversals take it down the
  object branch, where `Object.keys(null)` throws. The model keeps this as
  a failed walk (`None`), together with what happened before the throw:
  - the functions already registered stay registered;
  - the proxies already generated stay generated.
- The same function object at two positions gets two ids and two proxies.
  Nothing is deduplicated.

## Model

| member | source | states |
|---|---|---|
| FunctionInfo.AfterInvoke | src/context/RcoCcontext.js:186-190 | looking an entry up for invocation removes it exactly when it is single-use, removes its release target exactly when that is non-empty, and leaves every other entry as it was |
| FunctionInfo.OrdinaryEntryStays | src/context/TmpFunctionInfo.js:15-22 | invoking an ordinary entry leaves the table unchanged |
| Codec.ExtractWalk | src/context/RcoCcontext.js:386-430 | extraction of a tree from a given count: placeholders for functions, registered functions in order, failure on a null; its properties are the rows ExtractOutcome, ExtractPlain, ExtractClean, ExtractTokens, ExtractSkeleton and ExtractInjectRoundTrip |
| Codec.InjectWalk | src/context/RcoCcontext.js:349-373 | injection of a tree with a handle map and the generated proxies: each mapped placeholder becomes its id's proxy, failure on a null; its properties are the rows InjectOutcome, InjectPlain, InjectFns, InjectShape and ExtractInjectRoundTrip |
| Codec.MintId | src/context/RcoCcontext.js:400 | the id minted at count n has length n + 1, so ids minted at different counts differ |
| Codec.PlaceholdersMapToTheirFunctions | src/context/RcoCcontext.js:397-403 | an extraction makes one placeholder per function met; its handle map has exactly those placeholders as keys; the i-th placeholder maps to an id whose registered entry is the ordinary entry of the i-th function met |
| Codec.HandleMapEmpty | src/context/RcoCcontext.js:150 | the handle map is empty exactly when the walk met no function, which is when the packet carries `undefined` in its place |
| Codec.EntriesAreOrdinary | src/context/RcoCcontext.js:397-403 | n functions met give n entries under the n next ids, in order; each is ordinary and holds the function met at that position |
| Codec.EntriesAppend | src/context/RcoCcontext.js:405-419 | registering the functions of two consecutive parts of a tree is registering those of the whole |
| Codec.Generated | src/context/RcoCcontext.js:313-342 | the generated map has one proxy per distinct id of the handle map, and every token's id maps to that id's proxy |
| Codec.ExtractOutcome | src/context/RcoCcontext.js:395-423 | extraction fails exactly when the tree contains a null; otherwise it meets exactly the functions of the tree, in order |
| Codec.ExtractItemsOutcome | src/context/RcoCcontext.js:407-419 | the same for the elements of an array or the values of an object, and every element comes back |
| Codec.InjectOutcome | src/context/RcoCcontext.js:349-373 | injection fails exactly when the tree contains a null |
| Codec.ExtractPlain | src/context/RcoCcontext.js:395-423 | a tree with no function, placeholder, error or null comes back equal, with nothing registered |
| Codec.InjectPlain | src/context/RcoCcontext.js:349-373 | a tree with no function, placeholder, error or null comes back equal |
| Codec.NonObjectsPassThrough | src/context/RcoCcontext.js:370-372 | a primitive is returned unchanged by injection, and by extraction unless it is a function |
| Codec.ExtractClean | src/context/RcoCcontext.js:397-404 | an extracted tree holds no function and no null |
| Codec.ExtractTokens | src/context/RcoCcontext.js:397-404 | the placeholders of an extracted tree carry consecutive new tokens, one per function met, in order |
| Codec.ExtractSkeleton | src/context/RcoCcontext.js:395-423 | extraction keeps the shape of the tree and puts a placeholder wherever there was a function |
| Codec.InjectFns | src/context/RcoCcontext.js:349-373 | the functions of an injected tree are, in order, the proxies of the ids its placeholders map to |
| Codec.InjectShape | src/context/RcoCcontext.js:349-373 | injection keeps the shape of the tree and puts a function wherever there was a placeholder |
| Codec.ExtractInjectRoundTrip | src/context/RcoCcontext.js:349-429 | extracting a null-free tree and injecting the result with its handle map gives a tree of the original shape whose functions are, in order, proxies of the newly minted ids |
| Codec.OccurrencesGetDistinctProxies | src/context/RcoCcontext.js:397-403 | two occurrences of a function, even of the same one, come back as two different proxies |
| Codec.ExtractItemsStopsAtFailure | src/context/RcoCcontext.js:409-419 | once a walk over the elements fails, later elements change nothing |
| Codec.ExtractItemsStep | src/context/RcoCcontext.js:409-419 | walking one more element continues the walk from the next count and appends its result |
| Protocol.InjectArgs | src/context/RcoCcontext.js:134-138 | argument preparation of an inbound call: used as they are without a handle map, injected with one; stated by InjectArgsEffect and InjectArgsKeepsInv |
| Protocol.Answer | src/context/RcoCcontext.js:140-162 | the reply to an invoked function's outcome; stated by ReturnedValueIsSent, ReturnedNullIsRejected, ThrownValueIsSent, NoReplyIdNoPacket, AnswerOnlyAdds and AnswerKeepsInv |
| Protocol.Dispatch | src/context/RcoCcontext.js:123-237 | the effect of one inbound packet; stated by ReleaseRemovesListed, UnresolvedCall, DispatchByName, DispatchInjectionThrows, DispatchById, CallByIdRetiresBeforeInvoking, InvokingHalfRetiresSibling and DispatchKeepsInv |
| Protocol.SendCall | src/context/RcoCcontext.js:263-281 | an outbound call and its promise; stated by SendCallWalksArgs, SendCallMintsPair, SendCallSendsOnePacket, SendCallNullArgs and SendCallKeepsInv |
| Protocol.Collect | src/context/RcoCcontext.js:57-64 | the finalizer callback; stated by CollectReleasesOnce and CollectKeepsInv |
| Protocol.Bind | src/context/RcoCcontext.js:93-105 | binding the output stream; stated by StreamTypes, BindReplacesCallback and ConfigurationKeepsInv |
| Protocol.AddNamed | src/context/RcoCcontext.js:111-117 | merging named functions; stated by AddNamedOverwrites and ConfigurationKeepsInv |
| Protocol.OnData | src/context/RcoCcontext.js:243-253 | input by shape; stated by InputShapes |
| Protocol.FreshIds | src/context/RcoCcontext.js:268-269 | every id minted from the current count on is absent from the table |
| Protocol.InitialInv | src/context/RcoCcontext.js:17-46 | the initial state satisfies the invariant |
| Protocol.RegisterAddsOrdinaryEntries | src/context/RcoCcontext.js:397-403 | registering n functions adds exactly n ordinary entries under n new distinct ids, and changes no existing entry |
| Protocol.RegisterAppend | src/context/RcoCcontext.js:405-419 | registration made part by part equals registration made at once |
| Protocol.RegisterNothing | src/context/RcoCcontext.js:421-422 | a walk with no function registers nothing |
| Protocol.RegisterOne | src/context/RcoCcontext.js:398-402 | one function gives one ordinary entry under the next id |
| Protocol.RegisterKeepsInv | src/context/RcoCcontext.js:397-403 | registration keeps the invariant |
| Protocol.RegisterOnlyAdds | src/context/RcoCcontext.js:401 | registration keeps every entry and adds only new ids |
| Protocol.ReleaseRemovesListed | src/context/RcoCcontext.js:227-233 | `[2, ids...]` removes exactly the listed ids, keeps every other entry, sends nothing, and changes nothing else |
| Protocol.ReleaseAbsentIsNoOp | src/context/RcoCcontext.js:227-233 | releasing ids that have no entry changes nothing |
| Protocol.ReleaseIdempotent | src/context/RcoCcontext.js:227-233 | a release packet delivered twice acts as one |
| Protocol.ReleaseIsOneDirectional | src/context/RcoCcontext.js:186-190 | releasing one half of a pair leaves its sibling in place; invoking it retires the sibling |
| Protocol.UnresolvedCall | src/context/RcoCcontext.js:164-172 | a call that resolves to nothing sends one "function does not exist" reply exactly when it carries a reject id, and otherwise changes nothing |
| Protocol.MissesAnsweredAlike | src/context/RcoCcontext.js:216-224 | a named call and an id call that both find nothing have the same effect |
| Protocol.IgnoredPacket | src/context/RcoCcontext.js:125-234 | a packet that is not an array, or has an unknown type, changes nothing |
| Protocol.InjectArgsEffect | src/context/RcoCcontext.js:134-138 | without a handle map the arguments are used as they are; with one, each distinct id gets exactly one new held and registered proxy, even an id no placeholder uses |
| Protocol.InjectArgsKeepsInv | src/context/RcoCcontext.js:313-342 | injection keeps the invariant |
| Protocol.ReturnedValueIsSent | src/context/RcoCcontext.js:143-151 | a returned null-free value is extracted and sent to the resolve id with its handle map, and its functions get entries |
| Protocol.ReturnedNullIsRejected | src/context/RcoCcontext.js:143-161 | a returned value holding a null makes extraction throw: the error goes to the reject id, and the functions met before the null keep their entries |
| Protocol.ThrownValueIsSent | src/context/RcoCcontext.js:154-161 | a thrown value is sent to the reject id as it is, with no handle map, and nothing else changes |
| Protocol.NoReplyIdNoPacket | src/context/RcoCcontext.js:195-213 | without the matching reply id nothing is sent and nothing changes |
| Protocol.AnswerKeepsInv | src/context/RcoCcontext.js:192-214 | answering keeps the invariant |
| Protocol.AfterInvokeKeepsTableOk | src/context/RcoCcontext.js:186-190 | retiring an invoked entry keeps the table well formed |
| Protocol.AnswerOnlyAdds | src/context/RcoCcontext.js:192-214 | answering keeps every entry and adds only new ids; a thrown outcome adds none |
| Protocol.DispatchByName | src/context/RcoCcontext.js:130-163 | a named call to a registered function prepares the arguments, which changes neither the table nor the identifier count, retires no entry, and then answers the outcome |
| Protocol.DispatchInjectionThrows | src/context/RcoCcontext.js:180-184 | a call that resolves, carries a handle map and has a null in its arguments throws while injecting, before the lookup at 186-190 and the try at 192 (134-138 and 140 for a named call): no entry is retired, nothing is sent even to a reject id, the table and the identifier count are unchanged, and only the proxies made for the map remain |
| Protocol.DispatchById | src/context/RcoCcontext.js:175-214 | an id call to a present entry prepares the arguments first, then retires the entry, then answers |
| Protocol.CallByIdRetiresBeforeInvoking | src/context/RcoCcontext.js:186-194 | whatever the function does, a single-use entry is gone after it is called by id, and so is its release target; every other entry is unchanged and any added entry is new; if the function throws, the table is exactly the table after retiring |
| Protocol.AnswerFrame | src/context/RcoCcontext.js:140-162 | answering changes neither the named functions, nor the binding, nor the held proxies |
| Protocol.DispatchFrame | src/context/RcoCcontext.js:123-237 | no inbound packet changes the named functions or the binding |
| Protocol.DispatchKeepsInv | src/context/RcoCcontext.js:123-237 | every inbound packet keeps the invariant |
| Protocol.ReleaseKeepsInv | src/context/RcoCcontext.js:227-233 | a release packet keeps the invariant |
| Protocol.CallKeepsInv | src/context/RcoCcontext.js:130-226 | a call packet keeps the invariant |
| Protocol.AddPairMintsSiblings | src/context/RcoCcontext.js:268-271 | an outbound call adds two new distinct single-use entries, each naming the other as release target, and changes nothing else in the table |
| Protocol.SendExtractedTable | src/context/RcoCcontext.js:267-271 | an outbound call registers the argument functions first, then the pair |
| Protocol.SendCallMintsPair | src/context/RcoCcontext.js:267-271 | the pair's ids come after the argument functions' ids, are new and distinct, and each entry is single-use and retires the other |
| Protocol.SendCallSendsOnePacket | src/context/RcoCcontext.js:272-279 | when bound, exactly one packet is appended: the target, the extracted arguments, the handle map (absent when empty) and both ids, and the promise waits on that pair; unbound, nothing is sent and the promise is rejected |
| Protocol.SendCallWalksArgs | src/context/RcoCcontext.js:267 | the arguments are walked as one array, which fails exactly when they hold a null |
| Protocol.SendCallNullArgs | src/context/RcoCcontext.js:265-267 | arguments holding a null reject the promise with the TypeError; no pair and no packet, but the functions met before the null keep their entries |
| Protocol.AddPairKeepsInv | src/context/RcoCcontext.js:268-271 | minting the pair keeps the invariant |
| Protocol.SendExtractedKeepsInv | src/context/RcoCcontext.js:267-279 | an outbound call keeps the invariant |
| Protocol.SendCallKeepsInv | src/context/RcoCcontext.js:263-281 | an outbound call keeps the invariant |
| Protocol.InvokingHalfRetiresSibling | src/context/RcoCcontext.js:186-190 | once one half of a pair is invoked, both halves are gone, and a later call to the sibling is answered "function does not exist" |
| Protocol.MadeFunctionsCall | src/context/RcoCcontext.js:292-297 | a facade function calls the named function of its key; a proxy calls the peer's function by its id |
| Protocol.CollectReleasesOnce | src/context/RcoCcontext.js:57-64 | collecting a proxy drops its registration and the holding entry for its id, whichever proxy is held there now; keeps every other holding entry and the whole table; and sends exactly one `[2, id]` when the output is bound, nothing otherwise |
| Protocol.CollectKeepsInv | src/context/RcoCcontext.js:57-64 | collection keeps the invariant |
| Protocol.StreamTypes | src/context/RcoCcontext.js:97-104 | "raw" is tag 0, "jsob" and "jsobin" are 1, "base64" is 2, and no other name is accepted |
| Protocol.BindReplacesCallback | src/context/RcoCcontext.js:93-105 | binding always replaces the callback, even when the type is refused; a refused type keeps the encoding and reports the error |
| Protocol.AddNamedOverwrites | src/context/RcoCcontext.js:111-117 | named functions are merged, overwriting same-name entries and keeping the others |
| Protocol.ConfigurationKeepsInv | src/context/RcoCcontext.js:93-117 | binding and adding named functions keep the invariant |
| Protocol.InputShapes | src/context/RcoCcontext.js:243-253 | a string is decoded as base64 text and a byte array as a JSOBin encoding, and the packet is dispatched; any other object, null included, is dispatched as the packet itself, so null and non-array objects change nothing and raise no error; a number, boolean, undefined or function is refused with an error and changes nothing |
| Context.MapFieldAgrees | src/context/RcoCcontext.js:150 | the handle map field the class writes from the map it built (absent when empty) is the field the specification writes from the number of functions met |
| Context.RcoContext.constructor | src/context/RcoCcontext.js:17-64 | a new context is the initial state |
| Context.RcoContext.OutputPacket | src/context/RcoCcontext.js:71-85 | the packet is appended to the output when the stream is bound, and nothing else changes |
| Context.RcoContext.BindOutStream | src/context/RcoCcontext.js:93-105 | the new state and the error are those of `Bind` |
| Context.RcoContext.AddGlobalNamedFunctions | src/context/RcoCcontext.js:111-117 | after the loop over the names, the state is that of `AddNamed` |
| Context.RcoContext.Traverse | src/context/RcoCcontext.js:395-423 | the recursive walk returns the extracted tree, registers exactly the functions met, in order, and keeps its handle map in step with the ids minted |
| Context.RcoContext.RegisterFunction | src/context/RcoCcontext.js:397-404 | a function becomes a placeholder with the current token, and one ordinary entry under the next id |
| Context.RcoContext.TraverseItems | src/context/RcoCcontext.js:407-419 | the loop over the elements walks each in turn and stops at the first failure |
| Context.RcoContext.Extract | src/context/RcoCcontext.js:386-430 | the result and the handle map are those of the extraction from the current count, with the functions registered |
| Context.RcoContext.GenerateProxies | src/context/RcoCcontext.js:313-342 | the loop makes one proxy per distinct id, and holds and registers each |
| Context.RcoContext.InjectFunction | src/context/RcoCcontext.js:307-379 | the state and the result are those of `InjectArgs` with a handle map |
| Context.RcoContext.Respond | src/context/RcoCcontext.js:192-214 | answering in place has the effect of `Answer` |
| Context.RcoContext.ReleaseIds | src/context/RcoCcontext.js:227-233 | the loop deletes exactly the listed ids |
| Context.RcoContext.Retire | src/context/RcoCcontext.js:186-190 | the table becomes `AfterInvoke` of the old table |
| Context.RcoContext.CallLocal | src/context/RcoCcontext.js:130-226 | a call packet has the effect of `Dispatch` |
| Context.RcoContext.OnPacket | src/context/RcoCcontext.js:123-237 | every packet has the effect of `Dispatch` |
| Context.RcoContext.OnData | src/context/RcoCcontext.js:243-253 | the state and the error are those of `Protocol.OnData` |
| Context.RcoContext.SendOutbound | src/context/RcoCcontext.js:318-334 | an outbound call has the effect and the promise of `SendCall` |
| Context.RcoContext.CallNamedFunction | src/context/RcoCcontext.js:263-281 | a named call has the effect and the promise of `SendCall` to that name |
| Context.RcoContext.CallMadeFunction | src/context/RcoCcontext.js:288-300 | calling a facade function or a proxy has the effect of `CallMade` |
| Context.RcoContext.Finalize | src/context/RcoCcontext.js:57-64 | the finalizer callback has the effect of `Collect` |

## Left out

- The JSOBin codec, and the base64 helpers around the host's `atob`/`btoa`, are not part of this model. `onData` takes the two decoders as function parameters. `outputPacket` keeps only the 0/1/2 encoding tag, and the log records packets as decoded trees.
- `uniqueIdentifierString` is not part of this model. It is replaced by the counter `MintId`, which gives the freshness the source relies on.
- WeakRef and FinalizationRegistry timing are not modelled, and neither is garbage-collection reachability. Collection is the explicit event `Finalize`/`Collect`, with the callback's effect.
- Async interleaving and promise settlement are not modelled. Each inbound packet is one atomic step, and the invoked function's outcome is a parameter. A resolve or reject function is the abstract `Settle` value, and the promise is `Pending(resolveId, rejectId)` or `Rejected(reason)`.
- The JS `Proxy` object of `getGlobalNamedFunctionProxy` is not modelled. Only its `get` is kept: `FacadeGet(key)` yields a function that calls `callNamedFunction(key, ...)`. The refusing `set` trap is omitted.
- The decoders passed to `onData` are total functions. A malformed text or binary payload, on which decoding throws out of `onData`, cannot be expressed.
- Cyclic argument graphs are not modelled: a `Value` is a finite tree, while the source's traversals never finish on a cycle.
- Numbers are unbounded integers. Floating point is not modelled.
- Object keys are a sequence, and the order of map iteration is the sequence order.
- No single lemma states the whole pair property ("after either id is invoked, the other is answered 'function does not exist'"). It is split across two lemmas: `SendCallMintsPair` says how the pair is made, and `InvokingHalfRetiresSibling` says what invoking one half does to the other.
- The class `RcoContext` has no `Valid()` predicate. The invariant `Protocol.Inv` is kept by the `...KeepsInv` lemmas about the `Protocol` function that each method is proved equal to.
