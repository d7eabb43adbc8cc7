/** The state of one context and the effect of each event on it: an inbound
    packet, an outbound call, a collected proxy, a configuration call. The
    class in module Context carries out the same steps in place; the
    functions here are its specification. */
module Protocol {
  import opened Values
  import opened FunctionInfo
  import opened Codec

  /** What a call packet addresses: a named function or a handle id. */
  datatype Target = Named(name: string) | ById(id: string)

  /** Packets as decoded trees.
      `Call(Named(n), args, fnMap, res, rej)` is `[0, n, args, fnMap, res, rej]`,
      `Call(ById(id), ...)` is `[1, id, ...]` (a response is one of these
      with a one-element argument array and no reply ids), an absent handle
      map is `None` and an absent reply id is "" (both are falsy).
      `Release(ids)` is `[2, ids...]`. `Ignored` is anything else: a value
      that is not an array, or an array whose type tag is not 0, 1 or 2. */
  datatype Packet =
    | Call(target: Target, args: Value, fnMap: Option<map<nat, string>>, resolveId: string, rejectId: string)
    | Release(ids: seq<string>)
    | Ignored

  /** `p` is the call packet with these fields. */
  predicate IsCall(p: Packet, target: Target, args: Value, fnMap: Option<map<nat, string>>, resolveId: string, rejectId: string) {
    p.Call? && p.target == target && p.args == args && p.fnMap == fnMap
    && p.resolveId == resolveId && p.rejectId == rejectId
  }

  /** How the invoked function came back: a value, or a thrown value. */
  datatype Outcome = Returned(value: Value) | Threw(error: Value)

  /** The output stream types. */
  datatype Encoding = Raw | Jsob | Base64

  /** What an outbound call hands back to its caller: a promise that waits
      for the reply packet, or one that is already rejected. */
  datatype Promise = Pending(resolveId: string, rejectId: string) | Rejected(reason: Value)

  /** The state of a context.
      `named`: the named functions; `table`: handle id to entry for local
      functions the peer may call; `holding`: handle id to the proxy that
      currently stands for the peer's function with that id; `registered`:
      the proxies whose collection will be reported; `bound`: an output
      callback has been bound; `out`: the packets handed to the output
      callback, oldest first; `nextId`: how many identifiers have been
      handed out; `nextGen`: how many injections have made proxies. */
  datatype State = State(
    named: map<string, Fn>,
    table: Table,
    holding: map<string, Fn>,
    registered: set<Fn>,
    bound: bool,
    encoding: Encoding,
    out: seq<Packet>,
    nextId: nat,
    nextGen: nat)

  const NotExist: Value := Str("function does not exist")
  /** What Object.keys(null) throws. */
  const NullKeys: Value := HostError("Cannot convert undefined or null to object")
  const NotBound: string := "RcoCcontext: not bound to an output stream"
  const UnsupportedType: string := "RcoCcontext(bindOutStream): Unsupported output stream types"
  const UnknownInput: string := "RcoCcontext(onData): Unable to process this data type"

  /** A fresh context: nothing registered, no output callback, JSOBin
      encoding. */
  function Initial(): State {
    State(map[], map[], map[], {}, false, Jsob, [], 0, 0)
  }

  /** The wire tag of an encoding. */
  function Tag(e: Encoding): nat {
    match e
    case Raw => 0
    case Jsob => 1
    case Base64 => 2
  }

  /** Handing a packet to the output callback. Before any callback is bound
      the placeholder callback throws; every caller then ends without a
      packet, so the step leaves the log as it is. */
  function Emit(s: State, p: Packet): State {
    if s.bound then s.(out := s.out + [p]) else s
  }

  /** `[1, id, [v]]`: a reply with no handle map and no reply ids. */
  function Reply(id: string, v: Value): Packet {
    Call(ById(id), Arr([v]), None, NoTarget, NoTarget)
  }

  /** The handle map field of an outgoing packet: undefined when empty. */
  function FnMapField(next: nat, count: nat): Option<map<nat, string>> {
    if count == 0 then None else Some(HandleMap(next, count))
  }

  /** The entries an extraction registers, and the identifiers it uses up. */
  function Register(s: State, fns: seq<Fn>): State {
    s.(table := s.table + Entries(s.nextId, fns), nextId := s.nextId + |fns|)
  }

  /** Does the target name something that can be invoked? */
  predicate Resolves(s: State, t: Target) {
    match t
    case Named(n) => n in s.named
    case ById(id) => id in s.table
  }

  /** Preparing the arguments of an inbound call: without a handle map they
      are used as they are; with one, a proxy is made and held for each
      distinct id of the map, and then the placeholders are replaced. The
      proxies stay even when the replacement throws. */
  function InjectArgs(s: State, args: Value, fnMap: Option<map<nat, string>>): (State, Option<Value>) {
    match fnMap
    case None => (s, Some(args))
    case Some(m) =>
      var g := Generated(m, s.nextGen);
      (s.(holding := s.holding + g, registered := s.registered + g.Values, nextGen := s.nextGen + 1),
       InjectWalk(args, m, g))
  }

  /** Reporting the outcome of an invoked function to the caller. A
      returned value is extracted and sent to the resolve id; extraction
      throws on a null, and then the error goes to the reject id instead.
      A thrown value goes to the reject id as it is. */
  function Answer(s: State, resolveId: string, rejectId: string, o: Outcome): State {
    match o
    case Returned(v) =>
      if resolveId == NoTarget then s
      else
        var w := ExtractWalk(v, s.nextId);
        var s1 := Register(s, w.fns);
        if w.tree.Some? then Emit(s1, Call(ById(resolveId), Arr([w.tree.value]), FnMapField(s.nextId, |w.fns|), NoTarget, NoTarget))
        else if rejectId != NoTarget then Emit(s1, Reply(rejectId, NullKeys))
        else s1
    case Threw(e) =>
      if rejectId == NoTarget then s else Emit(s, Reply(rejectId, e))
  }

  /** The effect of one inbound packet, given how the invoked function
      comes back. */
  function Dispatch(s: State, p: Packet, o: Outcome): State {
    match p
    case Ignored => s
    case Release(ids) => s.(table := s.table - set id | id in ids)
    case Call(target, args, fnMap, resolveId, rejectId) =>
      if !Resolves(s, target) then
        if rejectId != NoTarget then Emit(s, Reply(rejectId, NotExist)) else s
      else
        var (s1, injected) := InjectArgs(s, args, fnMap);
        if injected.None? then s1
        else
          var s2 := if target.ById? then s1.(table := AfterInvoke(s1.table, target.id)) else s1;
          Answer(s2, resolveId, rejectId, o)
  }

  /** The resolve/reject pair of an outbound call: single-use entries that
      retire each other. */
  function AddPair(s: State): State {
    var res := MintId(s.nextId);
    var rej := MintId(s.nextId + 1);
    s.(table := s.table[res := FuncInfo(Settle(res, true), true, rej)][rej := FuncInfo(Settle(res, false), true, res)],
       nextId := s.nextId + 2)
  }

  /** An outbound call (callNamedFunction, or a proxy made by injection):
      extract the arguments, mint the resolve/reject pair and send the call
      packet. */
  function SendCall(s: State, target: Target, args: seq<Value>): (State, Promise) {
    SendExtracted(s, target, ExtractWalk(Arr(args), s.nextId))
  }

  /** The steps of an outbound call after its arguments were walked. A walk
      that threw rejects the promise with the TypeError and mints no pair;
      an unbound output rejects it with the stream error after minting. */
  function SendExtracted(s: State, target: Target, w: Walk): (State, Promise) {
    var s1 := Register(s, w.fns);
    if w.tree.None? then (s1, Rejected(NullKeys))
    else
      var s2 := AddPair(s1);
      var res, rej := MintId(s1.nextId), MintId(s1.nextId + 1);
      if s2.bound then (Emit(s2, Call(target, w.tree.value, FnMapField(s.nextId, |w.fns|), res, rej)), Pending(res, rej))
      else (s2, Rejected(Str(NotBound)))
  }

  /** What reading a property of the named-function facade yields. */
  function FacadeGet(key: string): Fn {
    NamedCaller(key)
  }

  /** Calling a function this context made: a proxy calls the peer's
      function by id, a facade function calls the named function. */
  function CallMade(s: State, f: Fn, args: seq<Value>): (State, Promise)
    requires f.Remote? || f.NamedCaller?
  {
    if f.Remote? then SendCall(s, ById(f.id), args) else SendCall(s, Named(f.name), args)
  }

  /** The finalization callback for a collected proxy: forget the held
      proxy for its id and tell the peer to release the id. */
  function Collect(s: State, p: Fn): State
    requires p in s.registered && p.Remote?
  {
    Emit(s.(holding := s.holding - {p.id}, registered := s.registered - {p}), Release([p.id]))
  }

  /** The stream type names bindOutStream accepts. */
  function EncodingOf(kind: string): Option<Encoding> {
    if kind == "raw" then Some(Raw)
    else if kind == "jsob" || kind == "jsobin" then Some(Jsob)
    else if kind == "base64" then Some(Base64)
    else None
  }

  /** bindOutStream: the callback is replaced first, then the type is
      checked; an omitted type is "jsob". Returns the thrown error, if any. */
  function Bind(s: State, kind: Option<string>): (State, Option<string>) {
    var k := if kind.Some? then kind.value else "jsob";
    var s1 := s.(bound := true);
    match EncodingOf(k)
    case Some(e) => (s1.(encoding := e), None)
    case None => (s1, Some(UnsupportedType))
  }

  /** addGlobalNamedFunctions: later registrations replace earlier ones. */
  function AddNamed(s: State, fns: map<string, Fn>): State {
    s.(named := s.named + fns)
  }

  /** The values whose `typeof` is neither "string" nor "object". */
  type Scalar = v: Value | v.Undefined? || v.Bool? || v.Num? || v.Func? witness Undefined

  /** What onData may be given. A string and a byte array are decoded
      first. Any other object, null included, is handed to the dispatcher
      as it is; null and objects that are not packet arrays reach it as
      `Ignored`. */
  datatype Input =
    | Text(text: string)          // base64 of a JSOBin encoding
    | Binary(bytes: seq<bv8>)     // a JSOBin encoding
    | Structured(packet: Packet)  // any other object, null included, taken as the packet itself
    | Primitive(v: Scalar)        // a number, boolean, undefined or function

  /** onData: decode by shape and dispatch; other shapes are refused with
      an error. The decoders stand for JSOBin and base64. */
  function OnData(s: State, input: Input, fromText: string -> Packet, fromBinary: seq<bv8> -> Packet, o: Outcome): (State, Option<string>) {
    match input
    case Text(t) => (Dispatch(s, fromText(t), o), None)
    case Binary(b) => (Dispatch(s, fromBinary(b), o), None)
    case Structured(p) => (Dispatch(s, p, o), None)
    case Primitive(_) => (s, Some(UnknownInput))
  }

  // ---------------------------------------------------------------------
  // The invariant of the state

  /** Every key of the table is an identifier handed out already. */
  predicate HandedOut(table: Table, next: nat) {
    forall id :: id in table ==> 0 < |id| <= next
  }

  /** An entry is either ordinary (reusable, retires nothing) or half of a
      pair (single-use, retires its sibling, an identifier handed out
      already). */
  predicate EntryOk(e: FuncInfo, id: string, next: nat) {
    (e.once <==> e.releaseTarget != NoTarget)
    && (e.releaseTarget != NoTarget ==> e.releaseTarget != id && |e.releaseTarget| <= next)
  }

  /** Every key is handed out, every entry is well formed, and the halves
      of a pair point at each other while both are present. */
  predicate TableOk(table: Table, next: nat) {
    HandedOut(table, next)
    && (forall id :: id in table ==> EntryOk(table[id], id, next))
    && (forall a, b :: a in table && b in table && table[a].releaseTarget == b ==> table[b].releaseTarget == a)
  }

  /** Every held proxy is registered and stands for its own id; every
      registered value is a proxy of an injection already made. */
  predicate HoldingOk(s: State) {
    (forall id :: id in s.holding ==> s.holding[id] in s.registered && s.holding[id].Remote? && s.holding[id].id == id)
    && (forall f :: f in s.registered ==> f.Remote? && f.gen < s.nextGen)
  }

  predicate Inv(s: State) {
    TableOk(s.table, s.nextId) && HoldingOk(s)
  }

  // ---------------------------------------------------------------------
  // Identifiers

  /** Every identifier handed out from now on is new to the table. */
  lemma FreshIds(s: State, k: nat)
    requires HandedOut(s.table, s.nextId) && k >= s.nextId
    ensures MintId(k) !in s.table
  {
  }

  lemma InitialInv()
    ensures Inv(Initial())
  {
  }

  // ---------------------------------------------------------------------
  // Registration

  /** An extraction that met n functions adds n new ordinary entries under
      n distinct new ids, and changes no existing entry. */
  lemma RegisterAddsOrdinaryEntries(s: State, fns: seq<Fn>)
    requires HandedOut(s.table, s.nextId)
    ensures var t := Register(s, fns).table;
      (forall k: nat :: s.nextId <= k < s.nextId + |fns| ==>
         MintId(k) !in s.table && MintId(k) in t && t[MintId(k)] == Ordinary(fns[k - s.nextId]))
      && (forall id :: id in s.table ==> id in t && t[id] == s.table[id])
      && (forall id :: id in t && id !in s.table ==>
            s.nextId < |id| <= s.nextId + |fns| && !t[id].once && t[id].releaseTarget == NoTarget)
      && |t| == |s.table| + |fns|
      && HandedOut(t, s.nextId + |fns|)
  {
    var e := Entries(s.nextId, fns);
    EntriesAreOrdinary(s.nextId, fns);
    assert s.table.Keys !! e.Keys;
    assert (s.table + e).Keys == s.table.Keys + e.Keys;
  }

  /** Registering the functions of one part of a tree after those of the
      part before it is registering both at once. */
  lemma RegisterAppend(s: State, s1: State, a: seq<Fn>, b: seq<Fn>)
    requires s1 == Register(s, a)
    ensures Register(s1, b) == Register(s, a + b)
  {
    EntriesAppend(s.nextId, a, b);
    UnionAssociates(s.table, Entries(s.nextId, a), Entries(s.nextId + |a|, b));
  }

  /** A walk that met no function registers nothing. */
  lemma RegisterNothing(s: State)
    ensures Register(s, []) == s
  {
    assert s.table + Entries(s.nextId, []) == s.table;
  }

  /** A walk that met one function registers one ordinary entry under the
      next identifier. */
  lemma RegisterOne(s: State, f: Fn)
    ensures Register(s, [f]) == s.(table := s.table[MintId(s.nextId) := Ordinary(f)], nextId := s.nextId + 1)
  {
    assert [f][..0] == [];
    assert s.table + Entries(s.nextId, [f]) == s.table[MintId(s.nextId) := Ordinary(f)];
  }

  lemma RegisterKeepsInv(s: State, fns: seq<Fn>)
    requires Inv(s)
    ensures Inv(Register(s, fns))
  {
    var s1 := Register(s, fns);
    RegisterAddsOrdinaryEntries(s, fns);
    forall id | id in s1.table
      ensures EntryOk(s1.table[id], id, s1.nextId)
    {
      if id in s.table {
        assert EntryOk(s.table[id], id, s.nextId);
      }
    }
  }

  // ---------------------------------------------------------------------
  // Release packets

  /** `[2, ids...]` removes exactly the listed ids, changes no other entry,
      and sends nothing. */
  lemma ReleaseRemovesListed(s: State, ids: seq<string>, o: Outcome)
    ensures var s1 := Dispatch(s, Release(ids), o);
      (forall id :: id in s1.table <==> id in s.table && id !in ids)
      && (forall id :: id in s1.table ==> s1.table[id] == s.table[id])
      && s1.out == s.out
      && s1 == s.(table := s1.table)
  {
  }

  /** Releasing ids that have no entry changes nothing. */
  lemma ReleaseAbsentIsNoOp(s: State, ids: seq<string>, o: Outcome)
    requires forall i :: 0 <= i < |ids| ==> ids[i] !in s.table
    ensures Dispatch(s, Release(ids), o) == s
  {
    assert s.table - (set id | id in ids) == s.table;
  }

  /** A release packet delivered twice has the effect of delivering it once. */
  lemma ReleaseIdempotent(s: State, ids: seq<string>, o: Outcome, o': Outcome)
    ensures Dispatch(Dispatch(s, Release(ids), o), Release(ids), o') == Dispatch(s, Release(ids), o)
  {
    var once := Dispatch(s, Release(ids), o);
    assert once.table - (set id | id in ids) == once.table;
  }

  /** Release is one-directional: releasing one half of a pair by id
      leaves its sibling in place, while invoking that half retires it. */
  lemma ReleaseIsOneDirectional(s: State, id: string, o: Outcome)
    requires Inv(s) && id in s.table && s.table[id].releaseTarget in s.table
    requires s.table[id].releaseTarget != NoTarget
    ensures s.table[id].releaseTarget in Dispatch(s, Release([id]), o).table
    ensures s.table[id].releaseTarget !in AfterInvoke(s.table, id)
  {
    assert EntryOk(s.table[id], id, s.nextId);
  }

  // ---------------------------------------------------------------------
  // Inbound calls

  /** A named call to a registered function prepares the arguments and
      answers the outcome; it retires no entry, and preparing the arguments
      changes neither the table nor the identifier count. */
  lemma DispatchByName(s: State, name: string, args: Value, fnMap: Option<map<nat, string>>,
                       res: string, rej: string, o: Outcome)
    requires name in s.named && InjectArgs(s, args, fnMap).1.Some?
    ensures var s1 := InjectArgs(s, args, fnMap).0;
      s1.table == s.table && s1.nextId == s.nextId
      && Dispatch(s, Call(Named(name), args, fnMap, res, rej), o) == Answer(s1, res, rej, o)
  {
    InjectArgsEffect(s, args, fnMap);
  }

  /** A call that resolves but whose arguments hold a null, with a handle
      map present: the injection throws before the function is looked up
      for invocation, so no entry is retired, no reply is sent even to a
      reject id, and only the proxies made before the walk remain. */
  lemma DispatchInjectionThrows(s: State, t: Target, args: Value, m: map<nat, string>,
                                res: string, rej: string, o: Outcome)
    requires Resolves(s, t) && HasNull(args)
    ensures var s1 := Dispatch(s, Call(t, args, Some(m), res, rej), o);
      s1 == InjectArgs(s, args, Some(m)).0
      && s1.table == s.table && s1.out == s.out && s1.nextId == s.nextId
  {
    InjectOutcome(args, m, Generated(m, s.nextGen));
  }

  /** A call whose target resolves to nothing changes no entry; it sends
      exactly one "function does not exist" reply when it carries a reject
      id and the output is bound, and nothing otherwise. */
  lemma UnresolvedCall(s: State, t: Target, args: Value, fnMap: Option<map<nat, string>>, res: string, rej: string, o: Outcome)
    requires !Resolves(s, t)
    ensures var s1 := Dispatch(s, Call(t, args, fnMap, res, rej), o);
      s1.out == s.out + (if rej != NoTarget && s.bound then [Reply(rej, NotExist)] else [])
      && s1 == s.(out := s1.out)
  {
  }

  /** Named calls and id calls that find nothing are answered alike. */
  lemma MissesAnsweredAlike(s: State, name: string, id: string, a1: Value, a2: Value,
                            f1: Option<map<nat, string>>, f2: Option<map<nat, string>>,
                            r1: string, r2: string, rej: string, o1: Outcome, o2: Outcome)
    requires name !in s.named && id !in s.table
    ensures Dispatch(s, Call(Named(name), a1, f1, r1, rej), o1) == Dispatch(s, Call(ById(id), a2, f2, r2, rej), o2)
  {
  }

  /** Packets that are not calls or releases are ignored. */
  lemma IgnoredPacket(s: State, o: Outcome)
    ensures Dispatch(s, Ignored, o) == s
  {
  }

  // ---------------------------------------------------------------------
  // Injection

  /** Without a handle map the arguments are used as they are and nothing
      is made; with one, each distinct id of the map gets exactly one new
      held and registered proxy, made by a new injection. */
  lemma InjectArgsEffect(s: State, args: Value, fnMap: Option<map<nat, string>>)
    ensures fnMap.None? ==> InjectArgs(s, args, fnMap) == (s, Some(args))
    ensures fnMap.Some? ==>
      var s1 := InjectArgs(s, args, fnMap).0;
      var m := fnMap.value;
      s1.holding.Keys == s.holding.Keys + m.Values
      && (forall id :: id in m.Values ==> s1.holding[id] == Remote(id, s.nextGen))
      && (forall id :: id in s.holding && id !in m.Values ==> s1.holding[id] == s.holding[id])
      && s1.registered == s.registered + (set id | id in m.Values :: Remote(id, s.nextGen))
      && s1.nextGen == s.nextGen + 1
      && s1 == s.(holding := s1.holding, registered := s1.registered, nextGen := s1.nextGen)
  {
    if fnMap.Some? {
      var m := fnMap.value;
      var g := Generated(m, s.nextGen);
      assert g.Values == set id | id in m.Values :: Remote(id, s.nextGen) by {
        forall f | f in g.Values ensures f in set id | id in m.Values :: Remote(id, s.nextGen) {
          var id :| id in g && g[id] == f;
        }
        forall f | f in set id | id in m.Values :: Remote(id, s.nextGen) ensures f in g.Values {
          var id :| id in m.Values && f == Remote(id, s.nextGen);
          assert id in g;
        }
      }
    }
  }

  lemma InjectArgsKeepsInv(s: State, args: Value, fnMap: Option<map<nat, string>>)
    requires Inv(s)
    ensures Inv(InjectArgs(s, args, fnMap).0)
  {
    InjectArgsEffect(s, args, fnMap);
  }

  // ---------------------------------------------------------------------
  // Outcomes

  /** A value returned to a call with a resolve id is extracted and sent
      there with its handle map; its functions get ordinary entries. */
  lemma ReturnedValueIsSent(s: State, res: string, rej: string, v: Value)
    requires res != NoTarget && !HasNull(v)
    ensures ExtractWalk(v, s.nextId).tree.Some?
    ensures var s1 := Answer(s, res, rej, Returned(v));
      s1.out == s.out + (if s.bound then [Call(ById(res), Arr([ExtractWalk(v, s.nextId).tree.value]), FnMapField(s.nextId, |Fns(v)|), NoTarget, NoTarget)] else [])
      && s1.table == s.table + Entries(s.nextId, Fns(v))
      && s1.nextId == s.nextId + |Fns(v)|
  {
    ExtractOutcome(v, s.nextId);
  }

  /** A returned value holding a null cannot be extracted: the TypeError
      goes to the reject id, and the functions met before the null keep
      their entries. */
  lemma ReturnedNullIsRejected(s: State, res: string, rej: string, v: Value)
    requires res != NoTarget && HasNull(v)
    ensures var s1 := Answer(s, res, rej, Returned(v));
      s1.out == s.out + (if s.bound && rej != NoTarget then [Reply(rej, NullKeys)] else [])
      && s1.table == s.table + Entries(s.nextId, ExtractWalk(v, s.nextId).fns)
  {
    ExtractOutcome(v, s.nextId);
  }

  /** A thrown value goes to the reject id as it is: it is not extracted,
      carries no handle map and registers nothing. */
  lemma ThrownValueIsSent(s: State, res: string, rej: string, e: Value)
    ensures var s1 := Answer(s, res, rej, Threw(e));
      s1.out == s.out + (if s.bound && rej != NoTarget then [Reply(rej, e)] else [])
      && s1 == s.(out := s1.out)
  {
  }

  /** Without the matching reply id, nothing is sent and no entry is made. */
  lemma NoReplyIdNoPacket(s: State, res: string, rej: string, o: Outcome)
    requires (o.Returned? && res == NoTarget) || (o.Threw? && rej == NoTarget)
    ensures Answer(s, res, rej, o) == s
  {
  }

  lemma AnswerKeepsInv(s: State, res: string, rej: string, o: Outcome)
    requires Inv(s)
    ensures Inv(Answer(s, res, rej, o))
  {
    if o.Returned? && res != NoTarget {
      RegisterKeepsInv(s, ExtractWalk(o.value, s.nextId).fns);
    }
  }

  // ---------------------------------------------------------------------
  // Calls by id

  lemma AfterInvokeKeepsTableOk(table: Table, id: string, next: nat)
    requires TableOk(table, next) && id in table
    ensures TableOk(AfterInvoke(table, id), next)
  {
    var t := AfterInvoke(table, id);
    forall k | k in t
      ensures EntryOk(t[k], k, next)
    {
      assert EntryOk(table[k], k, next);
    }
  }

  /** Answering only adds entries, under new ids; a thrown outcome adds
      none. */
  lemma AnswerOnlyAdds(s: State, res: string, rej: string, o: Outcome)
    requires HandedOut(s.table, s.nextId)
    ensures var t := Answer(s, res, rej, o).table;
      (forall k :: k in s.table ==> k in t && t[k] == s.table[k])
      && (forall k :: k in t && k !in s.table ==> |k| > s.nextId)
      && (o.Threw? ==> t == s.table)
  {
    if o.Returned? && res != NoTarget {
      RegisterOnlyAdds(s, ExtractWalk(o.value, s.nextId).fns, Answer(s, res, rej, o).table);
    }
  }

  /** Registering keeps every entry and adds only new identifiers. */
  lemma RegisterOnlyAdds(s: State, fns: seq<Fn>, t: map<string, FuncInfo>)
    requires HandedOut(s.table, s.nextId) && t == Register(s, fns).table
    ensures (forall k :: k in s.table ==> k in t && t[k] == s.table[k])
      && (forall k :: k in t && k !in s.table ==> |k| > s.nextId)
  {
    RegisterAddsOrdinaryEntries(s, fns);
  }

  /** A call by id to an entry that is present, once its arguments are
      prepared: the entry is looked up for invocation, then the outcome is
      answered. */
  lemma DispatchById(s: State, id: string, args: Value, fnMap: Option<map<nat, string>>,
                     res: string, rej: string, o: Outcome)
    requires id in s.table && InjectArgs(s, args, fnMap).1.Some?
    ensures var s1 := InjectArgs(s, args, fnMap).0;
      s1.table == s.table && s1.nextId == s.nextId
      && Dispatch(s, Call(ById(id), args, fnMap, res, rej), o) == Answer(s1.(table := AfterInvoke(s.table, id)), res, rej, o)
  {
    InjectArgsEffect(s, args, fnMap);
  }

  /** Calling an entry by id: once the arguments are prepared, and whatever
      the function then does, a single-use entry is gone and so is the
      entry it retires; every other entry is unchanged, and any entry added
      is new. */
  lemma CallByIdRetiresBeforeInvoking(s: State, id: string, args: Value, fnMap: Option<map<nat, string>>,
                                      res: string, rej: string, o: Outcome)
    requires TableOk(s.table, s.nextId) && id in s.table
    requires InjectArgs(s, args, fnMap).1.Some?
    ensures var e := s.table[id];
      var t := Dispatch(s, Call(ById(id), args, fnMap, res, rej), o).table;
      (e.once ==> id !in t)
      && (e.releaseTarget != NoTarget ==> e.releaseTarget !in t)
      && (forall k :: k in s.table && !(k == id && e.once) && !(k == e.releaseTarget && e.releaseTarget != NoTarget)
            ==> k in t && t[k] == s.table[k])
      && (forall k :: k in t && k !in s.table ==> |k| > s.nextId)
    ensures o.Threw? ==> Dispatch(s, Call(ById(id), args, fnMap, res, rej), o).table == AfterInvoke(s.table, id)
  {
    DispatchById(s, id, args, fnMap, res, rej, o);
    var s1 := InjectArgs(s, args, fnMap).0;
    var s2 := s1.(table := AfterInvoke(s.table, id));
    AnswerOnlyAdds(s2, res, rej, o);
    assert EntryOk(s.table[id], id, s.nextId);
  }

  /** Answering leaves the named functions, the output binding and the
      held proxies as they are. */
  lemma AnswerFrame(s: State, res: string, rej: string, o: Outcome)
    ensures var s1 := Answer(s, res, rej, o);
      s1.named == s.named && s1.bound == s.bound && s1.encoding == s.encoding
      && s1.holding == s.holding && s1.registered == s.registered && s1.nextGen == s.nextGen
  {
  }

  /** No inbound packet changes the named functions or the output binding. */
  lemma DispatchFrame(s: State, p: Packet, o: Outcome)
    ensures var s1 := Dispatch(s, p, o);
      s1.named == s.named && s1.bound == s.bound && s1.encoding == s.encoding
  {
    if p.Call? && Resolves(s, p.target) {
      var (s1, injected) := InjectArgs(s, p.args, p.fnMap);
      if injected.Some? {
        var s2 := if p.target.ById? then s1.(table := AfterInvoke(s1.table, p.target.id)) else s1;
        AnswerFrame(s2, p.resolveId, p.rejectId, o);
      }
    }
  }

  lemma DispatchKeepsInv(s: State, p: Packet, o: Outcome)
    requires Inv(s)
    ensures Inv(Dispatch(s, p, o))
  {
    match p
    case Ignored =>
    case Release(ids) => ReleaseKeepsInv(s, ids, o);
    case Call(target, args, fnMap, res, rej) => CallKeepsInv(s, target, args, fnMap, res, rej, o);
  }

  lemma ReleaseKeepsInv(s: State, ids: seq<string>, o: Outcome)
    requires Inv(s)
    ensures Inv(Dispatch(s, Release(ids), o))
  {
    var t := s.table - set id | id in ids;
    forall k | k in t
      ensures EntryOk(t[k], k, s.nextId)
    {
      assert EntryOk(s.table[k], k, s.nextId);
    }
  }

  lemma CallKeepsInv(s: State, target: Target, args: Value, fnMap: Option<map<nat, string>>,
                     res: string, rej: string, o: Outcome)
    requires Inv(s)
    ensures Inv(Dispatch(s, Call(target, args, fnMap, res, rej), o))
  {
    if Resolves(s, target) {
      var (s1, injected) := InjectArgs(s, args, fnMap);
      InjectArgsKeepsInv(s, args, fnMap);
      if injected.Some? {
        var s2 := if target.ById? then s1.(table := AfterInvoke(s1.table, target.id)) else s1;
        if target.ById? {
          AfterInvokeKeepsTableOk(s1.table, target.id, s1.nextId);
        }
        AnswerKeepsInv(s2, res, rej, o);
      }
    }
  }

  // ---------------------------------------------------------------------
  // Outbound calls

  /** The resolve/reject pair: two new single-use entries under the next
      two identifiers, each retiring the other; no other entry changes. */
  lemma AddPairMintsSiblings(s: State)
    requires HandedOut(s.table, s.nextId)
    ensures var res, rej := MintId(s.nextId), MintId(s.nextId + 1);
      var t := AddPair(s).table;
      res != rej && res !in s.table && rej !in s.table
      && res in t && t[res] == FuncInfo(Settle(res, true), true, rej)
      && rej in t && t[rej] == FuncInfo(Settle(res, false), true, res)
      && (forall id :: id in s.table ==> id in t && t[id] == s.table[id])
      && (forall id :: id in t ==> id in s.table || id == res || id == rej)
      && AddPair(s) == s.(table := t, nextId := s.nextId + 2)
  {
    assert |MintId(s.nextId)| != |MintId(s.nextId + 1)|;
  }

  /** The table of an outbound call whose walk succeeded: the entries of
      the argument functions are registered, then the pair is added. */
  lemma SendExtractedTable(s: State, target: Target, w: Walk)
    requires w.tree.Some?
    ensures var s1 := SendExtracted(s, target, w).0;
      s1.table == AddPair(Register(s, w.fns)).table && s1.nextId == s.nextId + |w.fns| + 2
  {
  }

  /** An outbound call whose walk succeeded mints two new single-use
      entries under the next two identifiers, after those of the argument
      functions, each retiring the other. */
  lemma SendCallMintsPair(s: State, target: Target, w: Walk, res: string, rej: string)
    requires HandedOut(s.table, s.nextId) && w.tree.Some?
    requires res == MintId(s.nextId + |w.fns|) && rej == MintId(s.nextId + |w.fns| + 1)
    ensures res != rej && res !in Register(s, w.fns).table && rej !in Register(s, w.fns).table
    ensures var s1 := SendExtracted(s, target, w).0;
      res in s1.table && s1.table[res] == FuncInfo(Settle(res, true), true, rej)
      && rej in s1.table && s1.table[rej] == FuncInfo(Settle(res, false), true, res)
  {
    var s0 := Register(s, w.fns);
    assert s0.nextId == s.nextId + |w.fns|;
    assert res == MintId(s0.nextId) && rej == MintId(s0.nextId + 1);
    SendExtractedTable(s, target, w);
    RegisterAddsOrdinaryEntries(s, w.fns);
    AddPairMintsSiblings(s0);
  }

  /** When the output is bound, an outbound call whose walk succeeded sends
      exactly one call packet, carrying the extracted arguments, their
      handle map (absent when no function was met) and both ids of the
      pair, and its promise waits on that pair. Unbound, it sends nothing
      and the promise is rejected with the stream error. */
  lemma SendCallSendsOnePacket(s: State, target: Target, w: Walk)
    requires w.tree.Some?
    ensures var n := s.nextId + |w.fns|;
      var (s1, pr) := SendExtracted(s, target, w);
      s.bound ==>
         pr.Pending? && pr.resolveId == MintId(n) && pr.rejectId == MintId(n + 1)
         && |s1.out| == |s.out| + 1 && s1.out[..|s.out|] == s.out
         && IsCall(s1.out[|s.out|], target, w.tree.value, FnMapField(s.nextId, |w.fns|), MintId(n), MintId(n + 1))
    ensures var (s1, pr) := SendExtracted(s, target, w);
      !s.bound ==> pr == Rejected(Str(NotBound)) && s1.out == s.out
  {
  }

  /** An outbound call walks its arguments as one array: the walk throws
      exactly when they hold a null, and otherwise meets the argument
      functions in order. */
  lemma SendCallWalksArgs(s: State, target: Target, args: seq<Value>)
    ensures var w := ExtractWalk(Arr(args), s.nextId);
      SendCall(s, target, args) == SendExtracted(s, target, w)
      && (w.tree.Some? <==> !HasNullItems(args))
      && (w.tree.Some? ==> w.fns == FnsItems(args))
  {
    ExtractOutcome(Arr(args), s.nextId);
  }

  /** An outbound call whose arguments hold a null is rejected with the
      TypeError; no pair is minted and no packet sent, but the functions
      met before the null keep their entries. */
  lemma SendCallNullArgs(s: State, target: Target, args: seq<Value>)
    requires HasNullItems(args)
    ensures var (s1, pr) := SendCall(s, target, args);
      pr == Rejected(NullKeys) && s1 == Register(s, ExtractWalk(Arr(args), s.nextId).fns)
  {
    ExtractOutcome(Arr(args), s.nextId);
  }

  lemma AddPairKeepsInv(s: State)
    requires Inv(s)
    ensures Inv(AddPair(s))
  {
    var n := s.nextId;
    var res, rej := MintId(n), MintId(n + 1);
    AddPairMintsSiblings(s);
    var t := AddPair(s).table;
    forall id | id in t
      ensures EntryOk(t[id], id, n + 2)
    {
      if id != res && id != rej {
        assert EntryOk(s.table[id], id, n);
      }
    }
  }

  lemma SendExtractedKeepsInv(s: State, target: Target, w: Walk)
    requires Inv(s)
    ensures Inv(SendExtracted(s, target, w).0)
  {
    RegisterKeepsInv(s, w.fns);
    if w.tree.Some? {
      AddPairKeepsInv(Register(s, w.fns));
    }
  }

  lemma SendCallKeepsInv(s: State, target: Target, args: seq<Value>)
    requires Inv(s)
    ensures Inv(SendCall(s, target, args).0)
  {
    SendExtractedKeepsInv(s, target, ExtractWalk(Arr(args), s.nextId));
  }

  /** Invoking one half of a pair by id retires both halves, whatever the
      function then does; a later call to the sibling finds nothing and is
      answered "function does not exist". */
  lemma InvokingHalfRetiresSibling(s: State, x: string, a1: Value, f1: Option<map<nat, string>>, r1: string, j1: string, o1: Outcome,
                                   a2: Value, f2: Option<map<nat, string>>, r2: string, j2: string, o2: Outcome)
    requires TableOk(s.table, s.nextId) && s.bound && x in s.table && s.table[x].once
    requires InjectArgs(s, a1, f1).1.Some?
    ensures var y := s.table[x].releaseTarget;
      var s2 := Dispatch(s, Call(ById(x), a1, f1, r1, j1), o1);
      x !in s2.table && y !in s2.table
      && Dispatch(s2, Call(ById(y), a2, f2, r2, j2), o2).out
           == s2.out + (if j2 != NoTarget then [Reply(j2, NotExist)] else [])
  {
    assert EntryOk(s.table[x], x, s.nextId);
    CallByIdRetiresBeforeInvoking(s, x, a1, f1, r1, j1, o1);
    DispatchFrame(s, Call(ById(x), a1, f1, r1, j1), o1);
    var s2 := Dispatch(s, Call(ById(x), a1, f1, r1, j1), o1);
    UnresolvedCall(s2, ById(s.table[x].releaseTarget), a2, f2, r2, j2, o2);
  }

  // ---------------------------------------------------------------------
  // Made functions, collection, configuration

  /** A facade function calls the named function of its key; a proxy calls
      the peer's function by its id. */
  lemma MadeFunctionsCall(s: State, key: string, id: string, gen: nat, args: seq<Value>)
    ensures CallMade(s, FacadeGet(key), args) == SendCall(s, Named(key), args)
    ensures CallMade(s, Remote(id, gen), args) == SendCall(s, ById(id), args)
  {
  }

  /** Collection of a proxy forgets the proxy held for its id, changes no
      entry of the table, and sends exactly one release packet for the id. */
  lemma CollectReleasesOnce(s: State, p: Fn)
    requires p in s.registered && p.Remote?
    ensures var s1 := Collect(s, p);
      p.id !in s1.holding && p !in s1.registered
      && (forall id :: id in s.holding && id != p.id ==> id in s1.holding && s1.holding[id] == s.holding[id])
      && s1.table == s.table
      && s1.out == s.out + (if s.bound then [Release([p.id])] else [])
  {
  }

  lemma CollectKeepsInv(s: State, p: Fn)
    requires Inv(s) && p in s.registered && p.Remote?
    ensures Inv(Collect(s, p))
  {
  }

  /** The stream type names and their tags: "raw" is 0, "jsob" and
      "jsobin" are 1, "base64" is 2; no other name is accepted. */
  lemma StreamTypes(kind: string)
    ensures EncodingOf(kind).Some? <==> kind in {"raw", "jsob", "jsobin", "base64"}
    ensures kind == "raw" ==> Tag(EncodingOf(kind).value) == 0
    ensures kind == "jsob" || kind == "jsobin" ==> Tag(EncodingOf(kind).value) == 1
    ensures kind == "base64" ==> Tag(EncodingOf(kind).value) == 2
  {
  }

  /** Binding always replaces the callback, even when the type is refused;
      a refused type leaves the encoding as it was, and an accepted one
      sets it. Nothing else changes. */
  lemma BindReplacesCallback(s: State, kind: Option<string>)
    ensures var (s1, err) := Bind(s, kind);
      var k := if kind.Some? then kind.value else "jsob";
      s1.bound
      && (err.Some? <==> EncodingOf(k).None?)
      && (err.Some? ==> s1.encoding == s.encoding && err.value == UnsupportedType)
      && (err.None? ==> s1.encoding == EncodingOf(k).value)
      && s1 == s.(bound := true, encoding := s1.encoding)
  {
  }

  /** Adding named functions overwrites same-name entries and keeps the
      others. */
  lemma AddNamedOverwrites(s: State, fns: map<string, Fn>)
    ensures var s1 := AddNamed(s, fns);
      (forall n :: n in fns ==> n in s1.named && s1.named[n] == fns[n])
      && (forall n :: n in s.named && n !in fns ==> n in s1.named && s1.named[n] == s.named[n])
      && s1.named.Keys == s.named.Keys + fns.Keys
      && s1 == s.(named := s1.named)
  {
  }

  lemma ConfigurationKeepsInv(s: State, kind: Option<string>, fns: map<string, Fn>)
    requires Inv(s)
    ensures Inv(Bind(s, kind).0) && Inv(AddNamed(s, fns))
  {
  }

  /** onData: a string is base64 text, bytes are a JSOBin encoding, any
      other object is the packet itself (null and non-packet objects are
      ignored without an error); a scalar is refused and changes nothing. */
  lemma InputShapes(s: State, input: Input, fromText: string -> Packet, fromBinary: seq<bv8> -> Packet, o: Outcome)
    ensures var (s1, err) := OnData(s, input, fromText, fromBinary, o);
      (err.Some? <==> input.Primitive?)
      && (input.Primitive? ==> s1 == s && err.value == UnknownInput)
      && (input.Text? ==> s1 == Dispatch(s, fromText(input.text), o))
      && (input.Binary? ==> s1 == Dispatch(s, fromBinary(input.bytes), o))
      && (input.Structured? ==> s1 == Dispatch(s, input.packet, o))
      && (input == Structured(Ignored) ==> s1 == s && err.None?)
  {
  }
}
