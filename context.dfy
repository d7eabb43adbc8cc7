/** The context object itself: the maps and fields it updates in place, and
    its methods, each proved to have the effect the corresponding function
    of module Protocol specifies. */
module Context {
  import opened Values
  import opened FunctionInfo
  import opened Codec
  import opened Protocol

  /** The handle map field of an outgoing packet, as the source writes it:
      the map when it has entries, undefined otherwise. */
  function MapField(m: map<nat, string>): Option<map<nat, string>> {
    if m == map[] then None else Some(m)
  }

  /** The field the class writes from the handle map it has built is the
      field the specification computes from the count of functions met. */
  lemma MapFieldAgrees(next: nat, count: nat)
    ensures MapField(HandleMap(next, count)) == FnMapField(next, count)
  {
    HandleMapEmpty(next, count);
  }

  /** Adding a new key to a map adds its value to the map's values. */
  lemma ValuesOfNewKey<K, V>(m: map<K, V>, k: K, v: V)
    requires k !in m
    ensures m[k := v].Values == m.Values + {v}
  {
    forall x | x in m[k := v].Values
      ensures x in m.Values + {v}
    {
      var j :| j in m[k := v] && m[k := v][j] == x;
      if j != k {
        assert m[j] == x;
      }
    }
    forall x | x in m.Values + {v}
      ensures x in m[k := v].Values
    {
      if x == v {
        assert m[k := v][k] == v;
      } else {
        var j :| j in m && m[j] == x;
        assert m[k := v][j] == x;
      }
    }
  }

  /** Updating a union at a key is updating its right operand there. */
  lemma UnionThenUpdate<K, V>(a: map<K, V>, b: map<K, V>, k: K, v: V)
    ensures (a + b)[k := v] == a + b[k := v]
  {
  }

  class RcoContext {
    /** Named functions the peer may call by name. */
    var named: map<string, Fn>
    /** Handle id to entry, for the local functions the peer may call by id. */
    var table: Table
    /** Handle id to the proxy currently standing for the peer's function. */
    var holding: map<string, Fn>
    /** The proxies whose collection will be reported to the peer. */
    var registered: set<Fn>
    /** An output callback has been bound. */
    var bound: bool
    var encoding: Encoding
    /** The packets handed to the output callback, oldest first. */
    var out: seq<Packet>
    /** How many identifiers have been handed out. */
    var nextId: nat
    /** How many injections have made proxies. */
    var nextGen: nat

    /** The state the fields hold, as the functions of Protocol see it. */
    function Snapshot(): State
      reads this
    {
      State(named, table, holding, registered, bound, encoding, out, nextId, nextGen)
    }

    constructor()
      ensures Snapshot() == Initial()
    {
      named := map[];
      table := map[];
      holding := map[];
      registered := {};
      bound := false;
      encoding := Jsob;
      out := [];
      nextId := 0;
      nextGen := 0;
    }

    /** outputPacket: hand one packet to the bound callback. */
    method OutputPacket(p: Packet)
      modifies this
      ensures Snapshot() == Emit(old(Snapshot()), p)
    {
      if bound {
        out := out + [p];
      }
    }

    /** bindOutStream: the callback is replaced before the type is checked. */
    method BindOutStream(kind: Option<string>) returns (err: Option<string>)
      modifies this
      ensures (Snapshot(), err) == Bind(old(Snapshot()), kind)
    {
      var k := if kind.Some? then kind.value else "jsob";
      bound := true;
      err := None;
      if k == "raw" {
        encoding := Raw;
      } else if k == "jsob" || k == "jsobin" {
        encoding := Jsob;
      } else if k == "base64" {
        encoding := Base64;
      } else {
        err := Some(UnsupportedType);
      }
    }

    /** addGlobalNamedFunctions: set every key of the given object in the
        registry, one key at a time. */
    method AddGlobalNamedFunctions(fns: map<string, Fn>)
      modifies this
      ensures Snapshot() == AddNamed(old(Snapshot()), fns)
    {
      var rest := fns.Keys;
      while rest != {}
        invariant rest <= fns.Keys
        invariant named.Keys == old(named).Keys + (fns.Keys - rest)
        invariant forall k :: k in named ==> named[k] == if k in fns && k !in rest then fns[k] else old(named)[k]
        invariant Snapshot() == old(Snapshot()).(named := named)
        decreases rest
      {
        var k :| k in rest;
        named := named[k := fns[k]];
        rest := rest - {k};
      }
      assert named == old(named) + fns;
    }

    // -------------------------------------------------------------------
    // Extraction

    /** The extraction traversal of one value. `fnMap` is the placeholder
        map of the whole extraction, which started when the next identifier
        was number `base`: a function gets a fresh id, an ordinary entry and
        a placeholder recorded in `fnMap`; arrays and objects are rebuilt
        element by element; None is the TypeError that Object.keys(null)
        throws. */
    method Traverse(v: Value, ghost base: nat, fnMap: map<nat, string>) returns (r: Option<Value>, fnMap': map<nat, string>)
      requires base <= nextId && fnMap == HandleMap(base, nextId - base)
      modifies this
      ensures var w := ExtractWalk(v, old(nextId));
        r == w.tree
        && Snapshot() == Register(old(Snapshot()), w.fns)
        && fnMap' == HandleMap(base, nextId - base)
      decreases v, 1
    {
      match v
      case Func(f) =>
        r, fnMap' := RegisterFunction(f, base, fnMap);
      case Arr(items) =>
        var trees;
        trees, fnMap' := TraverseItems(items, base, fnMap);
        r := if trees.Some? then Some(Arr(trees.value)) else None;
      case Obj(keys, items) =>
        var trees;
        trees, fnMap' := TraverseItems(items, base, fnMap);
        r := if trees.Some? then Some(Obj(keys, trees.value)) else None;
      case Null =>
        RegisterNothing(Snapshot());
        r, fnMap' := None, fnMap;
      case Placeholder(_) =>
        RegisterNothing(Snapshot());
        r, fnMap' := Some(Obj([], [])), fnMap;
      case HostError(_) =>
        RegisterNothing(Snapshot());
        r, fnMap' := Some(Obj([], [])), fnMap;
      case _ =>
        RegisterNothing(Snapshot());
        r, fnMap' := Some(v), fnMap;
    }

    /** A function met by the traversal: a fresh id, an ordinary entry under
        it, and an empty object standing for it, recorded in `fnMap`. */
    method RegisterFunction(f: Fn, ghost base: nat, fnMap: map<nat, string>) returns (r: Option<Value>, fnMap': map<nat, string>)
      requires base <= nextId && fnMap == HandleMap(base, nextId - base)
      modifies this
      ensures r == Some(Placeholder(old(nextId)))
      ensures Snapshot() == Register(old(Snapshot()), [f])
      ensures fnMap' == HandleMap(base, nextId - base)
    {
      RegisterOne(Snapshot(), f);
      HandleMapGrows(base, nextId - base);
      var id := MintId(nextId);
      table := table[id := Ordinary(f)];
      fnMap' := fnMap[nextId := id];
      r := Some(Placeholder(nextId));
      nextId := nextId + 1;
    }

    /** The traversal of the elements of an array or the values of an
        object, in order, stopping at the first one that throws. */
    method TraverseItems(items: seq<Value>, ghost base: nat, fnMap: map<nat, string>) returns (r: Option<seq<Value>>, fnMap': map<nat, string>)
      requires base <= nextId && fnMap == HandleMap(base, nextId - base)
      modifies this
      ensures var w := ExtractItems(items, old(nextId));
        r == w.trees
        && Snapshot() == Register(old(Snapshot()), w.fns)
        && fnMap' == HandleMap(base, nextId - base)
      decreases items, 0
    {
      ghost var s0 := Snapshot();
      ghost var fns: seq<Fn> := [];
      var trees: seq<Value> := [];
      fnMap' := fnMap;
      RegisterNothing(s0);
      assert items[..0] == [];
      var i := 0;
      while i < |items|
        invariant 0 <= i <= |items|
        invariant ExtractItems(items[..i], s0.nextId) == ItemsWalk(Some(trees), fns)
        invariant Snapshot() == Register(s0, fns)
        invariant fnMap' == HandleMap(base, nextId - base)
      {
        ExtractItemsStep(items, i, s0.nextId);
        ghost var last := ExtractWalk(items[i], nextId);
        RegisterAppend(s0, Snapshot(), fns, last.fns);
        var t;
        t, fnMap' := Traverse(items[i], base, fnMap');
        fns := fns + last.fns;
        assert Snapshot() == Register(s0, fns);
        if t.None? {
          ExtractItemsStopsAtFailure(items, i + 1, s0.nextId);
          assert ExtractItems(items, s0.nextId) == ItemsWalk(None, fns);
          return None, fnMap';
        }
        trees := trees + [t.value];
        i := i + 1;
      }
      assert items[..i] == items;
      assert ExtractItems(items, s0.nextId) == ItemsWalk(Some(trees), fns);
      r := Some(trees);
    }

    /** extractFunction: the rewritten tree, or None when it threw, and the
        map from placeholder to id. The entries stay registered either way. */
    method Extract(v: Value) returns (r: Option<Value>, fnMap: map<nat, string>)
      modifies this
      ensures var w := ExtractWalk(v, old(nextId));
        r == w.tree
        && fnMap == HandleMap(old(nextId), |w.fns|)
        && Snapshot() == Register(old(Snapshot()), w.fns)
    {
      r, fnMap := Traverse(v, nextId, map[]);
    }

    // -------------------------------------------------------------------
    // Injection

    /** The `fnMap.forEach` loop of injectFunction: one proxy per distinct
        id of the handle map, held under its id and registered for
        collection; an id met a second time is skipped. */
    method GenerateProxies(fnMap: map<nat, string>) returns (generated: map<string, Fn>)
      modifies this
      ensures generated == Generated(fnMap, nextGen)
      ensures Snapshot() == old(Snapshot()).(holding := old(holding) + generated, registered := old(registered) + generated.Values)
    {
      generated := map[];
      var held, watched := holding, registered;
      var rest := fnMap.Keys;
      while rest != {}
        invariant rest <= fnMap.Keys
        invariant forall k :: k in fnMap && k !in rest ==> fnMap[k] in generated
        invariant generated.Keys <= fnMap.Values
        invariant forall id :: id in generated ==> generated[id] == Remote(id, nextGen)
        invariant held == holding + generated
        invariant watched == registered + generated.Values
        invariant Snapshot() == old(Snapshot())
        decreases rest
      {
        var k :| k in rest;
        var id := fnMap[k];
        assert id in fnMap.Values;
        if id !in generated {
          var proxy := Remote(id, nextGen);
          ValuesOfNewKey(generated, id, proxy);
          UnionThenUpdate(holding, generated, id, proxy);
          generated := generated[id := proxy];
          held := held[id := proxy];
          watched := watched + {proxy};
        }
        rest := rest - {k};
      }
      assert generated.Keys == fnMap.Values;
      holding, registered := held, watched;
    }

    /** injectFunction: make the proxies, then replace the placeholders of
        `obj` by them. None is the TypeError a null in `obj` throws. */
    method InjectFunction(obj: Value, fnMap: map<nat, string>) returns (r: Option<Value>)
      modifies this
      ensures (Snapshot(), r) == InjectArgs(old(Snapshot()), obj, Some(fnMap))
    {
      var generated := GenerateProxies(fnMap);
      nextGen := nextGen + 1;
      r := InjectWalk(obj, fnMap, generated);
    }

    // -------------------------------------------------------------------
    // Inbound packets

    /** The reply to an invoked function: its returned value, extracted, to
        the resolve id, or its thrown value to the reject id. */
    method Respond(resolveId: string, rejectId: string, o: Outcome)
      modifies this
      ensures Snapshot() == Answer(old(Snapshot()), resolveId, rejectId, o)
    {
      match o
      case Returned(v) =>
        if resolveId != NoTarget {
          var result, fnMap := Extract(v);
          ghost var w := ExtractWalk(v, old(nextId));
          MapFieldAgrees(old(nextId), |w.fns|);
          if result.Some? {
            OutputPacket(Call(ById(resolveId), Arr([result.value]), MapField(fnMap), NoTarget, NoTarget));
          } else if rejectId != NoTarget {
            OutputPacket(Reply(rejectId, NullKeys));
          }
        }
      case Threw(e) =>
        if rejectId != NoTarget {
          OutputPacket(Reply(rejectId, e));
        }
    }

    /** `[2, ids...]`: delete every listed id, one at a time. */
    method ReleaseIds(ids: seq<string>)
      modifies this
      ensures Snapshot() == old(Snapshot()).(table := old(table) - set id | id in ids)
    {
      var i := 0;
      while i < |ids|
        invariant 0 <= i <= |ids|
        invariant table == old(table) - set id | id in ids[..i]
        invariant Snapshot() == old(Snapshot()).(table := table)
      {
        assert ids[..i + 1] == ids[..i] + [ids[i]];
        table := table - {ids[i]};
        i := i + 1;
      }
      assert ids[..i] == ids;
    }

    /** Before a function called by id runs: drop its entry if it is
        single-use, and the entry its release target names. */
    method Retire(id: string)
      requires id in table
      modifies this
      ensures Snapshot() == old(Snapshot()).(table := AfterInvoke(old(table), id))
    {
      var info := table[id];
      if info.once {
        table := table - {id};
      }
      if info.releaseTarget != NoTarget {
        table := table - {info.releaseTarget};
      }
    }

    /** A call packet, `[0, name, ...]` or `[1, id, ...]`: look the target
        up, prepare the arguments, retire a single-use entry and its
        sibling, then reply with the outcome. */
    method CallLocal(target: Target, args: Value, fnMap: Option<map<nat, string>>, resolveId: string, rejectId: string, o: Outcome)
      modifies this
      ensures Snapshot() == Dispatch(old(Snapshot()), Call(target, args, fnMap, resolveId, rejectId), o)
    {
      ghost var s0 := Snapshot();
      ghost var p := Call(target, args, fnMap, resolveId, rejectId);
      var found := match target
        case Named(name) => name in named
        case ById(id) => id in table;
      assert found == Resolves(s0, target);
      if !found {
        if rejectId != NoTarget {
          OutputPacket(Reply(rejectId, NotExist));
        }
        return;
      }
      var param;
      if fnMap.Some? {
        param := InjectFunction(args, fnMap.value);
      } else {
        param := Some(args);
      }
      ghost var s1 := Snapshot();
      assert (s1, param) == InjectArgs(s0, args, fnMap);
      if param.None? {
        assert Dispatch(s0, p, o) == s1;
        return;
      }
      if target.ById? {
        Retire(target.id);
      }
      ghost var s2 := Snapshot();
      assert s2 == if target.ById? then s1.(table := AfterInvoke(s1.table, target.id)) else s1;
      assert Dispatch(s0, p, o) == Answer(s2, resolveId, rejectId, o);
      Respond(resolveId, rejectId, o);
    }

    /** onPacket: arrays with type 0 or 1 are calls, type 2 releases;
        anything else is ignored. */
    method OnPacket(p: Packet, o: Outcome)
      modifies this
      ensures Snapshot() == Dispatch(old(Snapshot()), p, o)
    {
      match p
      case Ignored =>
      case Release(ids) => ReleaseIds(ids);
      case Call(target, args, fnMap, resolveId, rejectId) =>
        CallLocal(target, args, fnMap, resolveId, rejectId, o);
    }

    /** onData: decode the input by its shape and dispatch it. */
    method OnData(input: Input, fromText: string -> Packet, fromBinary: seq<bv8> -> Packet, o: Outcome) returns (err: Option<string>)
      modifies this
      ensures (Snapshot(), err) == Protocol.OnData(old(Snapshot()), input, fromText, fromBinary, o)
    {
      err := None;
      match input
      case Text(t) => OnPacket(fromText(t), o);
      case Binary(b) => OnPacket(fromBinary(b), o);
      case Structured(p) => OnPacket(p, o);
      case Primitive(_) => err := Some(UnknownInput);
    }

    // -------------------------------------------------------------------
    // Outbound calls

    /** The body of callNamedFunction and of every proxy: extract the
        arguments, mint the resolve/reject pair, send the call packet. */
    method SendOutbound(target: Target, args: seq<Value>) returns (pr: Promise)
      modifies this
      ensures (Snapshot(), pr) == SendCall(old(Snapshot()), target, args)
    {
      var result, fnMap := Extract(Arr(args));
      ghost var w := ExtractWalk(Arr(args), old(nextId));
      if result.None? {
        return Rejected(NullKeys);
      }
      MapFieldAgrees(old(nextId), |w.fns|);
      var resolveId := MintId(nextId);
      var rejectId := MintId(nextId + 1);
      table := table[resolveId := FuncInfo(Settle(resolveId, true), true, rejectId)];
      table := table[rejectId := FuncInfo(Settle(resolveId, false), true, resolveId)];
      nextId := nextId + 2;
      if !bound {
        return Rejected(Str(NotBound));
      }
      OutputPacket(Call(target, result.value, MapField(fnMap), resolveId, rejectId));
      pr := Pending(resolveId, rejectId);
    }

    /** callNamedFunction. */
    method CallNamedFunction(name: string, args: seq<Value>) returns (pr: Promise)
      modifies this
      ensures (Snapshot(), pr) == SendCall(old(Snapshot()), Named(name), args)
    {
      pr := SendOutbound(Named(name), args);
    }

    /** Calling a function this context made: a proxy from injection, or a
        function read from the named-function facade. */
    method CallMadeFunction(f: Fn, args: seq<Value>) returns (pr: Promise)
      requires (f.Remote? || f.NamedCaller?)
      modifies this
      ensures (Snapshot(), pr) == CallMade(old(Snapshot()), f, args)
    {
      if f.Remote? {
        pr := SendOutbound(ById(f.id), args);
      } else {
        pr := CallNamedFunction(f.name, args);
      }
    }

    /** The finalization callback, run when proxy `p` has been collected. */
    method Finalize(p: Fn)
      requires p in registered && p.Remote?
      modifies this
      ensures Snapshot() == Collect(old(Snapshot()), p)
    {
      holding := holding - {p.id};
      registered := registered - {p};
      OutputPacket(Release([p.id]));
    }
  }
}
