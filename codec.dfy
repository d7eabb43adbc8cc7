/** The tree codec: extraction swaps every function in an outbound tree for a
    placeholder and a fresh handle id; injection swaps the placeholders of an
    inbound tree for locally generated proxies. */
module Codec {
  import opened Values
  import opened FunctionInfo

  /** The identifier generator: the n-th unique identifier it hands out.
      Identifiers differ in length, so distinct n give distinct ids, and an
      id longer than every id handed out so far is fresh. */
  function MintId(n: nat): (id: string)
    ensures |id| == n + 1
  {
    seq(n + 1, _ => '#')
  }

  /** Result of walking one tree: the rewritten tree, or None when the walk
      threw (Object.keys(null)), and the functions registered on the way,
      including those met before a throw. */
  datatype Walk = Walk(tree: Option<Value>, fns: seq<Fn>)

  datatype ItemsWalk = ItemsWalk(trees: Option<seq<Value>>, fns: seq<Fn>)

  /** Extraction of `v` when the next identifier to hand out is number
      `next`. The k-th function met (depth first) gets id MintId(next + k)
      and placeholder token next + k. Null is an object to JavaScript, and
      asking for its keys throws, so a null anywhere aborts the walk. */
  function ExtractWalk(v: Value, next: nat): (w: Walk)
    decreases v
  {
    match v
    case Func(f) => Walk(Some(Placeholder(next)), [f])
    case Null => Walk(None, [])
    case Arr(items) =>
      var iw := ExtractItems(items, next);
      Walk(if iw.trees.Some? then Some(Arr(iw.trees.value)) else None, iw.fns)
    case Obj(keys, items) =>
      var iw := ExtractItems(items, next);
      Walk(if iw.trees.Some? then Some(Obj(keys, iw.trees.value)) else None, iw.fns)
    case Placeholder(_) => Walk(Some(Obj([], [])), [])
    case HostError(_) => Walk(Some(Obj([], [])), [])
    case _ => Walk(Some(v), [])
  }

  /** Extraction of the elements of an array (or the values of an object),
      in order; the walk stops at the first element that throws. */
  function ExtractItems(items: seq<Value>, next: nat): (w: ItemsWalk)
    decreases items
  {
    if items == [] then ItemsWalk(Some([]), [])
    else
      var pre := ExtractItems(items[..|items| - 1], next);
      if pre.trees.None? then pre
      else
        var last := ExtractWalk(items[|items| - 1], next + |pre.fns|);
        var trees := if last.tree.Some? then Some(pre.trees.value + [last.tree.value]) else None;
        ItemsWalk(trees, pre.fns + last.fns)
  }

  /** The handle map sent with an extracted tree that met `count`
      functions: placeholder token to id. */
  function HandleMap(next: nat, count: nat): map<nat, string> {
    map k: nat | next <= k < next + count :: MintId(k)
  }

  /** The handle map of an extraction that met `count` functions maps
      exactly their tokens, each to the id minted with it. */
  lemma HandleMapPairsTokensWithIds(next: nat, count: nat)
    ensures var m := HandleMap(next, count);
      (forall k :: k in m <==> next <= k < next + count)
      && (forall k :: k in m ==> m[k] == MintId(k))
  {
  }

  /** Recording one more placeholder extends the handle map by one token. */
  lemma HandleMapGrows(next: nat, count: nat)
    ensures HandleMap(next, count)[next + count := MintId(next + count)] == HandleMap(next, count + 1)
  {
  }

  /** Map union associates. */
  lemma UnionAssociates<K, V>(a: map<K, V>, b: map<K, V>, c: map<K, V>)
    ensures a + b + c == a + (b + c)
  {
  }

  /** The table entries registered by an extraction that met `fns`: the
      k-th function met gets an ordinary entry under MintId(next + k). */
  function Entries(next: nat, fns: seq<Fn>): Table
    decreases |fns|
  {
    if fns == [] then map[]
    else Entries(next, fns[..|fns| - 1])[MintId(next + |fns| - 1) := Ordinary(fns[|fns| - 1])]
  }

  /** n functions give n entries under the n ids MintId(next), ...,
      MintId(next + n - 1), each ordinary and holding its function. */
  lemma {:induction false} EntriesAreOrdinary(next: nat, fns: seq<Fn>)
    ensures var e := Entries(next, fns);
      |e| == |fns|
      && (forall k: nat :: next <= k < next + |fns| ==> MintId(k) in e && e[MintId(k)] == Ordinary(fns[k - next]))
      && (forall id :: id in e ==> next < |id| <= next + |fns|)
      && (forall id :: id in e ==> !e[id].once && e[id].releaseTarget == NoTarget)
    decreases |fns|
  {
    if fns != [] {
      var pre := fns[..|fns| - 1];
      EntriesAreOrdinary(next, pre);
      assert forall i :: 0 <= i < |pre| ==> pre[i] == fns[i];
      assert MintId(next + |pre|) !in Entries(next, pre);
    }
  }

  /** The proxies made by one injection: one per distinct id of the handle
      map, whether or not a placeholder for it occurs in the tree. */
  function Generated(fnMap: map<nat, string>, gen: nat): (g: map<string, Fn>)
    ensures g.Keys == fnMap.Values
    ensures forall k :: k in fnMap ==> fnMap[k] in g && g[fnMap[k]] == Remote(fnMap[k], gen)
  {
    map id | id in fnMap.Values :: Remote(id, gen)
  }

  /** Injection of a received tree, once the proxies are generated: a
      placeholder of the handle map becomes its id's proxy, arrays and
      objects are rebuilt, and values that are not objects come back
      unchanged. Any other object is rebuilt from its keys, so a stray
      placeholder or an error becomes `{}`, and null throws. */
  function InjectWalk(v: Value, fnMap: map<nat, string>, generated: map<string, Fn>): (r: Option<Value>)
    requires forall k :: k in fnMap ==> fnMap[k] in generated
    decreases v
  {
    match v
    case Placeholder(k) => if k in fnMap then Some(Func(generated[fnMap[k]])) else Some(Obj([], []))
    case Null => None
    case HostError(_) => Some(Obj([], []))
    case Arr(items) =>
      var r := InjectItems(items, fnMap, generated);
      if r.Some? then Some(Arr(r.value)) else None
    case Obj(keys, items) =>
      var r := InjectItems(items, fnMap, generated);
      if r.Some? then Some(Obj(keys, r.value)) else None
    case _ => Some(v)
  }

  function InjectItems(items: seq<Value>, fnMap: map<nat, string>, generated: map<string, Fn>): (r: Option<seq<Value>>)
    requires forall k :: k in fnMap ==> fnMap[k] in generated
    decreases items
  {
    if items == [] then Some([])
    else
      var pre := InjectItems(items[..|items| - 1], fnMap, generated);
      var last := InjectWalk(items[|items| - 1], fnMap, generated);
      if pre.Some? && last.Some? then Some(pre.value + [last.value]) else None
  }

  /** The proxies an injection with generation `gen` makes for the ids
      MintId(next), ..., MintId(next + count - 1), in that order. */
  function Proxies(next: nat, count: nat, gen: nat): seq<Fn> {
    seq(count, i requires 0 <= i < count => Remote(MintId(next + i), gen))
  }

  /** Extraction throws exactly when the tree holds a null; otherwise it
      registers every function of the tree, in depth-first order. */
  lemma {:induction false} ExtractOutcome(v: Value, next: nat)
    ensures ExtractWalk(v, next).tree.None? <==> HasNull(v)
    ensures ExtractWalk(v, next).tree.Some? ==> ExtractWalk(v, next).fns == Fns(v)
    decreases v
  {
    match v
    case Arr(items) => ExtractItemsOutcome(items, next);
    case Obj(_, items) => ExtractItemsOutcome(items, next);
    case _ =>
  }

  lemma {:induction false} ExtractItemsOutcome(items: seq<Value>, next: nat)
    ensures ExtractItems(items, next).trees.None? <==> HasNullItems(items)
    ensures ExtractItems(items, next).trees.Some? ==>
      |ExtractItems(items, next).trees.value| == |items| && ExtractItems(items, next).fns == FnsItems(items)
    decreases items
  {
    if items != [] {
      var n := |items| - 1;
      ExtractItemsOutcome(items[..n], next);
      ExtractOutcome(items[n], next + |ExtractItems(items[..n], next).fns|);
    }
  }

  /** Injection throws exactly when the tree holds a null. */
  lemma {:induction false} InjectOutcome(v: Value, fnMap: map<nat, string>, generated: map<string, Fn>)
    requires forall k :: k in fnMap ==> fnMap[k] in generated
    ensures InjectWalk(v, fnMap, generated).None? <==> HasNull(v)
    decreases v
  {
    match v
    case Arr(items) => InjectItemsOutcome(items, fnMap, generated);
    case Obj(_, items) => InjectItemsOutcome(items, fnMap, generated);
    case _ =>
  }

  lemma {:induction false} InjectItemsOutcome(items: seq<Value>, fnMap: map<nat, string>, generated: map<string, Fn>)
    requires forall k :: k in fnMap ==> fnMap[k] in generated
    ensures InjectItems(items, fnMap, generated).None? <==> HasNullItems(items)
    decreases items
  {
    if items != [] {
      var n := |items| - 1;
      InjectItemsOutcome(items[..n], fnMap, generated);
      InjectOutcome(items[n], fnMap, generated);
    }
  }

  /** Plain data comes out of extraction unchanged, with no functions. */
  lemma {:induction false} ExtractPlain(v: Value, next: nat)
    requires Plain(v)
    ensures ExtractWalk(v, next) == Walk(Some(v), [])
    decreases v
  {
    match v
    case Arr(items) => ExtractPlainItems(items, next);
    case Obj(_, items) => ExtractPlainItems(items, next);
    case _ =>
  }

  lemma {:induction false} ExtractPlainItems(items: seq<Value>, next: nat)
    requires PlainItems(items)
    ensures ExtractItems(items, next) == ItemsWalk(Some(items), [])
    decreases items
  {
    if items != [] {
      var n := |items| - 1;
      ExtractPlainItems(items[..n], next);
      ExtractPlain(items[n], next);
      assert items[..n] + [items[n]] == items;
      assert ExtractItems(items, next) == ItemsWalk(Some(items[..n] + [items[n]]), [] + []);
    }
  }

  /** Plain data comes out of injection unchanged, whatever the handle map. */
  lemma {:induction false} InjectPlain(v: Value, fnMap: map<nat, string>, generated: map<string, Fn>)
    requires forall k :: k in fnMap ==> fnMap[k] in generated
    requires Plain(v)
    ensures InjectWalk(v, fnMap, generated) == Some(v)
    decreases v
  {
    match v
    case Arr(items) => InjectPlainItems(items, fnMap, generated);
    case Obj(_, items) => InjectPlainItems(items, fnMap, generated);
    case _ =>
  }

  lemma {:induction false} InjectPlainItems(items: seq<Value>, fnMap: map<nat, string>, generated: map<string, Fn>)
    requires forall k :: k in fnMap ==> fnMap[k] in generated
    requires PlainItems(items)
    ensures InjectItems(items, fnMap, generated) == Some(items)
    decreases items
  {
    if items != [] {
      var n := |items| - 1;
      InjectPlainItems(items[..n], fnMap, generated);
      InjectPlain(items[n], fnMap, generated);
      assert items[..n] + [items[n]] == items;
    }
  }

  /** Values that are not objects (primitives, undefined, functions) pass
      through both walks untouched; extraction only rewrites functions. */
  lemma NonObjectsPassThrough(v: Value, next: nat, fnMap: map<nat, string>, generated: map<string, Fn>)
    requires forall k :: k in fnMap ==> fnMap[k] in generated
    requires !IsObject(v)
    ensures InjectWalk(v, fnMap, generated) == Some(v)
    ensures !v.Func? ==> ExtractWalk(v, next) == Walk(Some(v), [])
  {
  }

  /** The tokens next, ..., next + count - 1, in order: the placeholders an
      extraction that starts at `next` and meets `count` functions hands out. */
  function Range(next: nat, count: nat): (r: seq<nat>)
    ensures |r| == count
    ensures forall i :: 0 <= i < count ==> r[i] == next + i
    ensures forall k :: k in r <==> next <= k < next + count
  {
    var r := seq(count, i requires 0 <= i < count => next + i);
    assert forall k :: next <= k < next + count ==> k in r by {
      forall k | next <= k < next + count ensures k in r {
        assert r[k - next] == k;
      }
    }
    r
  }

  lemma RangeAppend(next: nat, a: nat, b: nat)
    ensures Range(next, a) + Range(next + a, b) == Range(next, a + b)
  {
  }

  /** Every token of the sequence has an entry in the handle map. */
  predicate Covered(tokens: seq<nat>, fnMap: map<nat, string>) {
    forall i :: 0 <= i < |tokens| ==> tokens[i] in fnMap
  }

  lemma CoveredSplit(a: seq<nat>, b: seq<nat>, fnMap: map<nat, string>)
    requires Covered(a + b, fnMap)
    ensures Covered(a, fnMap) && Covered(b, fnMap)
  {
    forall i | 0 <= i < |a| ensures a[i] in fnMap {
      assert (a + b)[i] == a[i];
    }
    forall i | 0 <= i < |b| ensures b[i] in fnMap {
      assert (a + b)[|a| + i] == b[i];
    }
  }

  /** The proxies that replace the placeholders `tokens`, in order. */
  function ProxiesFor(tokens: seq<nat>, fnMap: map<nat, string>, generated: map<string, Fn>): seq<Fn>
    requires forall k :: k in fnMap ==> fnMap[k] in generated
    requires Covered(tokens, fnMap)
  {
    seq(|tokens|, i requires 0 <= i < |tokens| => generated[fnMap[tokens[i]]])
  }

  lemma ProxiesForAppend(a: seq<nat>, b: seq<nat>, fnMap: map<nat, string>, generated: map<string, Fn>)
    requires forall k :: k in fnMap ==> fnMap[k] in generated
    requires Covered(a, fnMap) && Covered(b, fnMap)
    ensures Covered(a + b, fnMap)
    ensures ProxiesFor(a + b, fnMap, generated) == ProxiesFor(a, fnMap, generated) + ProxiesFor(b, fnMap, generated)
  {
  }

  /** A successful extraction leaves no function and no null in the tree. */
  lemma {:induction false} ExtractClean(v: Value, next: nat)
    requires !HasNull(v)
    ensures ExtractWalk(v, next).tree.Some?
    ensures Fns(ExtractWalk(v, next).tree.value) == [] && !HasNull(ExtractWalk(v, next).tree.value)
    decreases v
  {
    match v
    case Arr(items) => ExtractCleanItems(items, next);
    case Obj(_, items) => ExtractCleanItems(items, next);
    case _ =>
  }

  lemma {:induction false} ExtractCleanItems(items: seq<Value>, next: nat)
    requires !HasNullItems(items)
    ensures ExtractItems(items, next).trees.Some?
    ensures FnsItems(ExtractItems(items, next).trees.value) == [] && !HasNullItems(ExtractItems(items, next).trees.value)
    decreases items
  {
    if items != [] {
      var n := |items| - 1;
      ExtractCleanItems(items[..n], next);
      var a := |ExtractItems(items[..n], next).fns|;
      ExtractClean(items[n], next + a);
      var pre := ExtractItems(items[..n], next).trees.value;
      var last := ExtractWalk(items[n], next + a).tree.value;
      assert ExtractItems(items, next).trees.value == pre + [last];
      ItemsSnoc(pre, last);
    }
  }

  /** The k-th function met by an extraction that starts at `next` has
      become placeholder next + k. */
  lemma {:induction false} ExtractTokens(v: Value, next: nat)
    requires !HasNull(v)
    ensures ExtractWalk(v, next).tree.Some?
    ensures Tokens(ExtractWalk(v, next).tree.value) == Range(next, |ExtractWalk(v, next).fns|)
    decreases v
  {
    match v
    case Func(_) =>
      assert Range(next, 1) == [next];
    case Arr(items) => ExtractTokensItems(items, next);
    case Obj(_, items) => ExtractTokensItems(items, next);
    case _ =>
  }

  lemma {:induction false} ExtractTokensItems(items: seq<Value>, next: nat)
    requires !HasNullItems(items)
    ensures ExtractItems(items, next).trees.Some?
    ensures TokensItems(ExtractItems(items, next).trees.value) == Range(next, |ExtractItems(items, next).fns|)
    decreases items
  {
    if items != [] {
      var n := |items| - 1;
      ExtractTokensItems(items[..n], next);
      var a := |ExtractItems(items[..n], next).fns|;
      ExtractTokens(items[n], next + a);
      var pre := ExtractItems(items[..n], next).trees.value;
      var last := ExtractWalk(items[n], next + a).tree.value;
      assert ExtractItems(items, next).trees.value == pre + [last];
      ItemsSnoc(pre, last);
      RangeAppend(next, a, |ExtractWalk(items[n], next + a).fns|);
    }
  }

  /** Read back with placeholders as functions, the extracted tree has the
      shape of the original. */
  lemma {:induction false} ExtractSkeleton(v: Value, next: nat)
    requires !HasNull(v)
    ensures ExtractWalk(v, next).tree.Some?
    ensures Skeleton(ExtractWalk(v, next).tree.value) == Shape(v)
    decreases v
  {
    match v
    case Arr(items) => ExtractSkeletonItems(items, next);
    case Obj(_, items) => ExtractSkeletonItems(items, next);
    case _ =>
  }

  lemma {:induction false} ExtractSkeletonItems(items: seq<Value>, next: nat)
    requires !HasNullItems(items)
    ensures ExtractItems(items, next).trees.Some?
    ensures SkeletonItems(ExtractItems(items, next).trees.value) == ShapeItems(items)
    decreases items
  {
    if items != [] {
      var n := |items| - 1;
      ExtractSkeletonItems(items[..n], next);
      var a := |ExtractItems(items[..n], next).fns|;
      ExtractSkeleton(items[n], next + a);
      var pre := ExtractItems(items[..n], next).trees.value;
      var last := ExtractWalk(items[n], next + a).tree.value;
      assert ExtractItems(items, next).trees.value == pre + [last];
      ItemsSnoc(pre, last);
      assert items[..n] + [items[n]] == items;
      ItemsSnoc(items[..n], items[n]);
    }
  }

  /** Injection of a received tree without functions, every placeholder of
      which is in the handle map, puts the proxy of each placeholder's id
      where the placeholder was. */
  lemma {:induction false} InjectFns(t: Value, fnMap: map<nat, string>, generated: map<string, Fn>)
    requires forall k :: k in fnMap ==> fnMap[k] in generated
    requires !HasNull(t) && Fns(t) == []
    requires Covered(Tokens(t), fnMap)
    ensures InjectWalk(t, fnMap, generated).Some?
    ensures Fns(InjectWalk(t, fnMap, generated).value) == ProxiesFor(Tokens(t), fnMap, generated)
    decreases t
  {
    match t
    case Placeholder(k) =>
      assert Tokens(t)[0] == k;
    case Arr(items) => InjectFnsItems(items, fnMap, generated);
    case Obj(_, items) => InjectFnsItems(items, fnMap, generated);
    case Func(_) =>
    case Null =>
    case _ => InjectFnsLeaf(t, fnMap, generated);
  }

  /** The values with nothing to replace inside come back with no function. */
  lemma InjectFnsLeaf(t: Value, fnMap: map<nat, string>, generated: map<string, Fn>)
    requires forall k :: k in fnMap ==> fnMap[k] in generated
    requires !t.Placeholder? && !t.Arr? && !t.Obj? && !t.Func? && !t.Null?
    ensures Tokens(t) == []
    ensures InjectWalk(t, fnMap, generated).Some? && Fns(InjectWalk(t, fnMap, generated).value) == []
  {
  }

  lemma {:induction false} InjectFnsItems(items: seq<Value>, fnMap: map<nat, string>, generated: map<string, Fn>)
    requires forall k :: k in fnMap ==> fnMap[k] in generated
    requires !HasNullItems(items) && FnsItems(items) == []
    requires Covered(TokensItems(items), fnMap)
    ensures InjectItems(items, fnMap, generated).Some?
    ensures FnsItems(InjectItems(items, fnMap, generated).value) == ProxiesFor(TokensItems(items), fnMap, generated)
    decreases items
  {
    if items != [] {
      var n := |items| - 1;
      assert TokensItems(items) == TokensItems(items[..n]) + Tokens(items[n]);
      CoveredSplit(TokensItems(items[..n]), Tokens(items[n]), fnMap);
      InjectFnsItems(items[..n], fnMap, generated);
      InjectFns(items[n], fnMap, generated);
      var r1 := InjectItems(items[..n], fnMap, generated).value;
      var r2 := InjectWalk(items[n], fnMap, generated).value;
      assert InjectItems(items, fnMap, generated).value == r1 + [r2];
      ItemsSnoc(r1, r2);
      ProxiesForAppend(TokensItems(items[..n]), Tokens(items[n]), fnMap, generated);
    }
  }

  /** The same injection keeps the tree's shape, reading each placeholder
      as the function it stands for. */
  lemma {:induction false} InjectShape(t: Value, fnMap: map<nat, string>, generated: map<string, Fn>)
    requires forall k :: k in fnMap ==> fnMap[k] in generated
    requires !HasNull(t)
    requires Covered(Tokens(t), fnMap)
    ensures InjectWalk(t, fnMap, generated).Some?
    ensures Shape(InjectWalk(t, fnMap, generated).value) == Skeleton(t)
    decreases t
  {
    match t
    case Placeholder(k) =>
      assert Tokens(t)[0] == k;
    case Arr(items) => InjectShapeItems(items, fnMap, generated);
    case Obj(_, items) => InjectShapeItems(items, fnMap, generated);
    case _ =>
  }

  lemma {:induction false} InjectShapeItems(items: seq<Value>, fnMap: map<nat, string>, generated: map<string, Fn>)
    requires forall k :: k in fnMap ==> fnMap[k] in generated
    requires !HasNullItems(items)
    requires Covered(TokensItems(items), fnMap)
    ensures InjectItems(items, fnMap, generated).Some?
    ensures ShapeItems(InjectItems(items, fnMap, generated).value) == SkeletonItems(items)
    decreases items
  {
    if items != [] {
      var n := |items| - 1;
      assert TokensItems(items) == TokensItems(items[..n]) + Tokens(items[n]);
      CoveredSplit(TokensItems(items[..n]), Tokens(items[n]), fnMap);
      InjectShapeItems(items[..n], fnMap, generated);
      InjectShape(items[n], fnMap, generated);
      var r1 := InjectItems(items[..n], fnMap, generated).value;
      var r2 := InjectWalk(items[n], fnMap, generated).value;
      assert InjectItems(items, fnMap, generated).value == r1 + [r2];
      ItemsSnoc(r1, r2);
    }
  }

  /** The round trip: a tree extracted here and injected on the far side
      with the handle map and proxies made from it keeps its shape, and
      its k-th function occurrence has become the proxy for MintId(next + k). */
  lemma ExtractInjectRoundTrip(v: Value, next: nat, gen: nat)
    requires !HasNull(v)
    ensures ExtractWalk(v, next).tree.Some?
    ensures var m := HandleMap(next, |ExtractWalk(v, next).fns|);
      var r := InjectWalk(ExtractWalk(v, next).tree.value, m, Generated(m, gen));
      r.Some? && Shape(r.value) == Shape(v) && Fns(r.value) == Proxies(next, |Fns(v)|, gen)
  {
    ExtractOutcome(v, next);
    ExtractClean(v, next);
    ExtractTokens(v, next);
    ExtractSkeleton(v, next);
    var t := ExtractWalk(v, next).tree.value;
    var m := HandleMap(next, |Fns(v)|);
    HandleMapPairsTokensWithIds(next, |Fns(v)|);
    var g := Generated(m, gen);
    InjectFns(t, m, g);
    InjectShape(t, m, g);
    assert ProxiesFor(Tokens(t), m, g) == Proxies(next, |Fns(v)|, gen);
  }

  /** The handle map of an extraction links every placeholder it made to
      the entry registered for the function it replaced: the i-th
      placeholder maps to an id whose entry is the ordinary entry of the
      i-th function met, and the map has no other key. */
  lemma PlaceholdersMapToTheirFunctions(v: Value, next: nat)
    requires !HasNull(v)
    ensures ExtractWalk(v, next).tree.Some?
    ensures var w := ExtractWalk(v, next);
      var t := w.tree.value;
      var m := HandleMap(next, |w.fns|);
      var e := Entries(next, w.fns);
      |Tokens(t)| == |w.fns|
      && (forall k :: k in m <==> k in Tokens(t))
      && (forall i :: 0 <= i < |w.fns| ==>
            Tokens(t)[i] in m && m[Tokens(t)[i]] in e && e[m[Tokens(t)[i]]] == Ordinary(w.fns[i]))
  {
    var w := ExtractWalk(v, next);
    var n := |w.fns|;
    ExtractTokens(v, next);
    var tokens := Tokens(w.tree.value);
    assert tokens == Range(next, n);
    var m := HandleMap(next, n);
    var e := Entries(next, w.fns);
    HandleMapPairsTokensWithIds(next, n);
    EntriesAreOrdinary(next, w.fns);
    forall i | 0 <= i < n
      ensures tokens[i] in m && m[tokens[i]] in e && e[m[tokens[i]]] == Ordinary(w.fns[i])
    {
      assert tokens[i] == next + i;
    }
  }

  /** Nothing is deduplicated on the way out: two occurrences of a function,
      even of the same function, become two different proxies on the far
      side. */
  lemma OccurrencesGetDistinctProxies(v: Value, next: nat, gen: nat, i: nat, j: nat)
    requires !HasNull(v)
    requires i < j < |Fns(v)|
    ensures ExtractWalk(v, next).tree.Some?
    ensures var m := HandleMap(next, |ExtractWalk(v, next).fns|);
      var r := InjectWalk(ExtractWalk(v, next).tree.value, m, Generated(m, gen));
      r.Some? && |Fns(r.value)| == |Fns(v)| && Fns(r.value)[i] != Fns(r.value)[j]
  {
    ExtractInjectRoundTrip(v, next, gen);
    assert |MintId(next + i)| != |MintId(next + j)|;
  }

  // ---------------------------------------------------------------------
  // Facts the step-by-step extraction relies on

  /** Registering `a` and then `b` registers the same entries as `a + b`. */
  lemma {:induction false} EntriesAppend(next: nat, a: seq<Fn>, b: seq<Fn>)
    ensures Entries(next, a) + Entries(next + |a|, b) == Entries(next, a + b)
    decreases |b|
  {
    if b == [] {
      assert a + b == a;
    } else {
      var b' := b[..|b| - 1];
      EntriesAppend(next, a, b');
      assert (a + b)[..|a + b| - 1] == a + b';
    }
  }

  /** The handle map is empty exactly when no function was met, which is
      when the packet's map field is left undefined. */
  lemma HandleMapEmpty(next: nat, count: nat)
    ensures HandleMap(next, count) == map[] <==> count == 0
  {
    HandleMapPairsTokensWithIds(next, count);
    if count > 0 {
      assert next in HandleMap(next, count);
    }
  }

  /** Once an element of an array throws, the walk of the whole array ends
      there: the later elements are not visited and register nothing. */
  lemma {:induction false} ExtractItemsStopsAtFailure(items: seq<Value>, j: nat, next: nat)
    requires j <= |items| && ExtractItems(items[..j], next).trees.None?
    ensures ExtractItems(items, next) == ExtractItems(items[..j], next)
    decreases |items|
  {
    if j < |items| {
      var n := |items| - 1;
      assert items[..n][..j] == items[..j];
      ExtractItemsStopsAtFailure(items[..n], j, next);
    } else {
      assert items[..j] == items;
    }
  }

  /** One more element of an array: its walk starts at the identifier after
      those of the elements before it. */
  lemma ExtractItemsStep(items: seq<Value>, i: nat, next: nat)
    requires i < |items| && ExtractItems(items[..i], next).trees.Some?
    ensures var pre := ExtractItems(items[..i], next);
      var last := ExtractWalk(items[i], next + |pre.fns|);
      ExtractItems(items[..i + 1], next)
        == ItemsWalk(if last.tree.Some? then Some(pre.trees.value + [last.tree.value]) else None, pre.fns + last.fns)
  {
    assert items[..i + 1][..i] == items[..i];
  }
}
