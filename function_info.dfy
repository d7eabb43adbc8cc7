/** The record kept for every local function the peer may call by id. */
module FunctionInfo {
  import opened Values

  /** The empty release target: the entry retires nothing when invoked. */
  const NoTarget: string := ""

  /** `func` is the function itself; `once` says the entry is dropped when it
      is invoked; `releaseTarget`, when not empty, names the entry that is
      dropped when this one is invoked (the sibling of a resolve/reject
      pair). Nothing writes these fields after construction. */
  datatype FuncInfo = FuncInfo(func: Fn, once: bool, releaseTarget: string)

  /** Handle id to entry. */
  type Table = map<string, FuncInfo>

  /** The entry registered for a function found while extracting a tree:
      the field defaults, reusable and pairing with nothing. */
  function Ordinary(f: Fn): FuncInfo {
    FuncInfo(f, false, NoTarget)
  }

  /** The table as it is once entry `id` has been looked up for invocation,
      before the function runs: a single-use entry is gone, and so is the
      entry its release target names. */
  function AfterInvoke(table: Table, id: string): (t: Table)
    requires id in table
    ensures forall k :: k in t <==>
      k in table
      && !(k == id && table[id].once)
      && !(k == table[id].releaseTarget && table[id].releaseTarget != NoTarget)
    ensures forall k :: k in t ==> t[k] == table[k]
  {
    var info := table[id];
    var kept := if info.once then table - {id} else table;
    if info.releaseTarget != NoTarget then kept - {info.releaseTarget} else kept
  }

  /** An ordinary entry survives its own invocation and retires nothing. */
  lemma OrdinaryEntryStays(table: Table, id: string, f: Fn)
    requires id in table && table[id] == Ordinary(f)
    ensures AfterInvoke(table, id) == table
  {
    assert AfterInvoke(table, id).Keys == table.Keys;
  }
}
