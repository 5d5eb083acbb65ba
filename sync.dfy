/** The state sync engine (src/cli/cyborg-sync.js): a node's state is its name, a
    timestamp and a data dictionary; `merge` folds every stored state into the
    local one. Reading the state directory is left to the caller: a stored state
    is `Some` of its parsed content, a missing file `None`. */
module Sync {
  import opened Wrappers

  datatype SyncState = SyncState(node: string, timestamp: int, data: map<string, string>)

  /** `loadState(file)`: the parsed file, or a fresh state of the running node with
      timestamp 0 and no data when the file does not exist. */
  function LoadState(stored: Option<SyncState>, nodeName: string): (r: SyncState)
    ensures stored.None? ==> r.node == nodeName && r.timestamp == 0 && r.data == map[]
    ensures stored.Some? ==> r == stored.value
  {
    match stored
    case None => SyncState(nodeName, 0, map[])
    case Some(s) => s
  }

  /** `mergeStates(a, b)`: a's node, the later timestamp, and every key of either
      dictionary with b's value winning a clash. */
  function MergeStates(a: SyncState, b: SyncState): (r: SyncState)
    ensures r.node == a.node
    ensures r.timestamp >= a.timestamp && r.timestamp >= b.timestamp
    ensures r.timestamp == a.timestamp || r.timestamp == b.timestamp
    ensures r.data.Keys == a.data.Keys + b.data.Keys
    ensures forall k :: k in b.data ==> r.data[k] == b.data[k]
    ensures forall k :: k in a.data && k !in b.data ==> r.data[k] == a.data[k]
  {
    SyncState(a.node, if a.timestamp >= b.timestamp then a.timestamp else b.timestamp, a.data + b.data)
  }

  /** Merging a state with itself gives it back. */
  lemma MergeIdempotent(s: SyncState)
    ensures MergeStates(s, s) == s
  {
    assert s.data + s.data == s.data;
  }

  /** Merging is associative, so the fold may be regrouped freely. */
  lemma MergeAssociative(a: SyncState, b: SyncState, c: SyncState)
    ensures MergeStates(MergeStates(a, b), c) == MergeStates(a, MergeStates(b, c))
  {
    assert (a.data + b.data) + c.data == a.data + (b.data + c.data);
  }

  /** Merging the same state a second time changes nothing. */
  lemma MergeAbsorbs(a: SyncState, b: SyncState)
    ensures MergeStates(MergeStates(a, b), b) == MergeStates(a, b)
  {
    assert (a.data + b.data) + b.data == a.data + b.data;
  }

  /** The state after merging `others` into `init` in order, one `mergeStates` per
      stored state. */
  function MergeFold(init: SyncState, others: seq<SyncState>): (r: SyncState)
    ensures r.node == init.node
    ensures r.timestamp >= init.timestamp
    ensures forall i :: 0 <= i < |others| ==> r.timestamp >= others[i].timestamp
    ensures r.timestamp == init.timestamp || exists i :: 0 <= i < |others| && r.timestamp == others[i].timestamp
  {
    if others == [] then init
    else
      var n := |others| - 1;
      var prev := MergeFold(init, others[..n]);
      assert forall i :: 0 <= i < n ==> others[..n][i] == others[i];
      MergeStates(prev, others[n])
  }

  /** The merged dictionary has the keys of the local state and of every stored
      state, and no other. */
  lemma {:induction false} MergeFoldKeys(init: SyncState, others: seq<SyncState>, k: string)
    ensures k in MergeFold(init, others).data <==> k in init.data || exists i :: 0 <= i < |others| && k in others[i].data
  {
    if others != [] {
      var n := |others| - 1;
      MergeFoldKeys(init, others[..n], k);
      assert forall i :: 0 <= i < n ==> others[..n][i] == others[i];
    }
  }

  /** The last stored state holding a key gives its value; a key no stored state
      holds keeps the local value. */
  lemma {:induction false} MergeFoldLastWriter(init: SyncState, others: seq<SyncState>, k: string)
    ensures (k in init.data && forall i :: 0 <= i < |others| ==> k !in others[i].data) ==>
      k in MergeFold(init, others).data && MergeFold(init, others).data[k] == init.data[k]
    ensures forall i :: (0 <= i < |others| && k in others[i].data &&
      forall j :: i < j < |others| ==> k !in others[j].data) ==>
      k in MergeFold(init, others).data && MergeFold(init, others).data[k] == others[i].data[k]
  {
    if others != [] {
      var n := |others| - 1;
      MergeFoldLastWriter(init, others[..n], k);
      MergeFoldKeys(init, others[..n], k);
      assert forall i :: 0 <= i < n ==> others[..n][i] == others[i];
    }
  }

  /** The `merge` action: start from the local state (fresh when its file is
      missing) and merge every stored state into it, in directory order. The
      local file is itself among the stored ones. */
  method Merge(local: Option<SyncState>, nodeName: string, stored: seq<SyncState>) returns (merged: SyncState)
    ensures merged == MergeFold(LoadState(local, nodeName), stored)
  {
    merged := LoadState(local, nodeName);
    for i := 0 to |stored|
      invariant merged == MergeFold(LoadState(local, nodeName), stored[..i])
    {
      assert stored[..i + 1][..i] == stored[..i];
      merged := MergeStates(merged, stored[i]);
    }
    assert stored[..|stored|] == stored;
  }

  /** The merge never lowers the local timestamp, keeps the local node (the
      running node's name when no local file exists) and loses no key. */
  lemma {:induction false} MergeKeepsLocal(local: Option<SyncState>, nodeName: string, stored: seq<SyncState>)
    ensures var r := MergeFold(LoadState(local, nodeName), stored);
      && (local.Some? ==> r.node == local.value.node && r.timestamp >= local.value.timestamp &&
                          local.value.data.Keys <= r.data.Keys)
      && (local.None? ==> r.node == nodeName && r.timestamp >= 0)
  {
    forall k | local.Some? && k in local.value.data {
      MergeFoldKeys(LoadState(local, nodeName), stored, k);
    }
  }

  /** Merging the local state into itself (its file is listed with the others)
      changes nothing. */
  lemma {:induction false} MergeFoldSelf(s: SyncState, n: nat)
    ensures MergeFold(s, seq(n, _ => s)) == s
  {
    if n > 0 {
      assert seq(n, _ => s)[..n - 1] == seq(n - 1, _ => s);
      MergeFoldSelf(s, n - 1);
      MergeIdempotent(s);
    }
  }
}
