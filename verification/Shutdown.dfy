/** The "stop now" signal: a tree of scoped stop tokens, and an abort token every node shares with its parent. */
module Shutdowns {

  /** Node 0 is the process's own signal; every other node is a child of an earlier one. A clone is the same node. */
  datatype Tree = Tree(parents: seq<nat>, stopped: seq<bool>, abortToken: seq<nat>, raised: set<nat>)

  predicate AreParents(parents: seq<nat>) {
    parents != [] && forall i :: 0 < i < |parents| ==> parents[i] < i
  }

  predicate IsTree(t: Tree) {
    && AreParents(t.parents) && |t.stopped| == |t.abortToken| == |t.parents|
    && forall i :: 0 < i < |t.parents| && t.stopped[t.parents[i]] ==> t.stopped[i]
  }

  const NEW := Tree([0], [false], [0], {})

  /** Whether `node` is `i` itself or one of its ancestors. */
  predicate IsUnder(parents: seq<nat>, i: nat, node: nat)
    requires AreParents(parents) && i < |parents|
    decreases i
  {
    i == node || (i > 0 && IsUnder(parents, parents[i], node))
  }

  /** Stops `node` and everything under it. */
  function Stop(t: Tree, node: nat): Tree
    requires IsTree(t)
  {
    t.(stopped := seq(|t.parents|, i requires 0 <= i < |t.parents| => t.stopped[i] || IsUnder(t.parents, i, node)))
  }

  /** A child is born stopped if its parent is, and shares its parent's abort. */
  function WithChild(t: Tree, of: nat): Tree
    requires IsTree(t) && of < |t.parents|
  {
    t.(parents := t.parents + [of], stopped := t.stopped + [t.stopped[of]],
       abortToken := t.abortToken + [t.abortToken[of]])
  }

  /** The second half of an abort. */
  function Raise(t: Tree, node: nat): Tree
    requires IsTree(t) && node < |t.parents|
  {
    t.(raised := t.raised + {t.abortToken[node]})
  }

  predicate IsCancelled(t: Tree, node: nat)
    requires IsTree(t) && node < |t.parents|
  {
    t.stopped[node]
  }

  predicate IsAborted(t: Tree, node: nat)
    requires IsTree(t) && node < |t.parents|
  {
    t.abortToken[node] in t.raised
  }

  // ---- trees stay trees ----

  lemma {:induction false} GrowingKeepsAncestors(parents: seq<nat>, of: nat, i: nat, node: nat)
    requires AreParents(parents) && of < |parents| && i < |parents|
    ensures IsUnder(parents + [of], i, node) == IsUnder(parents, i, node)
    decreases i
  {
    if i > 0 {
      GrowingKeepsAncestors(parents, of, parents[i], node);
    }
  }

  /** A child is under its parent, and under whatever that is under, and nothing else. */
  lemma AChildIsUnderItsParent(t: Tree, of: nat, node: nat)
    requires IsTree(t) && of < |t.parents|
    ensures
      var grown := WithChild(t, of);
      && |grown.parents| == |t.parents| + 1
      && (IsUnder(grown.parents, |t.parents|, node) <==> node == |t.parents| || IsUnder(t.parents, of, node))
  {
    GrowingKeepsAncestors(t.parents, of, of, node);
  }

  lemma StoppingKeepsATree(t: Tree, node: nat)
    requires IsTree(t)
    ensures IsTree(Stop(t, node))
  {
  }

  lemma {:induction false} EverythingIsUnderTheRoot(parents: seq<nat>, i: nat)
    requires AreParents(parents) && i < |parents|
    ensures IsUnder(parents, i, 0)
    decreases i
  {
    if i > 0 {
      EverythingIsUnderTheRoot(parents, parents[i]);
    }
  }

  lemma {:induction false} AncestorsComeFirst(parents: seq<nat>, i: nat, node: nat)
    requires AreParents(parents) && i < |parents| && IsUnder(parents, i, node)
    ensures node <= i
    decreases i
  {
    if i != node {
      AncestorsComeFirst(parents, parents[i], node);
    }
  }

  /** The tokens themselves, stopped in place: each node keeps its own flag, and stopping a node walks its descendants. */
  class Shutdown {
    var parents: seq<nat>
    var stopped: seq<bool>
    var abortToken: seq<nat>
    var raised: set<nat>

    ghost function Contents(): Tree
      reads this
    {
      Tree(parents, stopped, abortToken, raised)
    }

    ghost predicate Valid()
      reads this
    {
      IsTree(Contents())
    }

    constructor ()
      ensures Valid() && Contents() == NEW
    {
      parents, stopped, abortToken, raised := [0], [false], [0], {};
    }

    method Child(of: nat) returns (node: nat)
      requires Valid() && of < |parents|
      modifies this
      ensures Valid() && Contents() == WithChild(old(Contents()), of) && node == |old(parents)|
    {
      node := |parents|;
      parents := parents + [of];
      stopped := stopped + [stopped[of]];
      abortToken := abortToken + [abortToken[of]];
    }

    method Cancel(node: nat)
      requires Valid() && node < |parents|
      modifies this`stopped
      ensures Valid() && Contents() == Stop(old(Contents()), node)
    {
      StoppingKeepsATree(Contents(), node);
      ghost var was := stopped;
      stopped := stopped[node := true];
      forall i: nat | i < node ensures !IsUnder(parents, i, node) {
        if IsUnder(parents, i, node) { AncestorsComeFirst(parents, i, node); }
      }
      for i := node + 1 to |parents|
        invariant |stopped| == |was|
        invariant forall j :: 0 <= j < i ==> stopped[j] == (was[j] || IsUnder(parents, j, node))
        invariant forall j :: i <= j < |was| ==> stopped[j] == was[j]
      {
        if stopped[parents[i]] {
          stopped := stopped[i := true];
        }
      }
    }

    method Abort(node: nat)
      requires Valid() && node < |parents|
      modifies this`stopped, this`raised
      ensures Valid() && Contents() == Raise(Stop(old(Contents()), node), node)
    {
      StoppingKeepsATree(Contents(), node);
      Cancel(node);
      raised := raised + {abortToken[node]};
    }
  }
}
