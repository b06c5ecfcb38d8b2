/** Pods, nodes and the two primitive changes every mutation of the snapshot comes down to.

    A node is the multiset of pods it lists: the order of the list is not part of the contract.
    Adding never looks at what is resident; removing goes by UID alone.
*/
module Pods {

  type NodeName = string

  /** A pod as a node stores it. `request` stands for everything else in the pod that filters read. */
  datatype PodVal = PodVal(uid: string, request: nat)

  /** A pod object owned by the caller. Only the node name is ever written by the library. */
  class Pod {
    const uid: string
    const request: nat
    var nodeName: NodeName

    constructor (uid: string, request: nat, nodeName: NodeName)
      ensures this.uid == uid && this.request == request && this.nodeName == nodeName
    {
      this.uid, this.request, this.nodeName := uid, request, nodeName;
    }

    /** The copy the library stores: the object is always cloned before it enters a node. */
    function Val(): PodVal {
      PodVal(uid, request)
    }
  }

  /** Why a node does not take a pod: it might once other pods are gone, or it never will. */
  datatype Why = Unschedulable | Unresolvable

  type Cluster = map<NodeName, multiset<PodVal>>

  /** No element of the list occurs twice. */
  ghost predicate Distinct<T>(xs: seq<T>) {
    forall j, k :: 0 <= j < k < |xs| ==> xs[j] != xs[k]
  }

  predicate HasUid(pods: multiset<PodVal>, uid: string) {
    exists r :: r in pods && r.uid == uid
  }

  /** The resident that removal by UID takes. When a node lists several pods with the same UID and
      different contents the library takes the first listed one; list order is not modelled, so the
      tie is broken by content. */
  function Resident(pods: multiset<PodVal>, uid: string): (r: PodVal)
    requires HasUid(pods, uid)
    ensures r in pods && r.uid == uid
  {
    ghost var w :| w in pods && w.uid == uid;
    ResidentFrom(pods, uid, 0, w)
  }

  function ResidentFrom(pods: multiset<PodVal>, uid: string, k: nat, ghost w: PodVal): (r: PodVal)
    requires w in pods && w.uid == uid && k <= w.request
    ensures r in pods && r.uid == uid
    decreases w.request - k
  {
    if PodVal(uid, k) in pods then PodVal(uid, k) else ResidentFrom(pods, uid, k + 1, w)
  }

  /** An empty UID has no pod key, and an unknown node cannot be looked up. */
  predicate Addable(c: Cluster, v: PodVal, n: NodeName) {
    v.uid != "" && n in c
  }

  predicate Removable(c: Cluster, v: PodVal, n: NodeName) {
    v.uid != "" && n in c && HasUid(c[n], v.uid)
  }

  function Add(c: Cluster, v: PodVal, n: NodeName): Cluster
    requires n in c
  {
    c[n := c[n] + multiset{v}]
  }

  function Remove(c: Cluster, v: PodVal, n: NodeName): Cluster
    requires Removable(c, v, n)
  {
    c[n := c[n] - multiset{Resident(c[n], v.uid)}]
  }

  /** A UID identifies a pod: everything resident under it has the one content `content` gives. */
  ghost predicate Uniform(c: Cluster, content: string -> nat) {
    forall n, v :: n in c && v in c[n] ==> v.request == content(v.uid)
  }

  lemma RemoveTakesEqual(c: Cluster, v: PodVal, n: NodeName, content: string -> nat)
    requires Uniform(c, content) && v.request == content(v.uid)
    ensures Removable(c, v, n) <==> v.uid != "" && n in c && v in c[n]
    ensures Removable(c, v, n) ==> Remove(c, v, n) == c[n := c[n] - multiset{v}]
    ensures Removable(c, v, n) ==> Uniform(Remove(c, v, n), content)
  {
    if Removable(c, v, n) {
      assert Resident(c[n], v.uid) == v;
    }
  }

  lemma AddKeepsUniform(c: Cluster, v: PodVal, n: NodeName, content: string -> nat)
    requires Uniform(c, content) && v.request == content(v.uid) && n in c
    ensures Uniform(Add(c, v, n), content)
  {
    var a := Add(c, v, n);
    forall m, w: PodVal | m in a && w in a[m] ensures w.request == content(w.uid) {
      if w != v {
        assert w in c[m];
      }
    }
  }

  /** Undoing an addition: removing the pod just added gives back the very same cluster. */
  lemma RemoveUndoesAdd(c: Cluster, v: PodVal, n: NodeName, content: string -> nat)
    requires Uniform(c, content) && v.request == content(v.uid) && Addable(c, v, n)
    ensures var a := Add(c, v, n); Removable(a, v, n) && Remove(a, v, n) == c
  {
    var a := Add(c, v, n);
    AddKeepsUniform(c, v, n, content);
    assert v in a[n];
    RemoveTakesEqual(a, v, n, content);
    assert a[n] - multiset{v} == c[n];
  }

  /** Undoing a removal: adding the caller's copy gives back the cluster, because the resident taken
      had the same content. */
  lemma AddUndoesRemove(c: Cluster, v: PodVal, n: NodeName, content: string -> nat)
    requires Uniform(c, content) && v.request == content(v.uid) && Removable(c, v, n)
    ensures Uniform(Remove(c, v, n), content)
    ensures Addable(Remove(c, v, n), v, n) && Add(Remove(c, v, n), v, n) == c
  {
    RemoveTakesEqual(c, v, n, content);
    assert c[n] - multiset{v} + multiset{v} == c[n];
  }
}
