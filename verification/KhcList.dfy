/** The request header list: ebisu/khc/src/khc_slist.c. */
module KhcList {

  class Node {
    var data: string
    var next: Node?

    /** `khc_cb_slist_alloc` */
    constructor (str: string)
      ensures data == str && next == null
    {
      data := str;
      next := null;
    }
  }

  /** `spine` is the list from `head` on, node by node. */
  ghost predicate IsList(head: Node?, spine: seq<Node>)
    reads spine
  {
    if spine == [] then head == null
    else head == spine[0] && spine[0] !in spine[1..] && IsList(spine[0].next, spine[1..])
  }

  ghost function Texts(spine: seq<Node>): (r: seq<string>)
    reads spine
    ensures |r| == |spine| && forall i :: 0 <= i < |spine| ==> r[i] == spine[i].data
  {
    seq(|spine|, i requires 0 <= i < |spine| reads spine => spine[i].data)
  }

  ghost predicate Linked(spine: seq<Node>, i: nat)
    requires i < |spine|
    reads spine
  {
    spine[i].next == if i + 1 < |spine| then spine[i + 1] else null
  }

  /** Each node but the last links to the next one. */
  lemma {:induction false} ListLinks(head: Node?, spine: seq<Node>, i: nat)
    requires IsList(head, spine) && i < |spine|
    ensures Linked(spine, i)
    ensures forall j :: 0 <= j < |spine| && j != i ==> spine[j] != spine[i]
  {
    assert forall j :: 0 < j < |spine| ==> spine[j] == spine[1..][j - 1];
    if i == 0 {
      forall j | 0 < j < |spine| ensures spine[j] != spine[0] { assert spine[j] in spine[1..]; }
      if |spine| > 1 { assert IsList(spine[0].next, spine[1..]); }
    } else {
      assert spine[i] in spine[1..];
      ListLinks(spine[0].next, spine[1..], i - 1);
    }
  }

  /** A chain of distinct nodes that ends in null is a list. */
  lemma {:induction false} LinksList(head: Node?, spine: seq<Node>)
    requires spine == [] ==> head == null
    requires spine != [] ==> head == spine[0]
    requires forall i :: 0 <= i < |spine| ==> Linked(spine, i)
    requires forall i, j :: 0 <= i < j < |spine| ==> spine[i] != spine[j]
    ensures IsList(head, spine)
    decreases |spine|
  {
    if spine != [] {
      var rest := spine[1..];
      assert Linked(spine, 0);
      forall i | 0 <= i < |rest| ensures Linked(rest, i) {
        assert Linked(spine, i + 1);
      }
      LinksList(spine[0].next, rest);
    }
  }

  /** `khc_slist_append_using_cb_alloc`: the new node comes last, all others stay; `made` is what the
      allocating callback returned. */
  method Append(slist: Node?, made: Node?, ghost spine: seq<Node>) returns (head: Node?)
    requires IsList(slist, spine) && made !in spine
    modifies spine, made
    ensures made == null ==> head == null && IsList(slist, spine) && Texts(spine) == old(Texts(spine))
    ensures made != null ==> IsList(head, spine + [made]) && Texts(spine + [made]) == old(Texts(spine)) + [old(made.data)]
  {
    if made == null { return null; }
    made.next := null;
    if slist == null { return made; }
    var end := slist;
    ghost var i := 0;
    while end.next != null
      invariant 0 <= i < |spine| && end == spine[i]
      invariant IsList(slist, spine) && Texts(spine) == old(Texts(spine)) && made.next == null
                && made.data == old(made.data)
      decreases |spine| - i
    {
      ListLinks(slist, spine, i);
      end := end.next;
      i := i + 1;
    }
    ListLinks(slist, spine, i);
    forall j | 0 <= j < |spine| ensures Linked(spine, j) { ListLinks(slist, spine, j); }
    forall j, k | 0 <= j < k < |spine| ensures spine[j] != spine[k] { ListLinks(slist, spine, j); }
    label Before:
    end.next := made;
    forall j | 0 <= j <= |spine| ensures Linked(spine + [made], j) {
      if j < |spine| { assert old@Before(Linked(spine, j)); }
    }
    LinksList(slist, spine + [made]);
    head := slist;
  }

  /** `khc_slist_free_all_using_cb_free`: every node goes to the freeing callback once, in order, and
      is not read any more once the callback has had it. */
  method FreeAll(slist: Node?, ghost spine: seq<Node>) returns (freed: seq<Node>)
    requires IsList(slist, spine)
    modifies spine
    ensures freed == spine
  {
    var curr := slist;
    freed := [];
    while curr != null
      invariant |freed| <= |spine| && freed == spine[..|freed|]
      invariant IsList(curr, spine[|freed|..])
      decreases |spine| - |freed|
    {
      var next := curr.next;
      Destroy(curr);
      freed := freed + [curr];
      curr := next;
    }
  }

  /** The freeing callback leaves nothing of the node to rely on. */
  method Destroy(node: Node)
    modifies node
  {
    node.data, node.next := "", node;
  }
}
