/**
 * The bridge port lists (PORT_LIST in lib/util_mosq.c): singly linked lists of
 * broker records, most recently added first. A list is modelled by the
 * sequence of records reachable from its head pointer; relinking nodes is
 * modelled by computing the new sequence, which the owner of the head pointer
 * (the Bridge class in StpUpdate) stores back.
 */
module PortList {
  import opened Wrappers

  /** One node's BROKER record: the peer address (NULL or a string) and port. */
  datatype PortRecord = PortRecord(address: Option<string>, port: int)

  /** Some record of the list carries this port; addresses play no part. */
  predicate HasPort(l: seq<PortRecord>, port: int)
  {
    exists i | 0 <= i < |l| :: l[i].port == port
  }

  /** No port occurs twice in the list. */
  predicate NoDupPorts(l: seq<PortRecord>)
  {
    forall i, j | 0 <= i < j < |l| :: l[i].port != l[j].port
  }

  /** `add`: a fresh node holding `b` is linked in front of the list. */
  function Add(l: seq<PortRecord>, b: PortRecord): (r: seq<PortRecord>)
    ensures |r| == |l| + 1
    ensures forall port :: HasPort(r, port) <==> port == b.port || HasPort(l, port)
    ensures NoDupPorts(l) && !HasPort(l, b.port) ==> NoDupPorts(r)
  {
    var r := [b] + l;
    assert r[0].port == b.port;
    assert forall port :: HasPort(l, port) ==> HasPort(r, port) by {
      forall port | HasPort(l, port) ensures HasPort(r, port) {
        var i :| 0 <= i < |l| && l[i].port == port;
        assert r[i + 1].port == port;
      }
    }
    assert forall port :: HasPort(r, port) ==> port == b.port || HasPort(l, port) by {
      forall port | HasPort(r, port) ensures port == b.port || HasPort(l, port) {
        var i :| 0 <= i < |r| && r[i].port == port;
        if i > 0 { assert l[i - 1].port == port; }
      }
    }
    r
  }

  /**
   * `in_list`: walks the list from its head and reports whether some node
   * carries `port`. The address argument is accepted and ignored, as in the
   * source.
   */
  method InList(head: seq<PortRecord>, address: Option<string>, port: int) returns (found: bool)
    ensures found <==> HasPort(head, port)
  {
    var i := 0;
    while i < |head|
      invariant 0 <= i <= |head|
      invariant forall k | 0 <= k < i :: head[k].port != port
    {
      if head[i].port == port {
        return true;
      }
      i := i + 1;
    }
    return false;
  }

  /** What `remove_node` returns, with the list its head now reaches. */
  datatype Removal = Removal(port: int, rest: seq<PortRecord>)

  /**
   * `remove_node` as written: it keeps the head node, unlinks and frees the
   * SECOND node, and returns the head's port; on an empty list it returns 0
   * and changes nothing. On a one-element list it reads `head->next->next`
   * through a NULL `head->next`, so callers must not pass one.
   */
  function RemoveNode(head: seq<PortRecord>): (r: Removal)
    requires |head| != 1
    ensures head == [] ==> r.port == 0 && r.rest == []
    ensures head != [] ==> r.port == head[0].port && r.rest != [] && r.rest[0] == head[0]
    ensures |r.rest| == if head == [] then 0 else |head| - 1
    ensures forall port :: HasPort(r.rest, port) ==> HasPort(head, port)
  {
    if head == [] then Removal(0, [])
    else
      var rest := [head[0]] + head[2..];
      assert forall port :: HasPort(rest, port) ==> HasPort(head, port) by {
        forall port | HasPort(rest, port) ensures HasPort(head, port) {
          var i :| 0 <= i < |rest| && rest[i].port == port;
          if i > 0 { assert head[i + 1].port == port; } else { assert head[0].port == port; }
        }
      }
      Removal(head[0].port, rest)
  }

  /**
   * `delete_root`: the head node is freed and the caller's head pointer moves
   * to the second node. The source reads `(*head)->next` unconditionally, so
   * the list must not be empty.
   */
  function DeleteRoot(head: seq<PortRecord>): (r: seq<PortRecord>)
    requires head != []
    ensures Add(r, head[0]) == head
  {
    head[1..]
  }

  /**
   * Head removal as the list is meant to behave: the most recent record is
   * removed and its port returned, and an empty list is reported as such
   * rather than as port 0. Used by the intended root election in StpUpdate.
   */
  function RemoveHead(head: seq<PortRecord>): (r: Option<(int, seq<PortRecord>)>)
    ensures r.None? <==> head == []
    ensures r.Some? ==> r.value.0 == head[0].port && Add(r.value.1, head[0]) == head
  {
    if head == [] then None else Some((head[0].port, head[1..]))
  }

  /** Deleting the head undoes `add`. */
  lemma DeleteRootUndoesAdd(l: seq<PortRecord>, b: PortRecord)
    ensures DeleteRoot(Add(l, b)) == l
  {
    assert Add(l, b)[1..] == l;
  }

  /** Head removal undoes `add` and reports the added port. */
  lemma RemoveHeadUndoesAdd(l: seq<PortRecord>, b: PortRecord)
    ensures RemoveHead(Add(l, b)) == Some((b.port, l))
  {
    assert Add(l, b)[1..] == l;
  }

  /**
   * `remove_node` after two additions drops the OLDER of the two records and
   * keeps the newer one at the head: it does not remove the head.
   */
  lemma RemoveNodeDropsSecond(l: seq<PortRecord>, b: PortRecord, c: PortRecord)
    ensures RemoveNode(Add(Add(l, b), c)) == Removal(c.port, Add(l, c))
  {
    var two := Add(Add(l, b), c);
    assert two[2..] == l;
  }
}
