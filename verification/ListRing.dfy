/** Circular doubly linked lists (Near-Field Proximity Sample Driver, list.h).  The record that contains an
    entry (CMyPayload, by CONTAINING_RECORD) is represented by its message. */
module ListRing {

  type Byte = b: int | 0 <= b < 256

  /** A received message; the serial number tells which one. */
  datatype Msg = Msg(serial: nat, payload: seq<Byte>)

  class ListEntry {
    var Flink: ListEntry
    var Blink: ListEntry
    const msg: Msg

    /** InitializeListHead */
    constructor (msg: Msg)
      ensures Flink == this && Blink == this && this.msg == msg
    {
      this.msg := msg;
      Flink, Blink := this, this;
    }
  }

  /** The entries of ring, the head first, are linked to a circle. */
  ghost predicate Linked(ring: seq<ListEntry>)
    reads ring
  {
    && ring != []
    && (forall i, j | 0 <= i < j < |ring| :: ring[i] != ring[j])
    && (forall i | 0 <= i < |ring| - 1 :: ring[i].Flink == ring[i + 1] && ring[i + 1].Blink == ring[i])
    && ring[|ring| - 1].Flink == ring[0] && ring[0].Blink == ring[|ring| - 1]
  }

  /** The messages in a list, oldest first. */
  ghost function Messages(ring: seq<ListEntry>): seq<Msg>
    requires ring != []
  {
    seq(|ring| - 1, i requires 0 <= i < |ring| - 1 => ring[i + 1].msg)
  }

  /** IsListEmpty */
  method IsListEmpty(head: ListEntry, ghost ring: seq<ListEntry>) returns (empty: bool)
    requires Linked(ring) && ring[0] == head
    ensures empty <==> |ring| == 1
  {
    if |ring| > 1 { assert ring[0].Flink == ring[1] && ring[1] != ring[0]; }
    empty := head.Flink == head;
  }

  /** InsertTailList */
  method InsertTailList(head: ListEntry, entry: ListEntry, ghost ring: seq<ListEntry>)
    requires Linked(ring) && ring[0] == head && entry !in ring
    modifies ring[|ring| - 1], head, entry
    ensures Linked(ring + [entry])
  {
    var blink := head.Blink;
    entry.Flink := head;
    entry.Blink := blink;
    blink.Flink := entry;
    head.Blink := entry;
  }

  /** InsertHeadList */
  method InsertHeadList(head: ListEntry, entry: ListEntry, ghost ring: seq<ListEntry>)
    requires Linked(ring) && ring[0] == head && entry !in ring
    modifies ring[if |ring| > 1 then 1 else 0], head, entry
    ensures Linked([head, entry] + ring[1..])
  {
    var flink := head.Flink;
    entry.Flink := flink;
    entry.Blink := head;
    flink.Blink := entry;
    head.Flink := entry;
  }

  /** RemoveHeadList.  Of an empty list, the head itself is returned, and the list stays empty. */
  method RemoveHeadList(head: ListEntry, ghost ring: seq<ListEntry>) returns (entry: ListEntry)
    requires Linked(ring) && ring[0] == head
    modifies ring[if |ring| > 2 then 2 else 0], head
    ensures if |ring| == 1 then entry == head && Linked(ring) else entry == ring[1] && Linked([head] + ring[2..])
  {
    entry := head.Flink;
    var flink := entry.Flink;
    assert |ring| > 1 ==> head.Flink == ring[1];
    assert |ring| == 2 ==> ring[|ring| - 1] == entry;
    assert flink == ring[if |ring| > 2 then 2 else 0];
    head.Flink := flink;
    flink.Blink := head;
  }

  /** RemoveTailList */
  method RemoveTailList(head: ListEntry, ghost ring: seq<ListEntry>) returns (entry: ListEntry)
    requires Linked(ring) && ring[0] == head
    modifies ring[if |ring| > 1 then |ring| - 2 else 0], head
    ensures if |ring| == 1 then entry == head && Linked(ring)
            else entry == ring[|ring| - 1] && Linked(ring[..|ring| - 1])
  {
    entry := head.Blink;
    var blink := entry.Blink;
    head.Blink := blink;
    blink.Flink := head;
  }

  /** RemoveEntryList, for the entry at place k: whether the list is empty afterwards. */
  method RemoveEntryList(entry: ListEntry, ghost ring: seq<ListEntry>, ghost k: nat) returns (empty: bool)
    requires Linked(ring) && 1 <= k < |ring| && ring[k] == entry
    modifies ring[k - 1], ring[(k + 1) % |ring|]
    ensures Linked(ring[..k] + ring[k + 1..]) && (empty <==> |ring| == 2)
  {
    var flink := entry.Flink;
    var blink := entry.Blink;
    assert blink == ring[k - 1] && flink == ring[(k + 1) % |ring|];
    blink.Flink := flink;
    flink.Blink := blink;
    empty := flink == blink;
  }

  lemma JoinDistinct(ring: seq<ListEntry>, more: seq<ListEntry>)
    requires forall i, j | 0 <= i < j < |ring| :: ring[i] != ring[j]
    requires forall i, j | 0 <= i < j < |more| :: more[i] != more[j]
    requires forall x | x in ring :: x !in more
    ensures var all := ring + more; forall i, j | 0 <= i < j < |all| :: all[i] != all[j]
  {
    var all := ring + more;
    forall i, j | 0 <= i < j < |all| ensures all[i] != all[j] {
      if i < |ring| <= j { assert ring[i] !in more && more[j - |ring|] in more; }
    }
  }

  /** AppendTailList: the entries of a circle without a head go to the end of a list. */
  method AppendTailList(head: ListEntry, list: ListEntry, ghost ring: seq<ListEntry>, ghost more: seq<ListEntry>)
    requires Linked(ring) && ring[0] == head && Linked(more) && more[0] == list && forall x | x in ring :: x !in more
    modifies ring[|ring| - 1], head, more[|more| - 1], list
    ensures Linked(ring + more)
  {
    var listEnd := head.Blink;
    JoinDistinct(ring, more);
    head.Blink.Flink := list;
    head.Blink := list.Blink;
    list.Blink.Flink := head;
    list.Blink := listEnd;
    ghost var all, n := ring + more, |ring|;
    assert all[n - 1] == listEnd && all[n] == list;
    forall i | 0 <= i < |all| - 1 ensures all[i].Flink == all[i + 1] && all[i + 1].Blink == all[i] {
      if i + 1 < n {
        assert all[i] == ring[i] && all[i + 1] == ring[i + 1];
      } else if i >= n {
        assert all[i] == more[i - n] && all[i + 1] == more[i + 1 - n];
      }
    }
  }
}
