/** The context of a handle (Near-Field Proximity Sample Driver, FileContext.cpp and FileContext.h). */
module FileContext {
  import opened ListRing
  import M = HandleModel

  const WINDOWSMIME_PROTOCOL: string := "WindowsMime"
  const WINDOWSMIME_PROTOCOL_CHARS: nat := 11
  const MAX_CCH_MIME_TYPE: nat := 256

  datatype Match = NoMatch | Match(payload: seq<Byte>)

  /** The MIME type as it is put in front of the payload, filled up with zeros; none if it is too long, or
      not all of it can be converted. */
  function MimeHeader(mime: string): Match {
    if |mime| <= MAX_CCH_MIME_TYPE && forall i | 0 <= i < |mime| :: mime[i] as int < 128 then
      Match(seq(MAX_CCH_MIME_TYPE, i requires 0 <= i < MAX_CCH_MIME_TYPE => if i < |mime| then
        MimeByte(mime[i]) else 0))
    else
      NoMatch
  }

  function MimeByte(c: char): Byte {
    if (c as int) < 128 then c as int else 0
  }

  /** Whether a subscription wants a published message, and what it gets. */
  function Wanted(subscribed: string, published: string, payload: seq<Byte>): Match {
    if subscribed == WINDOWSMIME_PROTOCOL && |published| > WINDOWSMIME_PROTOCOL_CHARS
       && published[..WINDOWSMIME_PROTOCOL_CHARS] == WINDOWSMIME_PROTOCOL then
      var header := MimeHeader(published[WINDOWSMIME_PROTOCOL_CHARS + 1..]);
      if header == NoMatch then NoMatch else Match(header.payload + payload)
    else if published == subscribed then
      Match(payload)
    else
      NoMatch
  }

  /** A subscription to messages of all MIME types, and a message that has one, after the protocol and a dot. */
  predicate OfAllTypes(subscribed: string, published: string) {
    subscribed == "WindowsMime" && |published| > 11 && published[..11] == "WindowsMime"
  }

  /** The published types that match a subscription: all MIME types of ASCII characters that are not too long for a
      general one, and otherwise the type itself. */
  predicate Matches(subscribed: string, published: string) {
    if OfAllTypes(subscribed, published) then
      |published| <= 12 + 256 && forall i | 12 <= i < |published| :: published[i] as int < 128
    else
      published == subscribed
  }

  /** What the subscription gets: the payload, and for a general one the MIME type in 256 bytes before it. */
  predicate Gets(subscribed: string, published: string, payload: seq<Byte>, message: seq<Byte>) {
    if OfAllTypes(subscribed, published) then
      && |message| == 256 + |payload| && message[256..] == payload
      && (forall i | 0 <= i < 256 :: message[i] == if 12 + i < |published| then published[12 + i] as int else 0)
    else
      message == payload
  }

  lemma WantedIs(subscribed: string, published: string, payload: seq<Byte>)
    ensures var w := Wanted(subscribed, published, payload);
      (w.Match? <==> Matches(subscribed, published)) && (w.Match? ==> Gets(subscribed, published, payload, w.payload))
  {
    if OfAllTypes(subscribed, published) {
      var mime := published[12..];
      forall i | 0 <= i < |mime| ensures mime[i] == published[12 + i] {
      }
      if Matches(subscribed, published) {
        var header := MimeHeader(mime);
        assert header.Match?;
        assert (header.payload + payload)[256..] == payload;
      } else if |published| <= 12 + 256 {
        var i :| 12 <= i < |published| && published[i] as int >= 128;
        assert mime[i - 12] as int >= 128;
      }
    }
  }

  ghost function Entries(ring: seq<ListEntry>): set<ListEntry> {
    set x | x in ring
  }

  lemma FewerEntries(ring: seq<ListEntry>, ring0: seq<ListEntry>)
    requires forall i | 0 <= i < |ring| :: ring[i] in ring0
    ensures Entries(ring) <= Entries(ring0)
  {
  }

  class FileContext {
    var role: M.Role
    var enabled: bool
    var kind: string
    var queueSize: nat
    const head: ListEntry
    var ready: nat
    var pended: M.Pended
    ghost var ring: seq<ListEntry>
    ghost var done: seq<M.Completion>

    constructor ()
      ensures Valid() && fresh(ring) && View() == M.Handle(M.Undefined, true, 0, [], 0, M.Nothing, [])
    {
      role, enabled, kind := M.Undefined, true, "";
      queueSize, ready, pended := 0, 0, M.Nothing;
      var h := new ListEntry(Msg(0, []));
      head := h;
      ring, done := [h], [];
      new;
      assert Messages(ring) == [];
    }

    ghost predicate Valid()
      reads this, ring
    {
      ring != [] && ring[0] == head && Linked(ring)
    }

    ghost function View(): M.Handle
      reads this
    {
      M.Handle(role, enabled, queueSize, if ring != [] then Messages(ring) else [], ready, pended, done)
    }

    /** CompleteRequest; late: UnmarkCancelable finds that the request is being cancelled. */
    method CompleteRequest(o: M.Outcome, cancelable: bool, late: bool) returns (completed: bool)
      modifies this`pended, this`done
      ensures View() == M.CompleteRequest(old(View()), o, cancelable, late).h
      ensures completed == M.CompleteRequest(old(View()), o, cancelable, late).ok
    {
      completed := false;
      if pended != M.Nothing {
        var complete := true;
        if cancelable {
          if pended.request.cancelled || late {
            complete := false;
            pended := M.Pending(pended.request.(cancelled := true));
          }
        }
        if complete {
          done := done + [M.Completion(pended.request.id, o)];
          pended := M.Nothing;
          completed := true;
        }
      }
    }

    /** CompleteOneGetNextSubscribedMessage */
    method CompleteOne(msg: Msg, late: bool) returns (delivered: bool)
      requires pended != M.Nothing
      modifies this`pended, this`done, this`queueSize
      ensures View() == M.DeliverOne(old(View()), msg, late).h
      ensures delivered == M.DeliverOne(old(View()), msg, late).ok
    {
      delivered := false;
      if pended.request.output != M.NoMemory {
        var size := pended.request.output.size;
        var outcome := M.TooSmall;
        if size >= 4 {
          if size < |msg.payload| + 4 {
            outcome := M.Overflow;
          } else {
            outcome := M.Delivered(msg);
            delivered := true;
            if queueSize > 0 {
              queueSize := queueSize - 1;
            }
          }
        }
        var completed := CompleteRequest(outcome, true, late);
        if !completed {
          delivered := false;
        }
      }
    }

    method OnCancel()
      modifies this`pended, this`done
      ensures View() == M.OnCancel(old(View()))
    {
      var completed := CompleteRequest(M.Aborted, false, false);
    }

    /** MarkCancelable runs OnCancel if the request is cancelled already. */
    method MarkCancelable()
      modifies this`pended, this`done
      ensures View() == M.MarkCancelable(old(View()))
    {
      if pended != M.Nothing && pended.request.cancelled {
        OnCancel();
      }
    }

    /** The first message leaves the queue. */
    method DropFirst()
      requires Valid() && |ring| > 1
      modifies this`ring, ring
      ensures Valid() && ring == [head] + old(ring)[2..] && Messages(ring) == old(Messages(ring))[1..]
    {
      var entry := RemoveHeadList(head, ring);
      assert Messages([head] + ring[2..]) == Messages(ring)[1..];
      ring := [head] + ring[2..];
    }

    /** The first message of the queue goes to the pended request. */
    method DeliverFirst(late: bool)
      requires Valid() && pended != M.Nothing && |ring| > 1
      modifies this`pended, this`done, this`queueSize, this`ring, ring
      ensures Valid() && Entries(ring) <= Entries(old(ring))
      ensures View() == M.DeliverFirst(old(View()), late)
    {
      var first := head.Flink;
      assert first == ring[1] && first.msg == Messages(ring)[0];
      var delivered := CompleteOne(first.msg, late);
      if delivered {
        DropFirst();
      }
    }

    /** CompleteOneArrivalEvent and CompleteOneRemovalEvent */
    method CompleteOneEvent(serial: nat, late: bool)
      modifies this`pended, this`done, this`queueSize, this`ready
      ensures View() == M.DeliverEvent(old(View()), serial, late)
    {
      if ready > 0 {
        if pended != M.Nothing {
          var delivered := CompleteOne(Msg(serial, M.Flags(role)), late);
          if delivered {
            ready := ready - 1;
          }
        }
      }
    }

    /** GetNextSubscribedMessage: whether the request was accepted. */
    method GetNextSubscribedMessage(r: M.Request, inputEmpty: bool, serial: nat, late: bool) returns (accepted: bool)
      requires Valid()
      modifies this`pended, this`done, this`queueSize, this`ready, this`ring, ring
      ensures Valid() && Entries(ring) <= Entries(old(ring))
      ensures View() == M.GetNext(old(View()), r, inputEmpty, serial, late).h
      ensures accepted == M.GetNext(old(View()), r, inputEmpty, serial, late).ok
    {
      accepted := pended == M.Nothing;
      if !enabled { accepted := false; }
      if accepted {
        if inputEmpty {
          if role == M.Subscription {
            pended := M.Pending(r);
            MarkCancelable();
            var empty := IsListEmpty(head, ring);
            if pended != M.Nothing && !empty {
              DeliverFirst(late);
            }
          } else if role == M.ArrivedSubscription || role == M.DepartedSubscription {
            pended := M.Pending(r);
            MarkCancelable();
            if pended != M.Nothing {
              CompleteOneEvent(serial, late);
            }
          } else {
            accepted := false;
          }
        } else {
          accepted := false;
        }
      }
    }

    /** GetNextTransmittedMessage */
    method GetNextTransmittedMessage(r: M.Request, bothEmpty: bool) returns (accepted: bool)
      modifies this`pended, this`done, this`ready
      ensures View() == M.GetNextTransmitted(old(View()), r, bothEmpty).h
      ensures accepted == M.GetNextTransmitted(old(View()), r, bothEmpty).ok
    {
      accepted := role == M.Publication && pended == M.Nothing;
      if !enabled { accepted := false; }
      if accepted {
        if bothEmpty {
          pended := M.Pending(r);
          if ready > 0 {
            var completed := CompleteRequest(M.Transmitted, false, false);
            if completed {
              ready := ready - 1;
            }
          }
        } else {
          accepted := false;
        }
      }
      if accepted && pended != M.Nothing {
        MarkCancelable();
      }
    }

    /** A copy of the message goes to the end of the queue. */
    method Enqueue(msg: Msg)
      requires Valid()
      modifies this`queueSize, this`ring, ring
      ensures Valid() && fresh(Entries(ring) - Entries(old(ring)))
      ensures View() == old(View()).(queue := old(View().queue) + [msg], queueSize := old(queueSize) + 1)
    {
      var entry := new ListEntry(msg);
      InsertTailList(head, entry, ring);
      assert Messages(ring + [entry]) == Messages(ring) + [msg];
      ring := ring + [entry];
      queueSize := queueSize + 1;
    }

    /** HandleReceivedPublication, for a message that matches; room: whether memory for a copy of it can be had. */
    method Receive(msg: Msg, late: bool, room: bool)
      requires Valid() && enabled
      modifies this`pended, this`done, this`queueSize, this`ring, ring
      ensures Valid() && fresh(Entries(ring) - Entries(old(ring)))
      ensures View() == M.Receive(old(View()), msg, late, room)
    {
      hide M.DeliverOne, Linked;
      var delivered := false;
      if pended != M.Nothing {
        delivered := CompleteOne(msg, late);
      }
      if !delivered && queueSize < M.MAX_MESSAGE_QUEUE_SIZE && room {
        Enqueue(msg);
      }
    }

    /** HandleReceivedPublication */
    method HandleReceivedPublication(published: string, payload: seq<Byte>, serial: nat, late: bool, room: bool)
      requires Valid()
      modifies this`pended, this`done, this`queueSize, this`ring, ring
      ensures Valid() && fresh(Entries(ring) - Entries(old(ring)))
      ensures !Matches(kind, published) ==> View() == old(View())
      ensures Matches(kind, published) ==> exists message: seq<Byte> ::
        Gets(kind, published, payload, message) && View() == M.Receive(old(View()), Msg(serial, message), late, room)
    {
      hide Wanted, Matches, Gets;
      WantedIs(kind, published, payload);
      if enabled {
        var wanted := Wanted(kind, published, payload);
        if wanted != NoMatch {
          Receive(Msg(serial, wanted.payload), late, room);
        }
      }
    }

    /** HandleArrivalEvent and HandleRemovalEvent */
    method HandleEvent(serial: nat, late: bool)
      modifies this`pended, this`done, this`queueSize, this`ready
      ensures View() == M.Event(old(View()), serial, late)
    {
      if enabled {
        ready := ready + 1;
        CompleteOneEvent(serial, late);
      }
    }

    method HandleMessageTransmitted(late: bool)
      modifies this`pended, this`done, this`ready
      ensures View() == M.MessageTransmitted(old(View()), late)
    {
      var completed := CompleteRequest(M.Transmitted, true, late);
      if !completed {
        ready := ready + 1;
      }
    }

    /** All messages leave the queue. */
    method Purge()
      requires Valid()
      modifies this`ring, ring
      ensures Valid() && View() == old(View()).(queue := []) && Entries(ring) <= Entries(old(ring))
    {
      hide Entries;
      ghost var r0 := ring;
      var empty := IsListEmpty(head, ring);
      while !empty
        invariant Valid() && (empty <==> |ring| == 1) && forall i | 0 <= i < |ring| :: ring[i] in r0
        decreases |ring|
      {
        DropFirst();
        empty := IsListEmpty(head, ring);
      }
      assert Messages(ring) == [];
      FewerEntries(ring, r0);
    }

    method Disable(late: bool)
      requires Valid()
      modifies this`enabled, this`pended, this`done, this`ring, ring
      ensures Valid() && View() == M.Disable(old(View()), late)
      ensures Entries(ring) <= Entries(old(ring))
    {
      var ok := role != M.Undefined && role != M.Proximity;
      if !enabled { ok := false; }
      if ok {
        enabled := false;
        var completed := CompleteRequest(M.Outcome.Disabled, true, late);
        Purge();
      }
    }

    method Enable()
      modifies this`enabled
      ensures View() == M.Enable(old(View()))
    {
      var ok := role != M.Undefined && role != M.Proximity;
      if enabled { ok := false; }
      if ok {
        enabled := true;
      }
    }

    /** SetRoleArrivedSubcription and SetRoleDepartedSubcription */
    method SetEventRole(to: M.Role) returns (changed: bool)
      requires to == M.ArrivedSubscription || to == M.DepartedSubscription
      modifies this`role
      ensures changed == (old(role) == M.Subscription) && role == if changed then to else old(role)
    {
      changed := role == M.Subscription;
      if changed { role := to; }
    }
  }
}
