/** What a handle of the Near-Field Proximity Sample Driver does, step by step (FileContext.cpp): every method
    runs under m_RoleLock, so it is one step, except that a pended request may be cancelled at any time. */
module HandleModel {
  import opened ListRing

  const MAX_MESSAGE_QUEUE_SIZE: nat := 50

  datatype Role = Undefined | Subscription | ArrivedSubscription | DepartedSubscription | Publication | Proximity

  /** The output memory of a request, if it has any. */
  datatype Output = NoMemory | Memory(size: nat)

  /** A request; cancelled when the system decided to cancel it, which OnCancel is still to carry out. */
  datatype Request = Request(id: int, output: Output, cancelled: bool)

  datatype Pended = Nothing | Pending(request: Request)

  datatype Outcome = Delivered(msg: Msg) | Overflow | TooSmall | Aborted | Disabled | Transmitted

  datatype Completion = Completion(id: int, outcome: Outcome)

  datatype Handle = Handle(role: Role, enabled: bool, queueSize: nat, queue: seq<Msg>, ready: nat, pended: Pended,
                           done: seq<Completion>)

  // ---------------------------------------------------------------------------------------
  // Completing the pended request

  datatype Try = Try(h: Handle, ok: bool)

  /** CompleteRequest; late: the request is cancelled just now, which UnmarkCancelable notices. */
  function CompleteRequest(h: Handle, o: Outcome, cancelable: bool, late: bool): Try {
    if h.pended == Nothing then
      Try(h, false)
    else if cancelable && (h.pended.request.cancelled || late) then
      Try(h.(pended := Pending(h.pended.request.(cancelled := true))), false)
    else
      Try(h.(pended := Nothing, done := h.done + [Completion(h.pended.request.id, o)]), true)
  }

  /** CompleteOneGetNextSubscribedMessage */
  function DeliverOne(h: Handle, msg: Msg, late: bool): Try
    requires h.pended != Nothing
  {
    match h.pended.request.output
    case NoMemory => Try(h, false)
    case Memory(size) =>
      if size < 4 then Try(CompleteRequest(h, TooSmall, true, late).h, false)
      else if size < |msg.payload| + 4 then Try(CompleteRequest(h, Overflow, true, late).h, false)
      else CompleteRequest(h.(queueSize := if h.queueSize > 0 then h.queueSize - 1 else 0), Delivered(msg), true, late)
  }

  /** OnCancel */
  function OnCancel(h: Handle): Handle {
    CompleteRequest(h, Aborted, false, false).h
  }

  /** MarkCancelable: on a request that is cancelled already, OnCancel runs at once. */
  function MarkCancelable(h: Handle): Handle {
    if h.pended != Nothing && h.pended.request.cancelled then OnCancel(h) else h
  }

  // ---------------------------------------------------------------------------------------
  // Messages for subscriptions

  /** The oldest message goes to the pended request. */
  function DeliverFirst(h: Handle, late: bool): Handle
    requires h.pended != Nothing && h.queue != []
  {
    var t := DeliverOne(h, h.queue[0], late);
    if t.ok then t.h.(queue := t.h.queue[1..]) else t.h
  }

  /** The payload of arrival and removal events: a DWORD. */
  function Flags(role: Role): seq<Byte> {
    if role == ArrivedSubscription then [1, 0, 0, 0] else [0, 0, 0, 0]
  }

  /** CompleteOneArrivalEvent and CompleteOneRemovalEvent */
  function DeliverEvent(h: Handle, serial: nat, late: bool): Handle {
    if h.ready > 0 && h.pended != Nothing then
      var t := DeliverOne(h, Msg(serial, Flags(h.role)), late);
      if t.ok then t.h.(ready := if t.h.ready > 0 then t.h.ready - 1 else 0) else t.h
    else
      h
  }

  /** GetNextSubscribedMessage: whether the request was accepted. */
  function GetNext(h: Handle, r: Request, inputEmpty: bool, serial: nat, late: bool): Try {
    if h.pended != Nothing || !h.enabled || !inputEmpty then
      Try(h, false)
    else if h.role == Subscription then
      var g := MarkCancelable(h.(pended := Pending(r)));
      Try(if g.pended != Nothing && g.queue != [] then DeliverFirst(g, late) else g, true)
    else if h.role == ArrivedSubscription || h.role == DepartedSubscription then
      Try(DeliverEvent(MarkCancelable(h.(pended := Pending(r))), serial, late), true)
    else
      Try(h, false)
  }

  /** HandleReceivedPublication, for a message that matches; room: memory for it could be had. */
  function Receive(h: Handle, msg: Msg, late: bool, room: bool): Handle {
    if !h.enabled then
      h
    else
      var t := if h.pended != Nothing then DeliverOne(h, msg, late) else Try(h, false);
      if !t.ok && t.h.queueSize < MAX_MESSAGE_QUEUE_SIZE && room then
        t.h.(queue := t.h.queue + [msg], queueSize := t.h.queueSize + 1)
      else
        t.h
  }

  /** HandleArrivalEvent and HandleRemovalEvent */
  function Event(h: Handle, serial: nat, late: bool): Handle {
    if h.enabled then DeliverEvent(h.(ready := h.ready + 1), serial, late) else h
  }

  function PubSub(role: Role): bool {
    role != Undefined && role != Proximity
  }

  function Disable(h: Handle, late: bool): Handle {
    if PubSub(h.role) && h.enabled then
      CompleteRequest(h.(enabled := false), Outcome.Disabled, true, late).h.(queue := [])
    else
      h
  }

  function Enable(h: Handle): Handle {
    if PubSub(h.role) && !h.enabled then h.(enabled := true) else h
  }

  // ---------------------------------------------------------------------------------------
  // Publications

  /** HandleMessageTransmitted */
  function MessageTransmitted(h: Handle, late: bool): Handle {
    var t := CompleteRequest(h, Transmitted, true, late);
    if t.ok then t.h else t.h.(ready := t.h.ready + 1)
  }

  /** GetNextTransmittedMessage: whether the request was accepted. */
  function GetNextTransmitted(h: Handle, r: Request, bothEmpty: bool): Try {
    if h.role != Publication || h.pended != Nothing || !h.enabled || !bothEmpty then
      Try(h, false)
    else
      var g := h.(pended := Pending(r));
      var t := CompleteRequest(g, Transmitted, false, false);
      Try(MarkCancelable(if g.ready > 0 && t.ok then t.h.(ready := t.h.ready - 1) else g), true)
  }

  /** The system cancels the pended request. */
  function Cancel(h: Handle): Handle {
    if h.pended == Nothing then h else h.(pended := Pending(h.pended.request.(cancelled := true)))
  }
}
