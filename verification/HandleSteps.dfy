/** What the steps of a handle do, case by case and in terms of its fields, and which of them lose a message
    (Near-Field Proximity Sample Driver, FileContext.cpp). */
module HandleSteps {
  import opened ListRing
  import opened HandleModel
  import opened HandleRuns

  /** The pended request is being cancelled, so that it cannot be completed otherwise. */
  predicate Withdrawn(p: Pended, late: bool) {
    p.Pending? && (p.request.cancelled || late)
  }

  function Withdraw(r: Request): Pended {
    Pending(r.(cancelled := true))
  }

  /** What a request with a buffer is completed with, given a message. */
  function OutcomeOf(size: nat, msg: Msg): Outcome {
    if size < 4 then TooSmall else if size < |msg.payload| + 4 then Overflow else Delivered(msg)
  }

  /** From h to g the request r is completed, and pended no more. */
  predicate Completes(h: Handle, g: Handle, r: Request, o: Outcome) {
    g.done == h.done + [Completion(r.id, o)] && g.pended == Nothing
  }

  predicate SameSetting(h: Handle, g: Handle) {
    g.role == h.role && g.enabled == h.enabled
  }

  // ---------------------------------------------------------------------------------------
  // Subscriptions

  /** How much of m_dwQueueSize is left after a received message was offered to the pended request. */
  function SizeLeft(h: Handle, msg: Msg): nat {
    if Fits(h.pended, msg) && h.queueSize > 0 then h.queueSize - 1 else h.queueSize
  }

  predicate Served(h: Handle, msg: Msg, late: bool) {
    Fits(h.pended, msg) && !Withdrawn(h.pended, late)
  }

  /** HandleReceivedPublication: the message goes to the pended request, or else to the end of the queue if there are
      fewer than 50 and memory for it; a request with too small a buffer is completed with an error meanwhile. */
  lemma ReceiveDoes(h: Handle, msg: Msg, late: bool, room: bool)
    requires h.enabled
    ensures var g := Receive(h, msg, late, room);
      && SameSetting(h, g) && g.ready == h.ready
      && (Served(h, msg, late) ==>
            Completes(h, g, h.pended.request, Delivered(msg)) && g.queue == h.queue && g.queueSize == SizeLeft(h, msg))
      && (!Served(h, msg, late) ==>
            if room && SizeLeft(h, msg) < 50 then g.queue == h.queue + [msg] && g.queueSize == SizeLeft(h, msg) + 1
            else g.queue == h.queue && g.queueSize == SizeLeft(h, msg))
    ensures var g := Receive(h, msg, late, room);
      if h.pended == Nothing || h.pended.request.output == NoMemory then
        g.done == h.done && g.pended == h.pended
      else if Withdrawn(h.pended, late) then
        g.done == h.done && g.pended == Withdraw(h.pended.request)
      else
        Completes(h, g, h.pended.request, OutcomeOf(h.pended.request.output.size, msg))
  {
  }

  /** What there is for a new request: the first message of the queue, or an event with its DWORD. */
  predicate Offers(h: Handle, serial: nat, msg: Msg) {
    if h.role == Subscription then h.queue != [] && msg == h.queue[0]
    else h.ready > 0 && msg == Msg(serial, [if h.role == ArrivedSubscription then 1 else 0, 0, 0, 0])
  }

  /** GetNextSubscribedMessage: a request is accepted if none is pended, and is pended itself or completed. */
  lemma NextDoes(h: Handle, r: Request, inputEmpty: bool, serial: nat, late: bool)
    ensures var t := GetNext(h, r, inputEmpty, serial, late);
      && (t.ok <==> h.pended == Nothing && h.enabled && inputEmpty && (h.role == Subscription || EventRole(h.role)))
      && (!t.ok ==> t.h == h)
      && SameSetting(h, t.h)
    ensures var t := GetNext(h, r, inputEmpty, serial, late); t.ok ==>
      if r.cancelled then
        Completes(h, t.h, r, Aborted) && t.h.queue == h.queue && t.h.ready == h.ready
      else if r.output == NoMemory || (if h.role == Subscription then h.queue == [] else h.ready == 0) then
        t.h == h.(pended := Pending(r))
      else exists msg :: Offers(h, serial, msg) && NextGets(h, r, msg, late, t.h)
  {
    var t := GetNext(h, r, inputEmpty, serial, late);
    if t.ok && !r.cancelled && r.output != NoMemory && (if h.role == Subscription then h.queue != [] else h.ready > 0) {
      var msg := if h.role == Subscription then h.queue[0] else Msg(serial, Flags(h.role));
      assert Offers(h, serial, msg) && NextGets(h, r, msg, late, t.h);
    }
  }

  /** The new request r gets msg, unless it is cancelled meanwhile or its buffer is too small. */
  predicate NextGets(h: Handle, r: Request, msg: Msg, late: bool, g: Handle)
    requires r.output != NoMemory
  {
    var o := OutcomeOf(r.output.size, msg);
    && (if late then g.done == h.done && g.pended == Withdraw(r) else Completes(h, g, r, o))
    && (if late || !o.Delivered? then g.queue == h.queue && g.ready == h.ready
        else if h.role == Subscription then [msg] + g.queue == h.queue && g.ready == h.ready
        else g.queue == h.queue && g.ready == h.ready - 1)
  }

  /** HandleArrivalEvent and HandleRemovalEvent: the event goes to the pended request, or is counted. */
  lemma EventDoes(h: Handle, serial: nat, late: bool)
    requires h.enabled
    ensures
      var g := Event(h, serial, late);
      var msg := Msg(serial, [if h.role == ArrivedSubscription then 1 else 0, 0, 0, 0]);
      && SameSetting(h, g) && g.queue == h.queue
      && g.ready == (if Served(h, msg, late) then h.ready else h.ready + 1)
      && if h.pended == Nothing || h.pended.request.output == NoMemory then
           g.done == h.done && g.pended == h.pended
         else if Withdrawn(h.pended, late) then
           g.done == h.done && g.pended == Withdraw(h.pended.request)
         else
           Completes(h, g, h.pended.request, OutcomeOf(h.pended.request.output.size, msg))
  {
  }

  // ---------------------------------------------------------------------------------------
  // Publications

  /** GetNextTransmittedMessage: a request is accepted if none is pended, and is completed at once if a transmission
      was counted. */
  lemma TransmittedDoes(h: Handle, r: Request, bothEmpty: bool)
    ensures var t := GetNextTransmitted(h, r, bothEmpty);
      && (t.ok <==> h.role == Publication && h.pended == Nothing && h.enabled && bothEmpty)
      && (!t.ok ==> t.h == h)
      && (t.ok ==>
            if h.ready > 0 then Completes(h, t.h, r, Transmitted) && t.h.ready == h.ready - 1
            else if r.cancelled then Completes(h, t.h, r, Aborted) && t.h.ready == 0
            else t.h == h.(pended := Pending(r)))
      && SameSetting(h, t.h) && t.h.queue == h.queue
  {
  }

  /** HandleMessageTransmitted: the transmission completes the pended request, or is counted. */
  lemma TransmissionDoes(h: Handle, late: bool)
    ensures var g := MessageTransmitted(h, late);
      && SameSetting(h, g) && g.queue == h.queue
      && if h.pended == Nothing then g == h.(ready := h.ready + 1)
         else if Withdrawn(h.pended, late) then g == h.(ready := h.ready + 1, pended := Withdraw(h.pended.request))
         else Completes(h, g, h.pended.request, Transmitted) && g.ready == h.ready
  {
  }

  // ---------------------------------------------------------------------------------------
  // Switching off and cancelling

  /** Disable: of a handle that publishes or subscribes and is enabled, the pended request is completed, unless it is
      cancelled meanwhile, and the queue is emptied, while m_dwQueueSize stays. */
  lemma DisableDoes(h: Handle, late: bool)
    ensures var g := Disable(h, late);
      if h.role == Undefined || h.role == Proximity || !h.enabled then g == h
      else
        && !g.enabled && g.queue == [] && g.queueSize == h.queueSize && g.role == h.role && g.ready == h.ready
        && if h.pended == Nothing then g.done == h.done && g.pended == Nothing
           else if Withdrawn(h.pended, late) then g.done == h.done && g.pended == Withdraw(h.pended.request)
           else Completes(h, g, h.pended.request, Outcome.Disabled)
  {
  }

  /** OnCancel completes the pended request as aborted. */
  lemma CancelDoes(h: Handle)
    ensures var g := OnCancel(h);
      && SameSetting(h, g) && g.queue == h.queue && g.ready == h.ready
      && if h.pended == Nothing then g == h else Completes(h, g, h.pended.request, Aborted)
  {
  }

  // ---------------------------------------------------------------------------------------
  // Lost messages

  /** All messages received while the handle was enabled were delivered or are in the queue, in order. */
  ghost predicate NoneLost(w: World) {
    Deliveries(w.h.done) + w.h.queue == w.received
  }

  /** The steps that lose a message: disabling with messages in the queue, and receiving one that cannot be delivered
      when the queue counts as full or there is no memory. */
  predicate Loses(h: Handle, a: Action) {
    match a
    case Publish(payload, late, room) =>
      var msg := Msg(0, payload);
      h.enabled && !Served(h, msg, late) && !(room && SizeLeft(h, msg) < 50)
    case SwitchOff(_) => h.enabled && h.queue != []
    case _ => false
  }

  lemma PublishLost(w: World, payload: seq<Byte>, late: bool, room: bool)
    requires NoneLost(w) && Prompt(w.h) && w.h.enabled
    ensures NoneLost(Apply(w, Publish(payload, late, room))) <==> !Loses(w.h, Publish(payload, late, room))
  {
    hide Receive, Deliveries, Prompt;
    var h, msg := w.h, Msg(|w.received|, payload);
    var g := Receive(h, msg, late, room);
    ReceiveDoes(h, msg, late, room);
    FitsAny(h.pended, Msg(0, payload), msg);
    if Served(h, msg, late) {
      QueueEmpty(h) by { PendedPrompt(h, msg, late); }
      DoneMore(h.done, Completion(h.pended.request.id, Delivered(msg)));
      assert Deliveries(g.done) + g.queue == w.received + [msg];
    } else {
      if g.done != h.done { DoneMore(h.done, g.done[|h.done|]); }
      assert Deliveries(h.done) + (h.queue + [msg]) == w.received + [msg];
    }
  }

  lemma QueueEmpty(h: Handle)
    requires h.queue == []
    ensures forall d: seq<Msg> :: d + h.queue == d
  {
  }

  lemma PendedPrompt(h: Handle, msg: Msg, late: bool)
    requires Prompt(h) && Served(h, msg, late)
    ensures h.queue == []
  {
  }

  lemma FitsAny(p: Pended, msg: Msg, msg': Msg)
    requires msg.payload == msg'.payload
    ensures Fits(p, msg) == Fits(p, msg')
  {
  }

  lemma NextLost(w: World, r: Request, inputEmpty: bool, late: bool)
    requires NoneLost(w) && w.h.role == Subscription
    ensures NoneLost(Apply(w, AskNext(r, inputEmpty, late)))
  {
    hide GetNext, Deliveries;
    var h := w.h;
    var t := GetNext(h, r, inputEmpty, 0, late);
    NextDoes(h, r, inputEmpty, 0, late);
    if t.ok && t.h.done != h.done {
      var c := t.h.done[|h.done|];
      assert t.h.done == h.done + [c];
      DoneMore(h.done, c);
      if c.outcome.Delivered? {
        assert Deliveries(h.done) + [c.outcome.msg] + t.h.queue == Deliveries(h.done) + ([c.outcome.msg] + t.h.queue);
      }
    }
  }

  /** A step keeps all messages if, and only if, it is none of those. */
  lemma LostAfter(w: World, a: Action)
    requires NoneLost(w) && Prompt(w.h) && Enabled(w, a) && w.h.role == Subscription
    ensures NoneLost(Apply(w, a)) <==> !Loses(w.h, a)
  {
    hide Deliveries, Receive, GetNext, Disable, OnCancel;
    match a
    case AskNext(r, inputEmpty, late) => NextLost(w, r, inputEmpty, late);
    case Publish(payload, late, room) => if w.h.enabled { PublishLost(w, payload, late, room); } else { KeptOff(w, a); }
    case RunOnCancel =>
      CancelDoes(w.h);
      DoneMore(w.h.done, Completion(w.h.pended.request.id, Aborted));
    case SwitchOff(late) => OffLost(w, late);
    case _ =>
  }

  lemma KeptOff(w: World, a: Action)
    requires a.Publish? && !w.h.enabled
    ensures Apply(w, a) == w
  {
  }

  lemma OffLost(w: World, late: bool)
    requires NoneLost(w) && w.h.role == Subscription
    ensures NoneLost(Apply(w, SwitchOff(late))) <==> !Loses(w.h, SwitchOff(late))
  {
    hide Deliveries, Disable;
    var g := Disable(w.h, late);
    DisableDoes(w.h, late);
    if g.done != w.h.done { DoneMore(w.h.done, g.done[|w.h.done|]); }
    if w.h.enabled {
      assert Deliveries(g.done) == Deliveries(w.h.done);
      assert |Deliveries(w.h.done) + w.h.queue| == |Deliveries(w.h.done)| + |w.h.queue|;
      assert Deliveries(g.done) + [] == Deliveries(g.done);
    }
  }

  predicate LosesNowhere(w: World, run: seq<Action>)
    decreases |run|
  {
    run != [] ==> !Loses(w.h, run[0]) && LosesNowhere(Apply(w, run[0]), run[1..])
  }

  lemma {:induction false} KeptAll(w: World, run: seq<Action>)
    requires NoneLost(w) && Prompt(w.h) && w.h.role == Subscription && Possible(w, run) && LosesNowhere(w, run)
    ensures NoneLost(After(w, run))
    decreases |run|
  {
    hide NoneLost, Prompt, Loses, Enabled, Apply;
    if run != [] {
      LostAfter(w, run[0]);
      PromptAfter(w, run[0]);
      KeptAll(Apply(w, run[0]), run[1..]);
    }
  }

  /** In every run of a subscription without such steps, the messages delivered and then the queue are exactly the
      messages received, and a request that could be completed is not left waiting. */
  lemma NothingLost(run: seq<Action>)
    requires Possible(Start(Subscription), run) && LosesNowhere(Start(Subscription), run)
    ensures var w := After(Start(Subscription), run);
      && Deliveries(w.h.done) + w.h.queue == w.received
      && (w.h.pended.Pending? && !w.h.pended.request.cancelled && w.h.pended.request.output.Memory? ==> w.h.queue == [])
  {
    hide Possible, LosesNowhere, After, Deliveries;
    StartHolds(Subscription);
    assert NoneLost(Start(Subscription)) by { NothingYet(); }
    RunHolds(Start(Subscription), run);
    KeptAll(Start(Subscription), run);
  }

  lemma NothingYet()
    ensures NoneLost(Start(Subscription))
  {
  }
}
