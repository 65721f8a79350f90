/** Runs of a handle: whatever publications, requests, cancellations, transmissions, enabling and disabling
    come in whatever order, what the requests were completed with. */
module HandleRuns {
  import opened ListRing
  import opened HandleModel

  /** A handle with what happened to it: the matching messages received while it was enabled, the messages
      transmitted, the events while it was enabled, and the requests it was given. */
  datatype World = World(h: Handle, received: seq<Msg>, transmissions: nat, events: nat, used: set<int>)

  datatype Action =
    | AskNext(request: Request, inputEmpty: bool, late: bool)
    | AskTransmitted(request: Request, bothEmpty: bool)
    | Publish(payload: seq<Byte>, late: bool, room: bool)
    | Happen(late: bool)
    | Transmit(late: bool)
    | SystemCancels
    | RunOnCancel
    | SwitchOn
    | SwitchOff(late: bool)

  /** The role of a handle is set when it is opened. */
  predicate EventRole(r: Role) {
    r == ArrivedSubscription || r == DepartedSubscription
  }

  /** Every request is a new one; OnCancel runs for a request that the system cancels; the queue calls what
      belongs to the role. */
  predicate Enabled(w: World, a: Action) {
    match a
    case AskNext(r, _, _) => r.id !in w.used
    case AskTransmitted(r, _) => r.id !in w.used
    case Publish(_, _, _) => w.h.role == Subscription
    case Happen(_) => EventRole(w.h.role)
    case Transmit(_) => w.h.role == Publication
    case RunOnCancel => w.h.pended != Nothing && w.h.pended.request.cancelled
    case _ => true
  }

  function Apply(w: World, a: Action): World {
    match a
    case AskNext(r, inputEmpty, late) => w.(h := GetNext(w.h, r, inputEmpty, 0, late).h, used := w.used + {r.id})
    case AskTransmitted(r, bothEmpty) => w.(h := GetNextTransmitted(w.h, r, bothEmpty).h, used := w.used + {r.id})
    case Publish(payload, late, room) =>
      var msg := Msg(|w.received|, payload);
      w.(h := Receive(w.h, msg, late, room), received := if w.h.enabled then w.received + [msg] else w.received)
    case Happen(late) => w.(h := Event(w.h, 0, late), events := if w.h.enabled then w.events + 1 else w.events)
    case Transmit(late) => w.(h := MessageTransmitted(w.h, late), transmissions := w.transmissions + 1)
    case SystemCancels => w.(h := Cancel(w.h))
    case RunOnCancel => w.(h := OnCancel(w.h))
    case SwitchOn => w.(h := Enable(w.h))
    case SwitchOff(late) => w.(h := Disable(w.h, late))
  }

  function Start(role: Role): World {
    World(Handle(role, true, 0, [], 0, Nothing, []), [], 0, 0, {})
  }

  // ---------------------------------------------------------------------------------------
  // What was delivered

  function Deliveries(done: seq<Completion>): seq<Msg> {
    if done == [] then []
    else
      var c := done[|done| - 1];
      Deliveries(done[..|done| - 1]) + if c.outcome.Delivered? then [c.outcome.msg] else []
  }

  function Transmissions(done: seq<Completion>): nat {
    if done == [] then 0
    else Transmissions(done[..|done| - 1]) + if done[|done| - 1].outcome == Transmitted then 1 else 0
  }

  lemma DoneMore(done: seq<Completion>, c: Completion)
    ensures Deliveries(done + [c]) ==
      if c.outcome.Delivered? then Deliveries(done) + [c.outcome.msg] else Deliveries(done)
    ensures Transmissions(done + [c]) == Transmissions(done) + (if c.outcome == Transmitted then 1 else 0)
  {
    assert (done + [c])[..|done|] == done;
  }

  // ---------------------------------------------------------------------------------------
  // Every request is completed at most once

  predicate Ids(h: Handle, used: set<int>) {
    && (forall k | 0 <= k < |h.done| :: h.done[k].id in used)
    && (forall j, k | 0 <= j < k < |h.done| :: h.done[j].id != h.done[k].id)
    && (h.pended != Nothing ==>
         h.pended.request.id in used && forall k | 0 <= k < |h.done| :: h.done[k].id != h.pended.request.id)
  }

  /** At most the pended request was completed, and no other is pended now. */
  ghost predicate Once(h: Handle, h': Handle) {
    || (h'.done == h.done && (h'.pended == Nothing
       || (h.pended != Nothing && h'.pended.request.id == h.pended.request.id)))
    || (h.pended != Nothing && h'.pended == Nothing
       && exists o :: h'.done == h.done + [Completion(h.pended.request.id, o)])
  }

  lemma IdsKept(h: Handle, h': Handle, used: set<int>)
    requires Ids(h, used) && Once(h, h')
    ensures Ids(h', used)
  {
  }

  lemma CompleteOnce(h: Handle, o: Outcome, cancelable: bool, late: bool)
    ensures Once(h, CompleteRequest(h, o, cancelable, late).h)
  {
    if h.pended != Nothing { var c := Completion(h.pended.request.id, o); }
  }

  lemma DeliverOnce(h: Handle, msg: Msg, late: bool)
    requires h.pended != Nothing
    ensures Once(h, DeliverOne(h, msg, late).h)
  {
    CompleteOnce(h, TooSmall, true, late);
    CompleteOnce(h, Overflow, true, late);
    CompleteOnce(h.(queueSize := if h.queueSize > 0 then h.queueSize - 1 else 0), Delivered(msg), true, late);
  }

  lemma EventOnce(h: Handle, serial: nat, late: bool)
    ensures Once(h, DeliverEvent(h, serial, late))
  {
    if h.pended != Nothing { DeliverOnce(h, Msg(serial, Flags(h.role)), late); }
  }

  lemma NextIds(h: Handle, r: Request, inputEmpty: bool, late: bool, used: set<int>)
    requires Ids(h, used) && r.id !in used
    ensures Ids(GetNext(h, r, inputEmpty, 0, late).h, used + {r.id})
  {
    hide Once;
    var g := h.(pended := Pending(r));
    CompleteOnce(g, Aborted, false, false);
    var g1 := MarkCancelable(g);
    if r.cancelled { IdsKept(g, g1, used + {r.id}); }
    EventOnce(g1, 0, late);
    IdsKept(g1, DeliverEvent(g1, 0, late), used + {r.id});
    if g1.pended != Nothing && g1.queue != [] {
      var t := DeliverOne(g1, g1.queue[0], late);
      DeliverOnce(g1, g1.queue[0], late);
      IdsKept(g1, t.h, used + {r.id});
    }
  }

  lemma TransmittedIds(h: Handle, r: Request, bothEmpty: bool, used: set<int>)
    requires Ids(h, used) && r.id !in used
    ensures Ids(GetNextTransmitted(h, r, bothEmpty).h, used + {r.id})
  {
    var g := h.(pended := Pending(r));
    CompleteOnce(g, Aborted, false, false);
    CompleteOnce(g, Transmitted, false, false);
    IdsKept(g, OnCancel(g), used + {r.id});
    IdsKept(g, CompleteRequest(g, Transmitted, false, false).h, used + {r.id});
  }

  lemma ReceiveOnce(h: Handle, msg: Msg, late: bool, room: bool)
    ensures Once(h, Receive(h, msg, late, room))
  {
    if h.pended != Nothing { DeliverOnce(h, msg, late); }
  }

  lemma IdsAfter(w: World, a: Action)
    requires Ids(w.h, w.used) && Enabled(w, a)
    ensures Ids(Apply(w, a).h, Apply(w, a).used)
  {
    hide Ids, Receive, DeliverEvent, GetNext, GetNextTransmitted;
    var h := w.h;
    match a
    case AskNext(r, inputEmpty, late) => NextIds(h, r, inputEmpty, late, w.used);
    case AskTransmitted(r, bothEmpty) => TransmittedIds(h, r, bothEmpty, w.used);
    case Publish(payload, late, room) =>
      var msg := Msg(|w.received|, payload);
      ReceiveOnce(h, msg, late, room);
      IdsKept(h, Receive(h, msg, late, room), w.used);
    case Happen(late) =>
      EventOnce(h.(ready := h.ready + 1), 0, late);
      IdsKept(h, Event(h, 0, late), w.used);
    case Transmit(late) =>
      CompleteOnce(h, Transmitted, true, late);
      IdsKept(h, MessageTransmitted(h, late), w.used);
    case SystemCancels => IdsKept(h, Cancel(h), w.used);
    case RunOnCancel =>
      CompleteOnce(h, Aborted, false, false);
      IdsKept(h, OnCancel(h), w.used);
    case SwitchOn => IdsKept(h, Enable(h), w.used);
    case SwitchOff(late) =>
      CompleteOnce(h.(enabled := false), Outcome.Disabled, true, late);
      IdsKept(h, Disable(h, late), w.used);
  }

  // ---------------------------------------------------------------------------------------
  // Messages stay in order

  /** The messages are among the received ones, each at most once and in that order. */
  ghost predicate InOrder(s: seq<Msg>, received: seq<Msg>) {
    && (forall i | 0 <= i < |s| :: s[i].serial < |received| && received[s[i].serial] == s[i])
    && (forall i, j | 0 <= i < j < |s| :: s[i].serial < s[j].serial)
  }

  /** Delivered messages, and behind them the queue. */
  ghost predicate Sorted(h: Handle, received: seq<Msg>) {
    InOrder(Deliveries(h.done) + h.queue, received) && forall k | 0 <= k < |received| :: received[k].serial == k
  }

  /** A request that can be completed does not wait while there is something for it. */
  predicate Prompt(h: Handle) {
    && (h.role != Subscription || !h.enabled ==> h.queue == [])
    && (h.pended != Nothing && !h.pended.request.cancelled ==>
          && h.enabled
          && (h.pended.request.output != NoMemory ==> h.queue == [] && (EventRole(h.role) ==> h.ready == 0))
          && (h.role == Publication ==> h.ready == 0))
  }

  lemma PromptNext(h: Handle, r: Request, inputEmpty: bool, late: bool)
    requires Prompt(h)
    ensures var h' := GetNext(h, r, inputEmpty, 0, late).h; Prompt(h') && h'.role == h.role
  {
  }

  lemma PromptReceive(h: Handle, msg: Msg, late: bool, room: bool)
    requires Prompt(h) && h.role == Subscription
    ensures var h' := Receive(h, msg, late, room); Prompt(h') && h'.role == h.role
  {
  }

  lemma PromptEvent(h: Handle, late: bool)
    requires Prompt(h) && EventRole(h.role)
    ensures var h' := Event(h, 0, late); Prompt(h') && h'.role == h.role
  {
  }

  lemma PromptAfter(w: World, a: Action)
    requires Prompt(w.h) && Enabled(w, a)
    ensures Prompt(Apply(w, a).h) && Apply(w, a).h.role == w.h.role
  {
    hide GetNext, Receive, Event;
    match a
    case AskNext(r, inputEmpty, late) => PromptNext(w.h, r, inputEmpty, late);
    case Publish(payload, late, room) => PromptReceive(w.h, Msg(|w.received|, payload), late, room);
    case Happen(late) => PromptEvent(w.h, late);
    case _ =>
  }

  lemma InOrderLess(d: seq<Msg>, q: seq<Msg>, received: seq<Msg>)
    requires InOrder(d + q, received)
    ensures InOrder(d, received) && InOrder(d + [], received)
  {
    forall i | 0 <= i < |d| ensures d[i] == (d + q)[i] {
    }
    assert d + [] == d;
  }

  lemma InOrderMore(s: seq<Msg>, received: seq<Msg>, msg: Msg)
    requires InOrder(s, received) && msg.serial == |received|
    ensures InOrder(s + [msg], received + [msg]) && InOrder(s, received + [msg])
  {
  }

  /** What a completion changes of the sequence. */
  lemma CompletedSorted(h: Handle, o: Outcome, cancelable: bool, late: bool)
    ensures var t := CompleteRequest(h, o, cancelable, late);
      Deliveries(t.h.done) == (if t.ok && o.Delivered? then Deliveries(h.done) + [o.msg] else Deliveries(h.done))
        && t.h.queue == h.queue
  {
    if h.pended != Nothing { DoneMore(h.done, Completion(h.pended.request.id, o)); }
  }

  lemma DeliverOneSorted(h: Handle, msg: Msg, late: bool)
    requires h.pended != Nothing
    ensures var t := DeliverOne(h, msg, late);
      Deliveries(t.h.done) == (if t.ok then Deliveries(h.done) + [msg] else Deliveries(h.done)) && t.h.queue == h.queue
  {
    hide Deliveries;
    var h1 := h.(queueSize := if h.queueSize > 0 then h.queueSize - 1 else 0);
    CompletedSorted(h, TooSmall, true, late);
    CompletedSorted(h, Overflow, true, late);
    CompletedSorted(h1, Delivered(msg), true, late);
  }

  lemma FirstDelivered(h: Handle, received: seq<Msg>, late: bool)
    requires Sorted(h, received) && h.pended != Nothing && h.queue != []
    ensures Sorted(DeliverFirst(h, late), received)
  {
    hide InOrder, DeliverOne, Deliveries;
    DeliverOneSorted(h, h.queue[0], late);
    FirstMoves(Deliveries(h.done), h.queue);
  }

  lemma FirstMoves(d: seq<Msg>, q: seq<Msg>)
    requires q != []
    ensures d + q == d + [q[0]] + q[1..]
  {
  }

  lemma NextSorted(w: World, r: Request, inputEmpty: bool, late: bool)
    requires Sorted(w.h, w.received) && w.h.role == Subscription
    ensures Sorted(GetNext(w.h, r, inputEmpty, 0, late).h, w.received)
  {
    hide InOrder, DeliverFirst, DeliverEvent, Deliveries;
    var g := w.h.(pended := Pending(r));
    CompletedSorted(g, Aborted, false, false);
    var g1 := MarkCancelable(g);
    if g1.pended != Nothing && g1.queue != [] { FirstDelivered(g1, w.received, late); }
  }

  lemma ReceiveSorted(w: World, payload: seq<Byte>, late: bool, room: bool)
    requires Sorted(w.h, w.received) && Prompt(w.h) && w.h.enabled
    ensures var msg := Msg(|w.received|, payload); Sorted(Receive(w.h, msg, late, room), w.received + [msg])
  {
    var h, msg := w.h, Msg(|w.received|, payload);
    var s := Deliveries(h.done) + h.queue;
    InOrderMore(s, w.received, msg);
    if h.pended != Nothing { DeliverOneSorted(h, msg, late); }
    var t := if h.pended != Nothing then DeliverOne(h, msg, late) else Try(h, false);
    if t.ok {
      assert h.queue == [];
      assert Deliveries(t.h.done) + [] == s + [msg];
    } else {
      assert Deliveries(h.done) + (h.queue + [msg]) == s + [msg];
    }
  }

  lemma SortedAfter(w: World, a: Action)
    requires Sorted(w.h, w.received) && Prompt(w.h) && Enabled(w, a) && w.h.role == Subscription
    ensures Sorted(Apply(w, a).h, Apply(w, a).received)
  {
    match a
    case AskNext(r, inputEmpty, late) => NextSorted(w, r, inputEmpty, late);
    case Publish(payload, late, room) => if w.h.enabled { ReceiveSorted(w, payload, late, room); }
    case RunOnCancel => CompletedSorted(w.h, Aborted, false, false);
    case SwitchOff(late) =>
      CompletedSorted(w.h.(enabled := false), Outcome.Disabled, true, late);
      InOrderLess(Deliveries(w.h.done), w.h.queue, w.received);
    case _ =>
  }

  // ---------------------------------------------------------------------------------------
  // Transmissions and events are counted

  predicate Counted(w: World) {
    && (w.h.role == Publication ==>
         w.transmissions == Transmissions(w.h.done) + w.h.ready && Deliveries(w.h.done) == [])
    && (EventRole(w.h.role) ==> w.events == |Deliveries(w.h.done)| + w.h.ready)
  }

  lemma CompletedCounts(h: Handle, o: Outcome, cancelable: bool, late: bool)
    ensures var t := CompleteRequest(h, o, cancelable, late);
      Transmissions(t.h.done) == Transmissions(h.done) + (if t.ok && o == Transmitted then 1 else 0)
        && t.h.ready == h.ready
  {
    if h.pended != Nothing { DoneMore(h.done, Completion(h.pended.request.id, o)); }
  }

  lemma EventCounts(h: Handle, serial: nat, late: bool)
    ensures var g := DeliverEvent(h, serial, late);
      |Deliveries(g.done)| + g.ready == |Deliveries(h.done)| + h.ready
  {
    if h.ready > 0 && h.pended != Nothing { DeliverOneSorted(h, Msg(serial, Flags(h.role)), late); }
  }

  lemma NextCounted(w: World, r: Request, inputEmpty: bool, late: bool)
    requires Counted(w)
    ensures Counted(w.(h := GetNext(w.h, r, inputEmpty, 0, late).h))
  {
    hide DeliverEvent, DeliverFirst, Deliveries, Transmissions;
    var g := w.h.(pended := Pending(r));
    CompletedSorted(g, Aborted, false, false);
    CompletedCounts(g, Aborted, false, false);
    EventCounts(MarkCancelable(g), 0, late);
    SubscriptionRole(w.h, r, inputEmpty, late);
  }

  lemma SubscriptionRole(h: Handle, r: Request, inputEmpty: bool, late: bool)
    ensures GetNext(h, r, inputEmpty, 0, late).h.role == h.role
  {
  }

  lemma TransmittedCounted(w: World, r: Request, bothEmpty: bool)
    requires Counted(w)
    ensures Counted(w.(h := GetNextTransmitted(w.h, r, bothEmpty).h))
  {
    hide Deliveries, Transmissions;
    var g := w.h.(pended := Pending(r));
    CompletedSorted(g, Aborted, false, false);
    CompletedSorted(g, Transmitted, false, false);
    CompletedCounts(g, Aborted, false, false);
    CompletedCounts(g, Transmitted, false, false);
  }

  lemma CountedAfter(w: World, a: Action)
    requires Counted(w) && Prompt(w.h) && Enabled(w, a)
    ensures Counted(Apply(w, a))
  {
    hide DeliverEvent, DeliverFirst, Deliveries, Transmissions, GetNext, GetNextTransmitted, Receive;
    match a
    case AskNext(r, inputEmpty, late) => NextCounted(w, r, inputEmpty, late);
    case AskTransmitted(r, bothEmpty) => TransmittedCounted(w, r, bothEmpty);
    case Publish(payload, late, room) => ReceiveRole(w.h, Msg(|w.received|, payload), late, room);
    case Happen(late) =>
      EventCounts(w.h.(ready := w.h.ready + 1), 0, late);
      EventRoleKept(w.h.(ready := w.h.ready + 1), 0, late);
    case Transmit(late) =>
      CompletedSorted(w.h, Transmitted, true, late);
      CompletedCounts(w.h, Transmitted, true, late);
    case RunOnCancel =>
      CompletedSorted(w.h, Aborted, false, false);
      CompletedCounts(w.h, Aborted, false, false);
    case SwitchOff(late) =>
      CompletedSorted(w.h.(enabled := false), Outcome.Disabled, true, late);
      CompletedCounts(w.h.(enabled := false), Outcome.Disabled, true, late);
    case _ =>
  }

  lemma ReceiveRole(h: Handle, msg: Msg, late: bool, room: bool)
    ensures Receive(h, msg, late, room).role == h.role
  {
  }

  lemma EventRoleKept(h: Handle, serial: nat, late: bool)
    ensures DeliverEvent(h, serial, late).role == h.role
  {
  }

  // ---------------------------------------------------------------------------------------
  // Runs

  ghost predicate Inv(w: World) {
    Ids(w.h, w.used) && Prompt(w.h) && Counted(w) && (w.h.role == Subscription ==> Sorted(w.h, w.received))
  }

  predicate Possible(w: World, run: seq<Action>)
    decreases |run|
  {
    run != [] ==> Enabled(w, run[0]) && Possible(Apply(w, run[0]), run[1..])
  }

  function After(w: World, run: seq<Action>): World
    decreases |run|
  {
    if run == [] then w else After(Apply(w, run[0]), run[1..])
  }

  lemma {:induction false} RunHolds(w: World, run: seq<Action>)
    requires Inv(w) && Possible(w, run)
    ensures Inv(After(w, run)) && After(w, run).h.role == w.h.role
    decreases |run|
  {
    if run != [] {
      IdsAfter(w, run[0]);
      PromptAfter(w, run[0]);
      CountedAfter(w, run[0]);
      if w.h.role == Subscription { SortedAfter(w, run[0]); }
      RunHolds(Apply(w, run[0]), run[1..]);
    }
  }

  lemma StartHolds(role: Role)
    ensures Inv(Start(role))
  {
  }

  lemma StartRole(role: Role)
    ensures Start(role).h.role == role
  {
  }

  /** What every handle did after any run. */
  lemma EveryRun(role: Role, run: seq<Action>)
    requires Possible(Start(role), run)
    ensures var w := After(Start(role), run);
      && (forall j, k | 0 <= j < k < |w.h.done| :: w.h.done[j].id != w.h.done[k].id)
      && (role == Subscription ==> InOrder(Deliveries(w.h.done), w.received))
      && (role == Publication ==> w.transmissions == Transmissions(w.h.done) + w.h.ready)
      && (EventRole(role) ==> w.events == |Deliveries(w.h.done)| + w.h.ready)
  {
    hide Possible, After, Enabled, Start, Prompt, Deliveries, Transmissions;
    StartHolds(role);
    StartRole(role);
    RunHolds(Start(role), run);
    var w := After(Start(role), run);
    if role == Subscription { InOrderLess(Deliveries(w.h.done), w.h.queue, w.received); }
  }

  // ---------------------------------------------------------------------------------------
  // Too small buffers

  /** A request whose buffer is too small is completed as such, and the message stays first in the queue. */
  lemma SmallBuffer(h: Handle, r: Request, size: nat, late: bool)
    requires h.role == Subscription && h.enabled && h.pended == Nothing && h.queue != [] && !r.cancelled
    requires r.output == Memory(size) && size < |h.queue[0].payload| + 4
    ensures var g := GetNext(h, r, true, 0, late).h;
      && g.queue == h.queue
      && (!late ==>
           g.done == h.done + [Completion(r.id, if size < 4 then TooSmall else Overflow)] && g.pended == Nothing)
  {
  }

  // ---------------------------------------------------------------------------------------
  // m_dwQueueSize

  predicate Sized(h: Handle) {
    h.queueSize == |h.queue|
  }

  predicate Fits(p: Pended, msg: Msg) {
    p != Nothing && p.request.output.Memory? && p.request.output.size >= |msg.payload| + 4
  }

  /** The steps that leave m_dwQueueSize wrong: disabling with messages in the queue, and a delivery that is
      taken back because the request was cancelled meanwhile. */
  predicate Upsets(h: Handle, a: Action) {
    match a
    case SwitchOff(_) => PubSub(h.role) && h.enabled && h.queue != []
    case AskNext(r, inputEmpty, late) =>
      && h.role == Subscription && h.pended == Nothing && h.enabled && inputEmpty && h.queue != [] && !r.cancelled
      && Fits(Pending(r), h.queue[0]) && late
    case Publish(payload, late, room) =>
      h.enabled && h.queueSize > 0 && Fits(h.pended, Msg(0, payload)) && (h.pended.request.cancelled || late)
    case _ => false
  }

  /** m_dwQueueSize stays the length of the queue if, and only if, the step is none of those. */
  lemma SizedAfter(w: World, a: Action)
    requires Sized(w.h) && Prompt(w.h) && Enabled(w, a)
    ensures Sized(Apply(w, a).h) <==> !Upsets(w.h, a)
  {
  }

  /** After a message was received and the handle disabled and enabled again, one place in the queue is lost. */
  lemma PlaceLost()
    ensures var w := After(Start(Subscription), [Publish([], false, true), SwitchOff(false), SwitchOn]);
      Possible(Start(Subscription), [Publish([], false, true), SwitchOff(false), SwitchOn]) && w.h.enabled
        && w.h.queue == [] && w.h.queueSize == 1
  {
    var w0, run := Start(Subscription), [Publish([], false, true), SwitchOff(false), SwitchOn];
    var w1 := Apply(w0, run[0]);
    var w2 := Apply(w1, run[1]);
    var w3 := Apply(w2, run[2]);
    assert run[1..][1..] == run[2..] && run[2..][1..] == [];
    assert After(w3, []) == w3 && After(w2, run[2..]) == w3 && After(w1, run[1..]) == w3;
    assert Possible(w3, []) && Possible(w2, run[2..]) && Possible(w1, run[1..]);
  }
}
