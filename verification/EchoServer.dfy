/** The echo server with any number of threads and connections (eports.c, thread_loop, echo_func and
    listen_func).  Between two calls of the system every thread may be overtaken by any other. */
module EchoServer {
  import opened EchoConn

  // The address of a conn_t; the one for the listening socket stays the same.
  type Id = int

  /** Where a thread is: waiting in port_get, in echo_func before read, write or port_associate, or in
      listen_func before accept, the two calls of port_associate and the printing. */
  datatype Place =
    | Idle
    | AtRead(c: Id)
    | AtWrite(c: Id)
    | AtAssociate(c: Id)
    | AtAccept(c: Id)
    | AtNew(c: Id, young: Id)
    | AtAgain(c: Id, young: Id)
    | AtPrint(young: Id)
    | Exited

  datatype Reg = Reg(id: Id, interest: Interest)

  /** A connection that was closed, and whether that was at the end of its input. */
  datatype Ended = Ended(conn: Conn, atEnd: bool)

  datatype Server = Server(listener: Id, conns: map<Id, Conn>, regs: multiset<Reg>, threads: seq<Place>,
                           log: seq<Ended>)

  datatype Action =
    | Get(reg: Reg)
    | Alert
    | DoRead(data: seq<Byte>)
    | DoWrite(result: WriteResult)
    | Associate
    | Accept(young: Id)
    | Print

  // ---------------------------------------------------------------------------------------
  // Steps

  predicate Enabled(s: Server, i: nat, a: Action) {
    && i < |s.threads|
    && match a
       case Get(r) => s.threads[i] == Idle && r in s.regs && (r.id == s.listener || r.id in s.conns)
       case Alert => s.threads[i] == Idle
       case DoRead(data) => s.threads[i].AtRead? && s.threads[i].c in s.conns && |data| <= BLEN
       case DoWrite(w) => s.threads[i].AtWrite? && s.threads[i].c in s.conns
         && (w.Wrote? ==> w.n <= |s.conns[s.threads[i].c].pending|)
       case Associate => (s.threads[i].AtAssociate? && s.threads[i].c in s.conns) || s.threads[i].AtNew?
         || s.threads[i].AtAgain?
       case Accept(f) => s.threads[i].AtAccept? && f !in s.conns && f != s.listener
       case Print => s.threads[i].AtPrint?
  }

  function Waiting(c: Conn): Interest {
    if c.pending == [] then PollIn else PollOut
  }

  function Goes(s: Server, i: nat, p: Place): Server
    requires i < |s.threads|
  {
    s.(threads := s.threads[i := p])
  }

  function Close(s: Server, i: nat, c: Id, atEnd: bool): Server
    requires i < |s.threads| && c in s.conns
  {
    Goes(s, i, Idle).(conns := s.conns - {c}, log := s.log + [Ended(s.conns[c], atEnd)])
  }

  function Apply(s: Server, i: nat, a: Action): Server
    requires Enabled(s, i, a)
  {
    var p := s.threads[i];
    match a
    case Get(r) =>
      var q := if r.id == s.listener then AtAccept(r.id) else if s.conns[r.id].pending == [] then AtRead(r.id)
        else AtWrite(r.id);
      Goes(s, i, q).(regs := s.regs - multiset{r})
    case Alert => Goes(s, i, Exited)
    case DoRead(data) =>
      if data == [] then Close(s, i, p.c, true)
      else Goes(s, i, AtWrite(p.c)).(conns := s.conns[p.c := AfterRead(s.conns[p.c], data)])
    case DoWrite(w) =>
      if w == Failed then Close(s, i, p.c, false)
      else Goes(s, i, AtAssociate(p.c)).(conns := s.conns[p.c := AfterWrite(s.conns[p.c], Taken(w))])
    case Associate =>
      if p.AtAssociate? then Goes(s, i, Idle).(regs := s.regs + multiset{Reg(p.c, Waiting(s.conns[p.c]))})
      else if p.AtNew? then Goes(s, i, AtAgain(p.c, p.young)).(regs := s.regs + multiset{Reg(p.young, PollIn)})
      else Goes(s, i, AtPrint(p.young)).(regs := s.regs + multiset{Reg(p.c, PollIn)})
    case Accept(f) => Goes(s, i, AtNew(p.c, f)).(conns := s.conns[f := NewConn()])
    case Print => Goes(s, i, Idle)
  }

  // ---------------------------------------------------------------------------------------
  // The invariant

  /** The thread works on the connection; listen_func gives a new one away before it is done. */
  predicate Holds(p: Place, c: Id) {
    match p
    case AtRead(d) => d == c
    case AtWrite(d) => d == c
    case AtAssociate(d) => d == c
    case AtAccept(d) => d == c
    case AtNew(d, f) => d == c || f == c
    case AtAgain(d, _) => d == c
    case _ => false
  }

  function Holders(threads: seq<Place>, c: Id): nat {
    if threads == [] then 0 else (if Holds(threads[0], c) then 1 else 0) + Holders(threads[1..], c)
  }

  function Regs(regs: multiset<Reg>, c: Id): nat {
    regs[Reg(c, PollIn)] + regs[Reg(c, PollOut)]
  }

  predicate Live(s: Server, c: Id) {
    c == s.listener || c in s.conns
  }

  /** A live connection is held by one thread, or registered once, and not both. */
  ghost predicate HeldOnce(s: Server) {
    forall c: Id :: Holders(s.threads, c) + Regs(s.regs, c) == if Live(s, c) then 1 else 0
  }

  /** Registered connections wait for output just if they have some. */
  predicate WaitsRight(s: Server) {
    && (forall c | c in s.conns && s.regs[Reg(c, PollOut)] > 0 :: s.conns[c].pending != [])
    && (forall c | c in s.conns && s.regs[Reg(c, PollIn)] > 0 :: s.conns[c].pending == [])
    && s.regs[Reg(s.listener, PollOut)] == 0
  }

  predicate PlaceRight(s: Server, p: Place) {
    match p
    case AtRead(c) => c in s.conns && s.conns[c].pending == []
    case AtWrite(c) => c in s.conns && s.conns[c].pending != []
    case AtAssociate(c) => c in s.conns
    case AtAccept(c) => c == s.listener
    case AtNew(c, f) => c == s.listener && f in s.conns && s.conns[f].pending == []
    case AtAgain(c, _) => c == s.listener
    case _ => true
  }

  /** All that was read is written or about to be, also where a connection was closed, and a connection
      whose input ended was closed with nothing left to write. */
  predicate Faithful(s: Server) {
    && (forall c | c in s.conns :: s.conns[c].Valid())
    && (forall k | 0 <= k < |s.log| ::
         s.log[k].conn.Valid() && (s.log[k].atEnd ==> s.log[k].conn.output == s.log[k].conn.input))
  }

  ghost predicate Inv(s: Server) {
    && s.listener !in s.conns && HeldOnce(s) && WaitsRight(s) && Faithful(s)
    && (forall i | 0 <= i < |s.threads| :: PlaceRight(s, s.threads[i]))
  }

  /** The listening socket is registered, and n threads are about to call port_get. */
  function Init(listener: Id, n: nat): Server {
    Server(listener, map[], multiset{Reg(listener, PollIn)}, seq(n, _ => Idle), [])
  }

  lemma {:induction false} NoHolders(threads: seq<Place>, c: Id)
    requires forall i | 0 <= i < |threads| :: !Holds(threads[i], c)
    ensures Holders(threads, c) == 0
  {
    if threads != [] { NoHolders(threads[1..], c); }
  }

  lemma InitHolds(listener: Id, n: nat)
    ensures Inv(Init(listener, n))
  {
    var s := Init(listener, n);
    forall c: Id ensures Holders(s.threads, c) == 0 { NoHolders(s.threads, c); }
  }

  // ---------------------------------------------------------------------------------------
  // Counting holders

  lemma {:induction false} HoldersUpdate(threads: seq<Place>, i: nat, p: Place, c: Id)
    requires i < |threads|
    ensures Holders(threads[i := p], c) ==
      Holders(threads, c) - (if Holds(threads[i], c) then 1 else 0) + (if Holds(p, c) then 1 else 0)
  {
    if i == 0 {
      assert threads[i := p][1..] == threads[1..];
    } else {
      HoldersUpdate(threads[1..], i - 1, p, c);
      assert threads[i := p][1..] == threads[1..][i - 1 := p];
    }
  }

  lemma {:induction false} HolderCounts(threads: seq<Place>, i: nat, c: Id)
    requires i < |threads| && Holds(threads[i], c)
    ensures Holders(threads, c) >= 1
  {
    if i > 0 { HolderCounts(threads[1..], i - 1, c); }
  }

  /** Nobody else holds what one thread holds. */
  lemma {:induction false} TwoHolders(threads: seq<Place>, i: nat, j: nat, c: Id)
    requires i < j < |threads| && Holds(threads[i], c) && Holds(threads[j], c)
    ensures Holders(threads, c) >= 2
  {
    if i == 0 {
      HolderCounts(threads[1..], j - 1, c);
    } else {
      TwoHolders(threads[1..], i - 1, j - 1, c);
    }
  }

  lemma OnlyHolder(s: Server, i: nat, j: nat, c: Id)
    requires HeldOnce(s) && i < |s.threads| && j < |s.threads| && i != j && Holds(s.threads[i], c)
    ensures !Holds(s.threads[j], c)
  {
    if Holds(s.threads[j], c) {
      if i < j { TwoHolders(s.threads, i, j, c); } else { TwoHolders(s.threads, j, i, c); }
    }
  }

  /** What a thread holds is live, and registered nowhere. */
  lemma HeldIsLive(s: Server, i: nat, c: Id)
    requires HeldOnce(s) && i < |s.threads| && Holds(s.threads[i], c)
    ensures Live(s, c) && Regs(s.regs, c) == 0
  {
    HolderCounts(s.threads, i, c);
  }

  // ---------------------------------------------------------------------------------------
  // Every step keeps the invariant

  /** How many threads hold c after a step of thread i. */
  lemma HoldersAfter(s: Server, i: nat, a: Action, c: Id)
    requires Enabled(s, i, a)
    ensures var s' := Apply(s, i, a);
      Holders(s'.threads, c) ==
        Holders(s.threads, c) - (if Holds(s.threads[i], c) then 1 else 0) + (if Holds(s'.threads[i], c) then 1 else 0)
  {
    var s' := Apply(s, i, a);
    assert s'.threads == s.threads[i := s'.threads[i]];
    HoldersUpdate(s.threads, i, s'.threads[i], c);
  }

  lemma CountsAfter(s: Server, i: nat, a: Action)
    requires Inv(s) && Enabled(s, i, a)
    ensures HeldOnce(Apply(s, i, a))
  {
    var s' := Apply(s, i, a);
    forall c: Id ensures Holders(s'.threads, c) + Regs(s'.regs, c) == if Live(s', c) then 1 else 0 {
      CountAfter(s, i, a, c);
    }
  }

  lemma CountAfter(s: Server, i: nat, a: Action, c: Id)
    requires Inv(s) && Enabled(s, i, a)
    ensures Holders(Apply(s, i, a).threads, c) + Regs(Apply(s, i, a).regs, c) == if Live(Apply(s, i, a), c) then 1
      else 0
  {
    hide Holders, Regs, WaitsRight, Faithful;
    HoldersAfter(s, i, a, c);
    var p := s.threads[i];
    if Holds(p, c) { HeldIsLive(s, i, c); }
    match a
    case Get(r) => OneLess(s.regs, r, c);
    case Associate =>
      if p.AtAssociate? { OneMore(s.regs, Reg(p.c, Waiting(s.conns[p.c])), c); }
      else if p.AtNew? { OneMore(s.regs, Reg(p.young, PollIn), c); }
      else { OneMore(s.regs, Reg(p.c, PollIn), c); }
    case _ =>
  }

  lemma OneMore(regs: multiset<Reg>, r: Reg, c: Id)
    ensures Regs(regs + multiset{r}, c) == Regs(regs, c) + (if r.id == c then 1 else 0)
  {
    assert r == Reg(r.id, if r.interest == PollIn then PollIn else PollOut);
    assert (regs + multiset{r})[r] == regs[r] + 1;
  }

  lemma OneLess(regs: multiset<Reg>, r: Reg, c: Id)
    requires r in regs
    ensures Regs(regs - multiset{r}, c) == Regs(regs, c) - (if r.id == c then 1 else 0)
  {
    assert r == Reg(r.id, if r.interest == PollIn then PollIn else PollOut);
    assert (regs - multiset{r})[r] == regs[r] - 1;
  }

  /** What a thread works on is not registered, so a step does not make a registration wrong. */
  lemma Unregistered(s: Server, i: nat, a: Action)
    requires Inv(s) && Enabled(s, i, a)
    ensures var p := s.threads[i];
      && (p.AtRead? || p.AtWrite? || p.AtAssociate? ==> Regs(s.regs, p.c) == 0)
      && (p.AtNew? ==> Regs(s.regs, p.young) == 0)
      && (p.AtAgain? || p.AtNew? ==> p.c == s.listener)
      && (p.AtNew? ==> p.young in s.conns && s.conns[p.young].pending == [])
      && (a.Accept? ==> Regs(s.regs, a.young) == 0)
  {
    hide WaitsRight, Faithful, Holders, Regs;
    var p := s.threads[i];
    assert PlaceRight(s, p);
    if p.AtRead? || p.AtWrite? || p.AtAssociate? { HeldIsLive(s, i, p.c); }
    if p.AtNew? { HeldIsLive(s, i, p.young); }
    if a.Accept? { FreshUnknown(s, a.young); }
  }

  lemma WaitsAfter(s: Server, i: nat, a: Action)
    requires Inv(s) && Enabled(s, i, a)
    ensures WaitsRight(Apply(s, i, a))
  {
    Unregistered(s, i, a);
    assert WaitsRight(s) && s.listener !in s.conns;
    match a
    case Get(_) => WaitsFewer(s, Apply(s, i, a));
    case DoRead(_) => WaitsChanged(s, Apply(s, i, a), s.threads[i].c) by { hide WaitsRight, Regs; }
    case DoWrite(_) => WaitsChanged(s, Apply(s, i, a), s.threads[i].c) by { hide WaitsRight, Regs; }
    case Associate => AssociateWaits(s, i);
    case Accept(f) => WaitsChanged(s, Apply(s, i, a), f) by { hide WaitsRight, Regs; }
    case _ => WaitsFewer(s, Apply(s, i, a));
  }

  lemma WaitsFewer(s: Server, s': Server)
    requires WaitsRight(s) && s'.conns == s.conns && s'.regs <= s.regs && s'.listener == s.listener
    ensures WaitsRight(s')
  {
  }

  /** A connection that is not registered may change, begin or end. */
  lemma WaitsChanged(s: Server, s': Server, c: Id)
    requires WaitsRight(s) && s'.regs == s.regs && s'.listener == s.listener && Regs(s.regs, c) == 0
    requires forall d | d in s'.conns && d != c :: d in s.conns && s'.conns[d] == s.conns[d]
    ensures WaitsRight(s')
  {
  }

  lemma AssociateWaits(s: Server, i: nat)
    requires Enabled(s, i, Associate) && WaitsRight(s) && s.listener !in s.conns
    requires var p := s.threads[i];
      && (p.AtAssociate? ==> p.c in s.conns)
      && (p.AtNew? ==> p.young in s.conns && s.conns[p.young].pending == [])
      && (p.AtAgain? ==> p.c == s.listener)
    ensures WaitsRight(Apply(s, i, Associate))
  {
    var p, s' := s.threads[i], Apply(s, i, Associate);
    if p.AtAssociate? {
    } else if p.AtNew? {
    } else {
    }
  }

  lemma FreshUnknown(s: Server, f: Id)
    requires HeldOnce(s) && !Live(s, f)
    ensures Regs(s.regs, f) == 0 && forall j | 0 <= j < |s.threads| :: !Holds(s.threads[j], f)
  {
    assert Holders(s.threads, f) + Regs(s.regs, f) == 0;
    forall j | 0 <= j < |s.threads| ensures !Holds(s.threads[j], f) {
      if Holds(s.threads[j], f) { HolderCounts(s.threads, j, f); }
    }
  }

  lemma FaithfulAfter(s: Server, i: nat, a: Action)
    requires Inv(s) && Enabled(s, i, a)
    ensures Faithful(Apply(s, i, a))
  {
    var p := s.threads[i];
    assert PlaceRight(s, p);
    match a
    case DoRead(data) => ReadKeeps(s.conns[p.c], data);
    case DoWrite(w) => WriteKeeps(s.conns[p.c], Taken(w));
    case _ =>
  }

  /** Where a step of thread i leads, and what it has there. */
  lemma GetPlace(s: Server, i: nat, r: Reg)
    requires Enabled(s, i, Get(r)) && WaitsRight(s) && s.listener !in s.conns
    ensures PlaceRight(Apply(s, i, Get(r)), Apply(s, i, Get(r)).threads[i])
  {
  }

  lemma ReadPlace(s: Server, i: nat, data: seq<Byte>)
    requires Enabled(s, i, DoRead(data))
    ensures PlaceRight(Apply(s, i, DoRead(data)), Apply(s, i, DoRead(data)).threads[i])
  {
  }

  lemma WritePlace(s: Server, i: nat, w: WriteResult)
    requires Enabled(s, i, DoWrite(w))
    ensures PlaceRight(Apply(s, i, DoWrite(w)), Apply(s, i, DoWrite(w)).threads[i])
  {
  }

  lemma ListenPlace(s: Server, i: nat, a: Action)
    requires Enabled(s, i, a) && PlaceRight(s, s.threads[i]) && (a.Associate? || a.Accept? || a.Print? || a.Alert?)
    ensures PlaceRight(Apply(s, i, a), Apply(s, i, a).threads[i])
  {
  }

  lemma OwnPlaceAfter(s: Server, i: nat, a: Action)
    requires Inv(s) && Enabled(s, i, a)
    ensures PlaceRight(Apply(s, i, a), Apply(s, i, a).threads[i])
  {
    hide Inv, WaitsRight, PlaceRight;
    InvPlace(s, i);
    match a
    case Get(r) => GetPlace(s, i, r);
    case DoRead(data) => ReadPlace(s, i, data);
    case DoWrite(w) => WritePlace(s, i, w);
    case _ => ListenPlace(s, i, a);
  }

  lemma InvPlace(s: Server, i: nat)
    requires Inv(s) && i < |s.threads|
    ensures s.listener !in s.conns && WaitsRight(s) && PlaceRight(s, s.threads[i])
  {
    hide WaitsRight, HeldOnce, Faithful, PlaceRight;
  }

  lemma OtherPlaceAfter(s: Server, i: nat, a: Action, j: nat)
    requires Inv(s) && Enabled(s, i, a) && j < |s.threads| && i != j
    ensures PlaceRight(Apply(s, i, a), s.threads[j])
  {
    hide HeldOnce, Faithful, WaitsRight;
    var q := s.threads[j];
    assert PlaceRight(s, q);
    if q.AtRead? || q.AtWrite? || q.AtAssociate? {
      OnlyHolder(s, j, i, q.c);
    } else if q.AtNew? {
      OnlyHolder(s, j, i, q.young);
    }
  }

  lemma PlacesAfter(s: Server, i: nat, a: Action, j: nat)
    requires Inv(s) && Enabled(s, i, a) && j < |s.threads|
    ensures PlaceRight(Apply(s, i, a), Apply(s, i, a).threads[j])
  {
    hide Inv, PlaceRight;
    if i == j { OwnPlaceAfter(s, i, a); } else { OtherPlaceAfter(s, i, a, j); }
  }

  lemma StepHolds(s: Server, i: nat, a: Action)
    requires Inv(s) && Enabled(s, i, a)
    ensures Inv(Apply(s, i, a))
  {
    CountsAfter(s, i, a);
    WaitsAfter(s, i, a);
    FaithfulAfter(s, i, a);
    forall j | 0 <= j < |s.threads| ensures PlaceRight(Apply(s, i, a), Apply(s, i, a).threads[j]) {
      PlacesAfter(s, i, a, j);
    }
  }

  // ---------------------------------------------------------------------------------------
  // Runs

  datatype Turn = Turn(thread: nat, action: Action)

  predicate Possible(s: Server, run: seq<Turn>)
    decreases |run|
  {
    run != [] ==> Enabled(s, run[0].thread, run[0].action) && Possible(Apply(s, run[0].thread, run[0].action), run[1..])
  }

  function After(s: Server, run: seq<Turn>): Server
    requires Possible(s, run)
    decreases |run|
  {
    if run == [] then s else After(Apply(s, run[0].thread, run[0].action), run[1..])
  }

  lemma {:induction false} RunHolds(s: Server, run: seq<Turn>)
    requires Inv(s) && Possible(s, run)
    ensures Inv(After(s, run)) && |After(s, run).threads| == |s.threads|
    decreases |run|
  {
    if run != [] {
      StepHolds(s, run[0].thread, run[0].action);
      RunHolds(Apply(s, run[0].thread, run[0].action), run[1..]);
    }
  }

  // ---------------------------------------------------------------------------------------
  // What a connection received and sent, told by the run alone

  /** The last connection that thread i got from port_get is c. */
  predicate WorksOn(run: seq<Turn>, i: nat, c: Id) {
    run != [] &&
    var t := run[|run| - 1];
    if t.thread == i && t.action.Get? then t.action.reg.id == c else WorksOn(run[..|run| - 1], i, c)
  }

  /** The bytes that read returned for c since it was accepted. */
  function ReadOn(run: seq<Turn>, c: Id): seq<Byte> {
    if run == [] then []
    else
      var t, before := run[|run| - 1], run[..|run| - 1];
      if t.action == Accept(c) then []
      else if t.action.DoRead? && WorksOn(before, t.thread, c) then ReadOn(before, c) + t.action.data
      else ReadOn(before, c)
  }

  /** How many bytes write took from c since it was accepted. */
  function WrittenOn(run: seq<Turn>, c: Id): nat {
    if run == [] then 0
    else
      var t, before := run[|run| - 1], run[..|run| - 1];
      if t.action == Accept(c) then 0
      else if t.action.DoWrite? && t.action.result.Wrote? && WorksOn(before, t.thread, c) then
        WrittenOn(before, c) + t.action.result.n
      else WrittenOn(before, c)
  }

  /** The server is as the run tells: who works on what, what was read, and how much of it was written. */
  ghost predicate Told(s: Server, run: seq<Turn>) {
    && (forall i, c | 0 <= i < |s.threads| && (s.threads[i] == AtRead(c) || s.threads[i] == AtWrite(c)) ::
          WorksOn(run, i, c))
    && (forall c | c in s.conns :: s.conns[c].input == ReadOn(run, c) && |s.conns[c].output| == WrittenOn(run, c))
  }

  lemma {:induction false} WorksOnOne(run: seq<Turn>, i: nat, c: Id, d: Id)
    requires WorksOn(run, i, c) && WorksOn(run, i, d)
    ensures c == d
  {
    if !(run[|run| - 1].thread == i && run[|run| - 1].action.Get?) { WorksOnOne(run[..|run| - 1], i, c, d); }
  }

  /** Where a thread works after a step. */
  lemma WorksAfter(s: Server, i: nat, a: Action, j: nat, c: Id)
    requires Enabled(s, i, a) && j < |s.threads|
    requires Apply(s, i, a).threads[j] in {AtRead(c), AtWrite(c)}
    ensures if j == i && a.Get? then a.reg.id == c else s.threads[j] in {AtRead(c), AtWrite(c)}
  {
  }

  lemma ThreadsTold(s: Server, run: seq<Turn>, t: Turn, i: nat, c: Id)
    requires Told(s, run) && Enabled(s, t.thread, t.action) && i < |s.threads|
    requires var s' := Apply(s, t.thread, t.action); s'.threads[i] == AtRead(c) || s'.threads[i] == AtWrite(c)
    ensures WorksOn(run + [t], i, c)
  {
    hide ReadOn, WrittenOn, Enabled, Apply;
    WorksAfter(s, t.thread, t.action, i, c);
    assert (run + [t])[..|run|] == run;
  }

  lemma ConnTold(s: Server, run: seq<Turn>, t: Turn, c: Id)
    requires Told(s, run) && Enabled(s, t.thread, t.action) && c in Apply(s, t.thread, t.action).conns
    ensures var k := Apply(s, t.thread, t.action).conns[c];
      k.input == ReadOn(run + [t], c) && |k.output| == WrittenOn(run + [t], c)
  {
    hide WorksOn;
    var longer := run + [t];
    assert longer[..|run|] == run && longer[|run|] == t;
    match t.action
    case DoRead(data) =>
      var d := s.threads[t.thread].c;
      if WorksOn(run, t.thread, c) { WorksOnOne(run, t.thread, c, d); }
    case DoWrite(w) =>
      var d := s.threads[t.thread].c;
      if WorksOn(run, t.thread, c) { WorksOnOne(run, t.thread, c, d); }
    case _ =>
  }

  lemma ToldAfter(s: Server, run: seq<Turn>, t: Turn)
    requires Told(s, run) && Enabled(s, t.thread, t.action)
    ensures Told(Apply(s, t.thread, t.action), run + [t])
  {
    hide Enabled, Apply, WorksOn, ReadOn, WrittenOn;
    var s' := Apply(s, t.thread, t.action);
    SameThreads(s, t.thread, t.action);
    forall i, c | 0 <= i < |s'.threads| && (s'.threads[i] == AtRead(c) || s'.threads[i] == AtWrite(c))
      ensures WorksOn(run + [t], i, c) {
      ThreadsTold(s, run, t, i, c);
    }
    forall c | c in s'.conns
      ensures s'.conns[c].input == ReadOn(run + [t], c) && |s'.conns[c].output| == WrittenOn(run + [t], c) {
      ConnTold(s, run, t, c);
    }
  }

  lemma SameThreads(s: Server, i: nat, a: Action)
    requires Enabled(s, i, a)
    ensures |Apply(s, i, a).threads| == |s.threads|
  {
  }

  lemma {:induction false} RunTold(s0: Server, run: seq<Turn>, k: nat)
    requires k <= |run| && Possible(s0, run) && Told(s0, [])
    ensures Possible(s0, run[..k]) && Told(After(s0, run[..k]), run[..k]) && Possible(After(s0, run[..k]), run[k..])
  {
    hide Told, Enabled, Apply;
    if k == 0 {
      assert run[..0] == [] && run[0..] == run;
    } else {
      RunTold(s0, run, k - 1);
      var s, t := After(s0, run[..k - 1]), run[k - 1];
      assert run[k - 1..][0] == t && run[k - 1..][1..] == run[k..] && run[..k] == run[..k - 1] + [t];
      OneTurn(s, [t]);
      assert [t][1..] == [];
      RunsJoin(s0, run[..k - 1], [t]);
      ToldAfter(s, run[..k - 1], t);
    }
  }

  /** In every run of any number of threads: what a connection wrote is the beginning of what read returned for it, as
      long as write said, what is left of that is pending, cn_total counts the bytes written, and the connection is
      registered for output just if something is left to write. */
  lemma Safety(listener: Id, n: nat, run: seq<Turn>, c: Id)
    requires Possible(Init(listener, n), run) && c in After(Init(listener, n), run).conns
    ensures var s := After(Init(listener, n), run);
      && WrittenOn(run, c) <= |ReadOn(run, c)|
      && s.conns[c].output == ReadOn(run, c)[..WrittenOn(run, c)]
      && s.conns[c].pending == ReadOn(run, c)[WrittenOn(run, c)..] && s.conns[c].total == Int32(WrittenOn(run, c))
      && Holders(s.threads, c) + Regs(s.regs, c) == 1
      && (Regs(s.regs, c) == 1 ==> (s.regs[Reg(c, PollOut)] == 1 <==> s.conns[c].pending != []))
  {
    hide Possible, After, ReadOn, WrittenOn, Int32;
    InitHolds(listener, n);
    RunHolds(Init(listener, n), run);
    RunTold(Init(listener, n), run, |run|);
    assert run[..|run|] == run;
    var k := After(Init(listener, n), run).conns[c];
    assert k.input == k.output + k.pending;
  }

  // ---------------------------------------------------------------------------------------
  // The last statement of listen_func

  /** listen_func prints the descriptor of the new connection when other threads may already have it. */
  predicate PrintsLive(s: Server) {
    forall i | 0 <= i < |s.threads| && s.threads[i].AtPrint? :: s.threads[i].young in s.conns
  }

  /** With one thread, and while it is in listen_func, the new connection lives. */
  predicate Alone(s: Server) {
    |s.threads| <= 1 && (|s.threads| == 1 && (s.threads[0].AtAgain? || s.threads[0].AtPrint?) ==>
      s.threads[0].young in s.conns)
  }

  /** A lone thread in listen_func stays there, and no connection goes meanwhile. */
  lemma AloneStep(s: Server, i: nat, a: Action)
    requires Inv(s) && Alone(s) && Enabled(s, i, a)
    ensures Alone(Apply(s, i, a))
  {
    hide Inv;
    InvPlace(s, i) by { hide Enabled, Apply; }
    match a
    case Associate =>
    case _ => assert !Apply(s, i, a).threads[i].AtAgain? && !Apply(s, i, a).threads[i].AtPrint?;
  }

  lemma {:induction false} AloneAfter(s: Server, run: seq<Turn>)
    requires Inv(s) && Alone(s) && Possible(s, run)
    ensures Alone(After(s, run))
    decreases |run|
  {
    hide Inv, Alone, Enabled;
    if run != [] {
      StepHolds(s, run[0].thread, run[0].action);
      AloneStep(s, run[0].thread, run[0].action);
      AloneAfter(Apply(s, run[0].thread, run[0].action), run[1..]);
    }
  }

  /** A run in which the second thread closes a connection that the first is about to print. */
  function Overtaken(listener: Id, f: Id): seq<Turn> {
    [Turn(0, Get(Reg(listener, PollIn))), Turn(0, Accept(f)), Turn(0, Associate), Turn(1,
      Get(Reg(f, PollIn))), Turn(1, DoRead([])), Turn(0, Associate)]
  }

  lemma OvertakenRun(listener: Id, n: nat, f: Id)
    requires n >= 2 && f != listener
    ensures Possible(Init(listener, n), Overtaken(listener, f))
      && !PrintsLive(After(Init(listener, n), Overtaken(listener, f)))
  {
    hide Possible, After;
    var s, r := Init(listener, n), Overtaken(listener, f);
    var s3 := FirstHalf(listener, n, f);
    SecondHalf(s3, listener, f);
    assert r == r[..3] + r[3..];
    RunsJoin(s, r[..3], r[3..]);
  }

  /** The first thread accepts the connection and gives it away. */
  lemma FirstHalf(listener: Id, n: nat, f: Id) returns (s3: Server)
    requires n >= 2 && f != listener
    ensures var s, r := Init(listener, n), Overtaken(listener, f)[..3];
      Possible(s, r) && After(s, r) == s3
    ensures |s3.threads| == n && s3.threads[0] == AtAgain(listener, f) && s3.threads[1] == Idle
    ensures s3.conns == map[f := NewConn()] && Reg(f, PollIn) in s3.regs && s3.listener == listener
  {
    var s0, r := Init(listener, n), Overtaken(listener, f)[..3];
    var s1 := Apply(s0, 0, r[0].action);
    var s2 := Apply(s1, 0, r[1].action);
    s3 := Apply(s2, 0, r[2].action);
    OneTurn(s2, r[2..]);
    OneTurn(s1, r[1..]);
    OneTurn(s0, r);
    assert r[1..][1..] == r[2..];
  }

  /** The second thread closes it. */
  lemma SecondHalf(s3: Server, listener: Id, f: Id)
    requires f != listener && s3.listener == listener && s3.conns == map[f := NewConn()] && Reg(f, PollIn) in s3.regs
    requires |s3.threads| >= 2 && s3.threads[0] == AtAgain(listener, f) && s3.threads[1] == Idle
    ensures var r := Overtaken(listener, f)[3..]; Possible(s3, r) && !PrintsLive(After(s3, r))
  {
    var r := Overtaken(listener, f)[3..];
    var s4 := Apply(s3, 1, r[0].action);
    var s5 := Apply(s4, 1, r[1].action);
    var s6 := Apply(s5, 0, r[2].action);
    OneTurn(s5, r[2..]);
    OneTurn(s4, r[1..]);
    OneTurn(s3, r);
    assert r[1..][1..] == r[2..];
    assert s6.threads[0] == AtPrint(f);
  }

  lemma OneTurn(s: Server, run: seq<Turn>)
    requires run != [] && Enabled(s, run[0].thread, run[0].action)
    ensures var s' := Apply(s, run[0].thread, run[0].action);
      Possible(s, run) == Possible(s', run[1..]) && (Possible(s, run) ==> After(s, run) == After(s', run[1..]))
  {
    hide Enabled, Apply;
  }

  lemma {:induction false} RunsJoin(s: Server, r: seq<Turn>, t: seq<Turn>)
    requires Possible(s, r) && Possible(After(s, r), t)
    ensures Possible(s, r + t) && After(s, r + t) == After(After(s, r), t)
    decreases |r|
  {
    hide Enabled, Apply;
    if r == [] {
      assert r + t == t;
    } else {
      assert (r + t)[1..] == r[1..] + t;
      RunsJoin(Apply(s, r[0].thread, r[0].action), r[1..], t);
    }
  }

  /** listen_func never prints a connection that was freed if, and only if, there is no second thread. */
  lemma PrintIsSafe(listener: Id, n: nat)
    ensures (forall run :: Possible(Init(listener, n), run) ==> PrintsLive(After(Init(listener, n), run))) <==> n <= 1
  {
    if n <= 1 {
      forall run | Possible(Init(listener, n), run) ensures PrintsLive(After(Init(listener, n), run)) {
        InitHolds(listener, n);
        AloneAfter(Init(listener, n), run);
      }
    } else {
      OvertakenRun(listener, n, listener + 1);
    }
  }
}
