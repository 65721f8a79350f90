/** One connection of the echo server (eports.c, struct conn and echo_func). */
module EchoConn {

  const BLEN: nat := 1024

  type Byte = b: int | 0 <= b < 256

  /** The value of an int of 32 bits. */
  function Int32(x: int): int {
    (x + 0x8000_0000) % 0x1_0000_0000 - 0x8000_0000
  }

  datatype Interest = PollIn | PollOut

  /** cn_total and the first cn_bcnt bytes of cn_buffer; what was read and written so far. */
  datatype Conn = Conn(total: int, pending: seq<Byte>, input: seq<Byte>, output: seq<Byte>) {
    /** Everything read was written, or is still to be written, in order. */
    predicate Valid() {
      |pending| <= BLEN && output + pending == input && total == Int32(|output|)
    }
  }

  /** get_conn */
  function NewConn(): (c: Conn)
    ensures c.Valid()
  {
    Conn(0, [], [], [])
  }

  /** read gave some bytes. */
  function AfterRead(c: Conn, data: seq<Byte>): Conn {
    c.(pending := data, input := c.input + data)
  }

  /** write took n bytes. */
  function AfterWrite(c: Conn, n: nat): Conn
    requires n <= |c.pending|
  {
    c.(total := Int32(c.total + n), pending := c.pending[n..], output := c.output + c.pending[..n])
  }

  lemma ReadKeeps(c: Conn, data: seq<Byte>)
    requires c.Valid() && c.pending == [] && |data| <= BLEN
    ensures AfterRead(c, data).Valid()
  {
    assert c.output + [] == c.output;
  }

  lemma WriteKeeps(c: Conn, n: nat)
    requires c.Valid() && n <= |c.pending|
    ensures AfterWrite(c, n).Valid() && AfterWrite(c, n).input == c.input
    ensures n == 0 ==> AfterWrite(c, n) == c
  {
    assert c.pending == c.pending[..n] + c.pending[n..];
    assert c.output + c.pending[..n] + c.pending[n..] == c.output + c.pending;
  }

  lemma CutTwice(s: seq<Byte>, k: nat, n: nat)
    requires k <= n <= |s|
    ensures s[..n][k..] == s[k..n] && s[..n][..k] == s[..k]
  {
  }

  // ---------------------------------------------------------------------------------------
  // echo_func

  /** What the two calls of the system return: at most BLEN bytes (none: end of input, or an error); how
      many of count bytes were written, or -1, and whether the error was EAGAIN. */
  datatype ReadResult = ReadResult(data: seq<Byte>)
  datatype WriteResult = Wrote(n: nat) | Again | Failed

  datatype Outcome = Closed | Waits(interest: Interest)

  predicate Possible(r: ReadResult, w: WriteResult, bcnt: nat) {
    |r.data| <= BLEN && (w.Wrote? ==> w.n <= if bcnt == 0 then |r.data| else bcnt)
  }

  /** The state in which the write of echo_func finds the connection. */
  function Reading(c: Conn, r: ReadResult): Conn {
    if c.pending == [] then AfterRead(c, r.data) else c
  }

  function Taken(w: WriteResult): nat {
    if w.Wrote? then w.n else 0
  }

  lemma Written(c: Conn, n: nat)
    requires n <= |c.pending|
    ensures var d := AfterWrite(c, n);
      && d.input == c.input && d.output == c.output + c.pending[..n] && d.pending == c.pending[n..]
      && d.total == Int32(c.total + n)
  {
  }

  class Connection {
    var total: int
    var bcnt: nat
    const buffer: array<Byte>
    ghost var input: seq<Byte>
    ghost var output: seq<Byte>

    constructor ()
      ensures View() == NewConn() && Valid() && fresh(buffer)
    {
      total, bcnt := 0, 0;
      buffer := new Byte[BLEN](i => 0);
      input, output := [], [];
    }

    ghost predicate Valid()
      reads this, buffer
    {
      buffer.Length == BLEN && bcnt <= BLEN && View().Valid()
    }

    ghost function View(): Conn
      reads this, buffer
    {
      Conn(total, if bcnt <= buffer.Length then buffer[..bcnt] else [], input, output)
    }

    /** read: the bytes go to the front of the buffer. */
    method Read(data: seq<Byte>) returns (red: int)
      requires |data| <= buffer.Length
      modifies buffer, this`input
      ensures red == |data| && buffer[..|data|] == data && input == old(input) + data
    {
      var i := 0;
      while i < |data|
        invariant 0 <= i <= |data| && input == old(input) && forall j | 0 <= j < i :: buffer[j] == data[j]
      {
        buffer[i] := data[i];
        i := i + 1;
      }
      input := input + data;
      red := |data|;
    }

    /** memmove(cn_buffer, cn_buffer + wrote, n) */
    method MoveDown(wrote: nat, n: nat)
      requires wrote + n <= buffer.Length
      modifies buffer
      ensures buffer[..n] == old(buffer[wrote..wrote + n])
    {
      var i := 0;
      while i < n
        invariant 0 <= i <= n
        invariant forall j | 0 <= j < i :: buffer[j] == old(buffer[wrote + j])
        invariant forall j | i <= j < buffer.Length :: buffer[j] == old(buffer[j])
      {
        buffer[i] := buffer[wrote + i];
        i := i + 1;
      }
    }

    /** echo_func, behind write: what was written leaves the buffer. */
    method KeepRest(wrote: nat) returns (o: Outcome)
      requires wrote <= bcnt <= buffer.Length
      modifies this`bcnt, buffer
      ensures bcnt == old(bcnt) - wrote && buffer[..bcnt] == old(buffer[wrote..bcnt])
      ensures o == Waits(if bcnt > 0 then PollOut else PollIn)
    {
      if wrote < bcnt {
        if wrote != 0 {
          MoveDown(wrote, bcnt - wrote);
          bcnt := bcnt - wrote;
        }
        o := Waits(PollOut);
      } else {
        bcnt := 0;
        o := Waits(PollIn);
      }
    }

    /** echo_func, the part behind read. */
    method Write(w: WriteResult) returns (o: Outcome)
      requires Valid() && bcnt > 0 && (w.Wrote? ==> w.n <= bcnt)
      modifies this, buffer
      ensures o == Closed <==> w == Failed
      ensures w == Failed ==> View() == old(View())
      ensures w != Failed ==>
        Valid() && View() == AfterWrite(old(View()), Taken(w)) && o == Waits(if bcnt > 0 then PollOut else PollIn)
    {
      hide Int32, Conn.Valid;
      ghost var c := View();
      var wrote: int := if w.Wrote? then w.n else -1;
      WriteKeeps(c, Taken(w));
      if wrote > 0 {
        total := Int32(total + wrote);
        output := output + buffer[..wrote];
      }
      if wrote < 0 {
        if w == Failed { return Closed; }
        wrote := 0;
      }
      CutTwice(buffer[..], wrote, bcnt);
      o := KeepRest(wrote);
    }

    /** echo_func: read if nothing is pending, write what there is, and wait for more to do. */
    method Echo(r: ReadResult, w: WriteResult) returns (o: Outcome)
      requires Valid() && Possible(r, w, bcnt)
      modifies this, buffer
      ensures o == Closed <==> (old(bcnt) == 0 && r.data == []) || w == Failed
      ensures o == Closed && (old(bcnt) == 0 && r.data == []) ==> View() == old(View()) && output == input
      ensures input == old(input) + (if old(bcnt) == 0 then r.data else [])
      ensures o == Closed ==> output == old(output)
      ensures o != Closed ==>
        var found := if old(bcnt) == 0 then r.data else old(buffer[..bcnt]);
        var n := if w.Wrote? then w.n else 0;
        && Valid() && output == old(output) + found[..n] && bcnt == |found| - n && buffer[..bcnt] == found[n..]
        && total == Int32(old(total) + n) && o == Waits(if bcnt > 0 then PollOut else PollIn)
      ensures o != Closed ==> View() == AfterWrite(Reading(old(View()), r), Taken(w))
    {
      hide Int32, AfterWrite;
      if bcnt == 0 {
        if r.data == [] {
          assert View().pending == [];
          return Closed;
        }
        ReadKeeps(View(), r.data);
        var red := Read(r.data);
        bcnt := red;
      }
      ghost var c := View();
      o := Write(w);
      Written(c, Taken(w));
    }
  }
}
