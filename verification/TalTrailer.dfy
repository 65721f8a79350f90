/** tal, the search for a trailer (tal-1.9/tal.c, texist and find_a_good_trailer). */
module TalTrailer {

  /** A line: as read, with its tabs expanded, and whether it is considered. */
  datatype Line = Line(orgtext: string, text: string, active: bool)

  datatype Trailer = Trailer(text: string, freq: nat)

  function Lower(c: char): char {
    if 'A' <= c <= 'Z' then ((c as int) + 32) as char else c
  }

  /** strcmp and strcasecmp find no difference. */
  predicate Same(a: string, b: string, igncase: bool) {
    |a| == |b| && forall i | 0 <= i < |a| :: if igncase then Lower(a[i]) == Lower(b[i]) else a[i] == b[i]
  }

  const CAPITALS: string := "ABCDEFGHIJKLMNOPQRSTUVWXYZ"
  const SMALLS: string := "abcdefghijklmnopqrstuvwxyz"

  /** One is the capital of the other. */
  predicate Pair(c: char, d: char) {
    exists k :: 0 <= k < 26 && ((c == CAPITALS[k] && d == SMALLS[k]) || (c == SMALLS[k] && d == CAPITALS[k]))
  }

  lemma Letters(k: nat)
    requires k < 26
    ensures CAPITALS[k] as int == 65 + k && SMALLS[k] as int == 97 + k
  {
  }

  lemma PairIs(c: char, d: char)
    ensures Lower(c) == Lower(d) <==> c == d || Pair(c, d)
  {
    if 65 <= c as int <= 90 { Letters(c as int - 65); }
    if 65 <= d as int <= 90 { Letters(d as int - 65); }
    if Pair(c, d) {
      var k :| 0 <= k < 26 && ((c == CAPITALS[k] && d == SMALLS[k]) || (c == SMALLS[k] && d == CAPITALS[k]));
      Letters(k);
    }
  }

  /** Ignoring case, two texts are the same just if they differ at most in capital and small letters. */
  lemma SameMeans(a: string, b: string, igncase: bool)
    ensures Same(a, b, igncase) <==>
      |a| == |b| && forall i | 0 <= i < |a| :: a[i] == b[i] || (igncase && Pair(a[i], b[i]))
  {
    hide Lower, Pair;
    forall i | 0 <= i < |a| && |a| == |b| ensures Lower(a[i]) == Lower(b[i]) <==> a[i] == b[i] || Pair(a[i], b[i]) {
      PairIs(a[i], b[i]);
    }
  }

  function Suffix(s: string, n: nat): string
    requires n <= |s|
  {
    s[|s| - n..]
  }

  /** The line is considered and ends with the trailer. */
  predicate EndsWith(l: Line, t: string, igncase: bool) {
    l.active && |t| <= |l.text| && Same(Suffix(l.text, |t|), t, igncase)
  }

  /** How many of the first n lines end with the trailer. */
  function Count(lines: seq<Line>, n: nat, t: string, igncase: bool): nat
    requires n <= |lines|
  {
    if n == 0 then 0 else Count(lines, n - 1, t, igncase) + if EndsWith(lines[n - 1], t, igncase) then 1 else 0
  }

  function Freq(lines: seq<Line>, t: string, igncase: bool): nat {
    Count(lines, |lines|, t, igncase)
  }

  /** The line has a trailer of that length. */
  predicate Offers(l: Line, n: nat) {
    l.active && n <= |l.text|
  }

  predicate Candidate(lines: seq<Line>, t: string) {
    exists i :: 0 <= i < |lines| && Offers(lines[i], |t|) && Suffix(lines[i].text, |t|) == t
  }

  /** t is a most frequent trailer of its length. */
  predicate Best(lines: seq<Line>, t: Trailer, igncase: bool) {
    && Candidate(lines, t.text) && t.freq == Freq(lines, t.text, igncase)
    && forall i | 0 <= i < |lines|
    && Offers(lines[i], |t.text|) :: Freq(lines, Suffix(lines[i].text, |t.text|), igncase) <= t.freq
  }

  // ---------------------------------------------------------------------------------------
  // Frequencies

  lemma SameTrans(a: string, b: string, c: string, igncase: bool)
    requires Same(a, b, igncase) && Same(b, c, igncase)
    ensures Same(a, c, igncase)
  {
  }

  lemma EndsSame(l: Line, s: string, t: string, igncase: bool)
    requires Same(s, t, igncase)
    ensures EndsWith(l, s, igncase) <==> EndsWith(l, t, igncase)
  {
    if EndsWith(l, s, igncase) { SameTrans(Suffix(l.text, |s|), s, t, igncase); }
    if EndsWith(l, t, igncase) { SameTrans(Suffix(l.text, |t|), t, s, igncase); }
  }

  lemma {:induction false} CountSame(lines: seq<Line>, n: nat, s: string, t: string, igncase: bool)
    requires n <= |lines| && Same(s, t, igncase)
    ensures Count(lines, n, s, igncase) == Count(lines, n, t, igncase)
  {
    hide Same, EndsWith;
    if n > 0 {
      CountSame(lines, n - 1, s, t, igncase);
      EndsSame(lines[n - 1], s, t, igncase);
    }
  }

  lemma EndsShorter(l: Line, t: string, igncase: bool)
    requires t != [] && EndsWith(l, t, igncase)
    ensures EndsWith(l, t[1..], igncase)
  {
    assert Suffix(l.text, |t| - 1) == Suffix(l.text, |t|)[1..];
  }

  /** A shorter trailer is at least as frequent. */
  lemma {:induction false} CountShorter(lines: seq<Line>, n: nat, t: string, igncase: bool)
    requires n <= |lines| && t != []
    ensures Count(lines, n, t, igncase) <= Count(lines, n, t[1..], igncase)
  {
    hide EndsWith;
    if n > 0 {
      CountShorter(lines, n - 1, t, igncase);
      if EndsWith(lines[n - 1], t, igncase) { EndsShorter(lines[n - 1], t, igncase); }
    }
  }

  lemma {:induction false} CountPositive(lines: seq<Line>, n: nat, i: nat, t: string, igncase: bool)
    requires i < n <= |lines| && EndsWith(lines[i], t, igncase)
    ensures Count(lines, n, t, igncase) >= 1
  {
    hide EndsWith;
    if i < n - 1 { CountPositive(lines, n - 1, i, t, igncase); }
  }

  lemma {:induction false} CountedLine(lines: seq<Line>, n: nat, t: string, igncase: bool) returns (j: nat)
    requires n <= |lines| && Count(lines, n, t, igncase) > 0
    ensures j < n && EndsWith(lines[j], t, igncase)
  {
    hide EndsWith;
    if EndsWith(lines[n - 1], t, igncase) {
      j := n - 1;
    } else {
      j := CountedLine(lines, n - 1, t, igncase);
    }
  }

  /** No trailer of that length or longer is more frequent than f. */
  ghost predicate NoneAbove(lines: seq<Line>, n: nat, f: nat, igncase: bool) {
    forall i, m | 0 <= i < |lines| && n <= m
      && Offers(lines[i], m) :: Freq(lines, Suffix(lines[i].text, m), igncase) <= f
  }

  lemma {:induction false} LongerIsRarer(lines: seq<Line>, t: Trailer, i: nat, m: nat, igncase: bool)
    requires Best(lines, t, igncase) && i < |lines| && |t.text| <= m && Offers(lines[i], m)
    ensures Freq(lines, Suffix(lines[i].text, m), igncase) <= t.freq
    decreases m
  {
    hide Count, Candidate;
    if m > |t.text| {
      LongerIsRarer(lines, t, i, m - 1, igncase);
      CountShorter(lines, |lines|, Suffix(lines[i].text, m), igncase);
      assert Suffix(lines[i].text, m)[1..] == Suffix(lines[i].text, m - 1);
    }
  }

  /** Nothing longer than a best trailer is more frequent: best frequencies do not increase with the length. */
  lemma BestBounds(lines: seq<Line>, t: Trailer, igncase: bool)
    requires Best(lines, t, igncase)
    ensures NoneAbove(lines, |t.text|, t.freq, igncase)
  {
    hide Count, Best;
    forall i, m | 0 <= i < |lines| && |t.text| <= m && Offers(lines[i], m)
      ensures Freq(lines, Suffix(lines[i].text, m), igncase) <= t.freq {
      LongerIsRarer(lines, t, i, m, igncase);
    }
  }

  // ---------------------------------------------------------------------------------------
  // The candidates of one length

  /** longest_line_len */
  method LongestLineLen(lines: array<Line>) returns (max: nat)
    ensures forall i | 0 <= i < lines.Length && lines[i].active :: |lines[i].text| <= max
    ensures max == 0 || exists i :: 0 <= i < lines.Length && lines[i].active && |lines[i].text| == max
  {
    max := 0;
    var i := 0;
    while i < lines.Length
      invariant 0 <= i <= lines.Length && forall j | 0 <= j < i && lines[j].active :: |lines[j].text| <= max
      invariant max == 0 || exists j :: 0 <= j < i && lines[j].active && |lines[j].text| == max
    {
      if lines[i].active && |lines[i].text| > max {
        max := |lines[i].text|;
      }
      i := i + 1;
    }
  }

  /** count_active_lines */
  method CountActiveLines(lines: array<Line>) returns (count: nat)
    ensures count == 0 <==> forall i | 0 <= i < lines.Length :: !lines[i].active
  {
    count := 0;
    var i := 0;
    while i < lines.Length
      invariant 0 <= i <= lines.Length && (count == 0 <==> forall j | 0 <= j < i :: !lines[j].active)
    {
      if lines[i].active {
        count := count + 1;
      }
      i := i + 1;
    }
  }

  /** texist: the place of the wanted trailer in the temporary list, or its length. */
  method Texist(temple: seq<Trailer>, wanted: string, igncase: bool) returns (k: nat)
    ensures k <= |temple| && (k < |temple| ==> Same(temple[k].text, wanted, igncase))
    ensures forall j | 0 <= j < k :: !Same(temple[j].text, wanted, igncase)
  {
    k := 0;
    while k < |temple| && !Same(temple[k].text, wanted, igncase)
      invariant k <= |temple| && forall j | 0 <= j < k :: !Same(temple[j].text, wanted, igncase)
    {
      k := k + 1;
    }
  }

  predicate InList(temple: seq<Trailer>, s: string, igncase: bool) {
    exists k :: 0 <= k < |temple| && Same(temple[k].text, s, igncase)
  }

  /** An entry of the temporary list after i lines. */
  predicate EntryOk(t: Trailer, lines: seq<Line>, i: nat, n: nat, igncase: bool)
    requires i <= |lines|
  {
    |t.text| == n && Candidate(lines, t.text) && t.freq == Count(lines, i, t.text, igncase)
  }

  /** Every trailer of length n in the first i lines is listed once, with its frequency. */
  predicate Listed(temple: seq<Trailer>, lines: seq<Line>, i: nat, n: nat, igncase: bool)
    requires i <= |lines|
  {
    && (forall k | 0 <= k < |temple| :: EntryOk(temple[k], lines, i, n, igncase))
    && (forall j, k | 0 <= j < k < |temple| :: !Same(temple[j].text, temple[k].text, igncase))
    && (forall j | 0 <= j < i && Offers(lines[j], n) :: InList(temple, Suffix(lines[j].text, n), igncase))
  }

  lemma EntryStays(t: Trailer, lines: seq<Line>, i: nat, n: nat, igncase: bool)
    requires i < |lines| && EntryOk(t, lines, i, n, igncase) && !EndsWith(lines[i], t.text, igncase)
    ensures EntryOk(t, lines, i + 1, n, igncase)
  {
    hide EndsWith, Candidate;
  }

  /** Lines that do not offer a trailer of length n do not matter. */
  lemma SkipLine(temple: seq<Trailer>, lines: seq<Line>, i: nat, n: nat, igncase: bool)
    requires i < |lines| && Listed(temple, lines, i, n, igncase) && !Offers(lines[i], n)
    ensures Listed(temple, lines, i + 1, n, igncase)
  {
    hide Same, InList, Candidate, Count;
    forall k | 0 <= k < |temple| ensures EntryOk(temple[k], lines, i + 1, n, igncase) {
      assert EntryOk(temple[k], lines, i, n, igncase);
      EntryStays(temple[k], lines, i, n, igncase);
    }
  }

  lemma OnlyOne(temple: seq<Trailer>, lines: seq<Line>, i: nat, n: nat, igncase: bool, k: nat, j: nat)
    requires i < |lines| && Listed(temple, lines, i, n, igncase) && Offers(lines[i], n) && k < |temple|
      && j < |temple| && j != k
    requires Same(temple[k].text, Suffix(lines[i].text, n), igncase)
    ensures !EndsWith(lines[i], temple[j].text, igncase)
  {
    hide InList, Candidate, Count;
    assert EntryOk(temple[j], lines, i, n, igncase);
    if EndsWith(lines[i], temple[j].text, igncase) {
      SameTrans(temple[k].text, Suffix(lines[i].text, n), temple[j].text, igncase);
    }
  }

  lemma InListMore(temple: seq<Trailer>, t2: seq<Trailer>, s: string, igncase: bool)
    requires InList(temple, s, igncase) && |temple| <= |t2|
      && forall j | 0 <= j < |temple| :: t2[j].text == temple[j].text
    ensures InList(t2, s, igncase)
  {
    hide Same;
    var k :| 0 <= k < |temple| && Same(temple[k].text, s, igncase);
    assert t2[k].text == temple[k].text;
  }

  lemma EntryCounted(t: Trailer, lines: seq<Line>, i: nat, n: nat, igncase: bool)
    requires i < |lines| && EntryOk(t, lines, i, n, igncase) && Offers(lines[i], n)
      && Same(t.text, Suffix(lines[i].text, n), igncase)
    ensures EntryOk(t.(freq := t.freq + 1), lines, i + 1, n, igncase)
  {
    hide Candidate;
  }

  /** A known trailer is counted. */
  lemma CountLine(temple: seq<Trailer>, lines: seq<Line>, i: nat, n: nat, igncase: bool, k: nat)
    requires i < |lines| && Listed(temple, lines, i, n, igncase) && Offers(lines[i], n)
    requires k < |temple| && Same(temple[k].text, Suffix(lines[i].text, n), igncase)
    ensures Listed(temple[k := temple[k].(freq := temple[k].freq + 1)], lines, i + 1, n, igncase)
  {
    hide Same, InList, EntryOk, Suffix;
    var t2 := temple[k := temple[k].(freq := temple[k].freq + 1)];
    assert forall j | 0 <= j < |temple| :: t2[j].text == temple[j].text;
    forall j | 0 <= j < |t2| ensures EntryOk(t2[j], lines, i + 1, n, igncase) {
      assert EntryOk(temple[j], lines, i, n, igncase);
      if j == k {
        EntryCounted(temple[k], lines, i, n, igncase);
      } else {
        OnlyOne(temple, lines, i, n, igncase, k, j);
        EntryStays(temple[j], lines, i, n, igncase);
      }
    }
    forall j | 0 <= j < i + 1 && Offers(lines[j], n) ensures InList(t2, Suffix(lines[j].text, n), igncase) {
      if j < i { InListMore(temple, t2, Suffix(lines[j].text, n), igncase); }
        else { InListAt(t2, k, Suffix(lines[i].text, n), igncase); }
    }
  }

  lemma InListAt(temple: seq<Trailer>, k: nat, s: string, igncase: bool)
    requires k < |temple| && Same(temple[k].text, s, igncase)
    ensures InList(temple, s, igncase)
  {
    hide Same;
  }

  /** A trailer that is not in the list has not occurred yet. */
  lemma NewCount(temple: seq<Trailer>, lines: seq<Line>, i: nat, n: nat, igncase: bool)
    requires i < |lines| && Listed(temple, lines, i, n, igncase) && Offers(lines[i], n)
      && !InList(temple, Suffix(lines[i].text, n), igncase)
    ensures EntryOk(Trailer(Suffix(lines[i].text, n), 1), lines, i + 1, n, igncase)
  {
    hide Same, EntryOk;
    var s := Suffix(lines[i].text, n);
    if Count(lines, i, s, igncase) > 0 {
      var j := CountedLine(lines, i, s, igncase);
      assert InList(temple, Suffix(lines[j].text, n), igncase);
      var k :| 0 <= k < |temple| && Same(temple[k].text, Suffix(lines[j].text, n), igncase);
      SameTrans(temple[k].text, Suffix(lines[j].text, n), s, igncase);
    }
    NewEntry(lines, i, n, igncase);
  }

  lemma NewEntry(lines: seq<Line>, i: nat, n: nat, igncase: bool)
    requires i < |lines| && Offers(lines[i], n) && Count(lines, i, Suffix(lines[i].text, n), igncase) == 0
    ensures EntryOk(Trailer(Suffix(lines[i].text, n), 1), lines, i + 1, n, igncase)
  {
  }

  /** A new trailer is added. */
  lemma AddLine(temple: seq<Trailer>, lines: seq<Line>, i: nat, n: nat, igncase: bool)
    requires i < |lines| && Listed(temple, lines, i, n, igncase) && Offers(lines[i], n)
    requires forall k | 0 <= k < |temple| :: !Same(temple[k].text, Suffix(lines[i].text, n), igncase)
    ensures Listed(temple + [Trailer(Suffix(lines[i].text, n), 1)], lines, i + 1, n, igncase)
  {
    hide EntryOk, Suffix;
    var s := Suffix(lines[i].text, n);
    var t2 := temple + [Trailer(s, 1)];
    NewCount(temple, lines, i, n, igncase);
    forall j | 0 <= j < |t2| ensures EntryOk(t2[j], lines, i + 1, n, igncase) {
      if j < |temple| {
        assert EntryOk(temple[j], lines, i, n, igncase);
        NotThis(temple[j], lines, i, n, igncase);
        EntryStays(temple[j], lines, i, n, igncase);
      }
    }
    assert t2[|temple|].text == s;
    forall j | 0 <= j < i + 1 && Offers(lines[j], n) ensures InList(t2, Suffix(lines[j].text, n), igncase) {
      if j < i { InListMore(temple, t2, Suffix(lines[j].text, n), igncase); }
        else { InListAt(t2, |temple|, s, igncase); }
    }
  }

  lemma NotThis(t: Trailer, lines: seq<Line>, i: nat, n: nat, igncase: bool)
    requires i < |lines| && EntryOk(t, lines, i, n, igncase) && Offers(lines[i], n)
      && !Same(t.text, Suffix(lines[i].text, n), igncase)
    ensures !EndsWith(lines[i], t.text, igncase)
  {
    hide Candidate, Count;
  }

  /** The temporary list for one length. */
  method CreateList(lines: array<Line>, n: nat, igncase: bool) returns (temple: seq<Trailer>)
    ensures Listed(temple, lines[..], lines.Length, n, igncase)
  {
    hide Same, Listed, Candidate, Count;
    temple := [];
    var i := 0;
    NothingListed(lines[..], n, igncase);
    while i < lines.Length
      invariant 0 <= i <= lines.Length && Listed(temple, lines[..], i, n, igncase)
    {
      var p := lines[i];
      assert lines[..][i] == p;
      if !p.active || |p.text| < n {
        SkipLine(temple, lines[..], i, n, igncase);
      } else {
        var candidate := p.text[|p.text| - n..];
        var k := Texist(temple, candidate, igncase);
        if k < |temple| {
          CountLine(temple, lines[..], i, n, igncase, k);
          temple := temple[k := temple[k].(freq := temple[k].freq + 1)];
        } else {
          AddLine(temple, lines[..], i, n, igncase);
          temple := temple + [Trailer(candidate, 1)];
        }
      }
      i := i + 1;
    }
  }

  lemma NothingListed(lines: seq<Line>, n: nat, igncase: bool)
    ensures Listed([], lines, 0, n, igncase)
  {
  }

  lemma ChosenIsBest(temple: seq<Trailer>, lines: seq<Line>, n: nat, igncase: bool, b: nat)
    requires Listed(temple, lines, |lines|, n, igncase) && b < |temple|
      && forall k | 0 <= k < |temple| :: temple[k].freq <= temple[b].freq
    ensures Best(lines, temple[b], igncase) && |temple[b].text| == n
  {
    hide Same, Count, Candidate;
    var t := temple[b];
    assert EntryOk(t, lines, |lines|, n, igncase);
    forall j | 0 <= j < |lines| && Offers(lines[j], n)
      ensures Freq(lines, Suffix(lines[j].text, n), igncase) <= t.freq {
      assert InList(temple, Suffix(lines[j].text, n), igncase);
      var k :| 0 <= k < |temple| && Same(temple[k].text, Suffix(lines[j].text, n), igncase);
      assert EntryOk(temple[k], lines, |lines|, n, igncase);
      CountSame(lines, |lines|, temple[k].text, Suffix(lines[j].text, n), igncase);
    }
  }

  /** The entry of the temporary list that is kept. */
  method ChooseBest(temple: seq<Trailer>, ghost lines: seq<Line>, ghost n: nat,
                    ghost igncase: bool) returns (t: Trailer)
    requires temple != [] && Listed(temple, lines, |lines|, n, igncase)
    ensures Best(lines, t, igncase) && |t.text| == n
  {
    hide Best, Listed;
    var tmostfreq, i := 0, 1;
    while i < |temple|
      invariant 0 <= tmostfreq < i <= |temple| && forall k | 0 <= k < i :: temple[k].freq <= temple[tmostfreq].freq
    {
      if temple[i].freq > temple[tmostfreq].freq {
        tmostfreq := i;
      }
      i := i + 1;
    }
    t := temple[tmostfreq];
    ChosenIsBest(temple, lines, n, igncase, tmostfreq);
  }

  // ---------------------------------------------------------------------------------------
  // The trailers of all lengths

  /** The best trailers of length 1, 2 and so on. */
  ghost predicate BestOnes(trailers: seq<Trailer>, lines: seq<Line>, igncase: bool) {
    forall k | 0 <= k < |trailers| :: Best(lines, trailers[k], igncase) && |trailers[k].text| == k + 1
  }

  /** Where the search stops if no length is preferred. */
  predicate Falls(trailers: seq<Trailer>) {
    var k := |trailers|;
    k > 1 && (trailers[k - 1].freq == 1 || trailers[k - 1].freq < trailers[k - 2].freq)
  }

  lemma SomeTrailer(temple: seq<Trailer>, lines: seq<Line>, n: nat, igncase: bool, i: nat)
    requires Listed(temple, lines, |lines|, n, igncase) && i < |lines| && Offers(lines[i], n)
    ensures temple != []
  {
    hide Same, EntryOk;
    assert InList(temple, Suffix(lines[i].text, n), igncase);
  }

  /** find_a_good_trailer, first loop: one best trailer for each length, up to where the search stops. */
  method BuildTrailers(lines: array<Line>, longest: nat, prefTlen: nat, igncase: bool,
                       ghost i: nat) returns (trailers: seq<Trailer>)
    requires longest >= 1 && i < lines.Length && Offers(lines[i], longest)
    ensures 1 <= |trailers| <= longest && BestOnes(trailers, lines[..], igncase)
    ensures prefTlen == 0 && |trailers| < longest ==> Falls(trailers)
    ensures prefTlen > 0 && |trailers| < longest ==> prefTlen <= |trailers|
  {
    hide Best, Listed;
    trailers := [];
    var curTlen := 1;
    while curTlen <= longest
      invariant 1 <= curTlen <= longest + 1 && |trailers| == curTlen - 1 && BestOnes(trailers, lines[..], igncase)
    {
      var temple := CreateList(lines, curTlen, igncase);
      assert lines[..][i] == lines[i];
      SomeTrailer(temple, lines[..], curTlen, igncase, i);
      var best := ChooseBest(temple, lines[..], curTlen, igncase);
      trailers := trailers + [best];
      if curTlen > 1 {
        if prefTlen > 0 {
          if curTlen >= prefTlen { break; }
        } else {
          if trailers[curTlen - 1].freq == 1 || trailers[curTlen - 1].freq < trailers[curTlen - 2].freq { break; }
        }
      }
      curTlen := curTlen + 1;
    }
  }

  lemma FreqsFall(trailers: seq<Trailer>, lines: seq<Line>, igncase: bool, j: nat, k: nat)
    requires BestOnes(trailers, lines, igncase) && j <= k < |trailers|
    ensures trailers[k].freq <= trailers[j].freq
  {
    hide Count, NoneAbove;
    var t := trailers[k];
    assert Best(lines, t, igncase);
    var i :| 0 <= i < |lines| && Offers(lines[i], |t.text|) && Suffix(lines[i].text, |t.text|) == t.text;
    LongerIsRarer(lines, trailers[j], i, |t.text|, igncase);
  }

  lemma BestPositive(lines: seq<Line>, t: Trailer, igncase: bool)
    requires Best(lines, t, igncase)
    ensures t.freq >= 1
  {
    hide Count;
    var i :| 0 <= i < |lines| && Offers(lines[i], |t.text|) && Suffix(lines[i].text, |t.text|) == t.text;
    CountPositive(lines, |lines|, i, t.text, igncase);
  }

  /** No line is longer than n. */
  predicate LinesUpTo(lines: seq<Line>, n: nat) {
    forall i | 0 <= i < |lines| && lines[i].active :: |lines[i].text| <= n
  }

  /** The length that is chosen when one is preferred: that one, or the longest there is, if it is forced; otherwise a
      shorter one is chosen if all longer ones are less frequent than the most frequent trailers. */
  ghost predicate Prefers(lines: seq<Line>, t: Trailer, picked: Trailer, prefTlen: nat, force: bool, igncase: bool) {
    if force then
      |t.text| <= prefTlen && (|t.text| < prefTlen ==> LinesUpTo(lines, |t.text|))
    else
      && Best(lines, picked, igncase) && picked.freq >= 1 && NoneAbove(lines, 1, picked.freq, igncase)
      && |t.text| == (if prefTlen < |picked.text| then prefTlen else |picked.text|)
      && (|picked.text| < prefTlen ==> NoneAbove(lines, |picked.text| + 1, picked.freq - 1, igncase))
  }

  /** With a preferred length, all trailers up to that length were looked at. */
  lemma PreferredLength(trailers: seq<Trailer>, lines: seq<Line>, igncase: bool, longest: nat, prefTlen: nat, t: nat)
    requires BestOnes(trailers, lines, igncase) && t < |trailers| && LinesUpTo(lines, longest)
      && (|trailers| < longest ==> prefTlen <= |trailers|)
    requires forall j | t < j < |trailers| :: trailers[j].freq < trailers[t].freq
    ensures NoneAbove(lines, 1, trailers[0].freq, igncase) && trailers[t].freq >= 1
    ensures t + 1 < prefTlen ==> NoneAbove(lines, t + 2, trailers[t].freq - 1, igncase)
  {
    hide Count, Best;
    BestBounds(lines, trailers[0], igncase);
    BestPositive(lines, trailers[t], igncase);
    if t + 1 < |trailers| { BestBounds(lines, trailers[t + 1], igncase); }
  }

  /** The last of the most frequent trailers is the longest one of its frequency, among trailers of all
      lengths, if it is shared at all. */
  lemma NothingLost(trailers: seq<Trailer>, lines: seq<Line>, igncase: bool, longest: nat, t: nat)
    requires BestOnes(trailers, lines, igncase) && t < |trailers| && trailers[t].freq >= 2
      && (|trailers| < longest ==> Falls(trailers))
    requires LinesUpTo(lines, longest)
    requires forall j | 0 <= j < |trailers| :: trailers[j].freq <= trailers[t].freq
    requires forall j | t < j < |trailers| :: trailers[j].freq < trailers[t].freq
    ensures NoneAbove(lines, t + 2, trailers[t].freq - 1, igncase)
  {
    hide Count, Best;
    if t + 1 < |trailers| {
      BestBounds(lines, trailers[t + 1], igncase);
    }
  }

  /** find_a_good_trailer, behind the first loop: a length is chosen; picked is the choice before
      blanks at its start make it shorter. */
  method ChooseLength(trailers: seq<Trailer>, prefTlen: nat, force: bool, ghost lines: seq<Line>, ghost igncase: bool,
                      ghost longest: nat)
    returns (t: Trailer, ghost picked: Trailer)
    requires trailers != [] && BestOnes(trailers, lines, igncase)
      && (prefTlen == 0 && |trailers| < longest ==> Falls(trailers))
      && (prefTlen > 0 && |trailers| < longest ==> prefTlen <= |trailers|) && |trailers| <= longest
    requires LinesUpTo(lines, longest)
    ensures Best(lines, t, igncase) && t.text != [] && Best(lines, picked, igncase)
    ensures prefTlen == 0 ==>
      && NoneAbove(lines, 1, t.freq, igncase) && picked.freq == t.freq && |t.text| <= |picked.text|
      && (t.freq >= 2 ==> NoneAbove(lines, |picked.text| + 1, picked.freq - 1, igncase))
      && (|t.text| == 1 || t.text[0] != ' ')
    ensures prefTlen > 0 ==> Prefers(lines, t, picked, prefTlen, force, igncase)
  {
    hide Best, NoneAbove, Falls, LinesUpTo;
    var tmostfreq, curTlen := 0, 1;
    while curTlen < |trailers|
      invariant 0 <= tmostfreq < curTlen <= |trailers|
      invariant forall j | 0 <= j < curTlen :: trailers[j].freq <= trailers[tmostfreq].freq
      invariant forall j | tmostfreq < j < curTlen :: trailers[j].freq < trailers[tmostfreq].freq
    {
      if trailers[curTlen].freq >= trailers[tmostfreq].freq {
        tmostfreq := curTlen;
      }
      curTlen := curTlen + 1;
    }
    picked := trailers[tmostfreq];
    if prefTlen != 0 {
      PreferredLength(trailers, lines, igncase, longest, prefTlen, tmostfreq);
      FreqsFall(trailers, lines, igncase, 0, tmostfreq);
      if force {
        tmostfreq := if prefTlen > |trailers| then |trailers| - 1 else prefTlen - 1;
      } else if prefTlen < tmostfreq + 1 {
        tmostfreq := prefTlen - 1;
      }
    } else {
      FreqsFall(trailers, lines, igncase, 0, tmostfreq);
      if picked.freq >= 2 { NothingLost(trailers, lines, igncase, longest, tmostfreq); }
      curTlen := tmostfreq;
      while curTlen > 0
        invariant curTlen == tmostfreq < |trailers| && |trailers[tmostfreq].text| <= |picked.text|
      {
        if trailers[curTlen].text[0] == ' ' {
          tmostfreq := tmostfreq - 1;
        } else {
          break;
        }
        curTlen := curTlen - 1;
      }
      FreqsFall(trailers, lines, igncase, 0, tmostfreq);
      FreqsFall(trailers, lines, igncase, tmostfreq, |picked.text| - 1);
      BestBounds(lines, trailers[0], igncase);
    }
    t := trailers[tmostfreq];
  }

  datatype Found = NoLines | Found(trailer: Trailer)

  /** find_a_good_trailer.  With no preferred length, the early stop loses nothing: no trailer of any length
      is more frequent, and the trailer picked first is the longest one of that frequency.  A preferred length is
      exceeded never. */
  method FindAGoodTrailer(lines: array<Line>, prefTlen: nat, force: bool,
                          igncase: bool) returns (found: Found, ghost picked: Trailer)
    requires forall i | 0 <= i < lines.Length && lines[i].active :: lines[i].text != []
    ensures found == NoLines <==> forall i | 0 <= i < lines.Length :: !lines[i].active
    ensures found != NoLines ==> Best(lines[..], found.trailer, igncase) && found.trailer.text != []
    ensures found != NoLines && prefTlen == 0 ==> var t := found.trailer;
      && NoneAbove(lines[..], 1, t.freq, igncase) && (|t.text| == 1 || t.text[0] != ' ')
      && Best(lines[..], picked, igncase) && picked.freq == t.freq && |t.text| <= |picked.text|
      && (t.freq >= 2 ==> NoneAbove(lines[..], |picked.text| + 1, picked.freq - 1, igncase))
    ensures found != NoLines && prefTlen > 0 ==> Prefers(lines[..], found.trailer, picked, prefTlen, force, igncase)
  {
    hide Best, NoneAbove, Falls, BestOnes, Prefers;
    var longest := LongestLineLen(lines);
    var anzValines := CountActiveLines(lines);
    picked := Trailer([], 0);
    if anzValines == 0 {
      return NoLines, picked;
    }
    ghost var i :| 0 <= i < lines.Length && lines[i].active && |lines[i].text| == longest;
    var trailers := BuildTrailers(lines, longest, prefTlen, igncase, i);
    var t;
    t, picked := ChooseLength(trailers, prefTlen, force, lines[..], igncase, longest);
    found := Found(t);
  }
}
