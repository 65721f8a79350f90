/** tal, the alignment of trailers (tal-1.9/tal.c, do_stuff_to_lines and output_aligned_lines). */
module TalOutput {
  import opened TalTrailer

  datatype Options = Options(igncase: bool, maxalign: nat, padding: nat, column: nat, fillchar: char,
                             prefTlen: nat, force: bool)

  predicate Blank(c: char) {
    c == ' ' || c == '\t' || c == '\n'
  }

  /** Without the blanks at its end. */
  function Trimmed(s: string): string {
    if s != [] && Blank(s[|s| - 1]) then Trimmed(s[..|s| - 1]) else s
  }

  lemma {:induction false} TrimmedIs(s: string)
    ensures Trimmed(s) <= s && (Trimmed(s) == [] || !Blank(Trimmed(s)[|Trimmed(s)| - 1]))
    ensures forall k | |Trimmed(s)| <= k < |s| :: Blank(s[k])
  {
    if s != [] && Blank(s[|s| - 1]) {
      TrimmedIs(s[..|s| - 1]);
    }
  }

  /** What do_stuff_to_lines makes of a line. */
  function Treated(l: Line, trail: string, o: Options): Line {
    if !EndsWith(l, trail, o.igncase) then
      l.(active := false)
    else
      var t := Trimmed(l.text[..|l.text| - |trail|]);
      if o.maxalign > 0 && |t| + |trail| + o.padding > o.maxalign then
        l.(active := false)
      else
        Line(if |l.orgtext| <= |trail| then t else Trimmed(l.orgtext[..|l.orgtext| - |trail|]), t, true)
  }

  /** The text before the trailer, without the blanks at its end. */
  function TextOf(l: Line, trail: string): string
    requires |trail| <= |l.text|
  {
    Trimmed(l.text[..|l.text| - |trail|])
  }

  /** The lines to align: those considered that end with the trailer and with it, padded, are not too long for -m. */
  predicate Aligns(l: Line, trail: string, o: Options): (aligns: bool)
    ensures aligns ==> |trail| <= |l.text|
  {
    && l.active && |trail| <= |l.text| && Same(l.text[|l.text| - |trail|..], trail, o.igncase)
    && (o.maxalign == 0 || |TextOf(l, trail)| + |trail| + o.padding <= o.maxalign)
  }

  lemma TreatedIs(l: Line, trail: string, o: Options)
    ensures var r := Treated(l, trail, o);
      && (r.active <==> Aligns(l, trail, o))
      && (r.active ==> r.text == TextOf(l, trail) && r.orgtext == OrgTextOf(l, trail))
      && (!r.active ==> r.orgtext == l.orgtext)
  {
    hide Trimmed;
  }

  /** What is left of the line as it was read. */
  function OrgTextOf(l: Line, trail: string): string
    requires |trail| <= |l.text|
  {
    if |l.orgtext| <= |trail| then TextOf(l, trail) else Trimmed(l.orgtext[..|l.orgtext| - |trail|])
  }

  /** The first n characters, without the blanks at their end. */
  method Cut(s: string, n: nat) returns (t: string)
    requires n <= |s|
    ensures t == Trimmed(s[..n])
  {
    var p := n;
    while p > 0 && Blank(s[p - 1])
      invariant 0 <= p <= n && Trimmed(s[..p]) == Trimmed(s[..n])
    {
      assert s[..p][..p - 1] == s[..p - 1];
      p := p - 1;
    }
    t := s[..p];
  }

  /** do_stuff_to_lines */
  method DoStuffToLines(lines: array<Line>, trail: string, o: Options)
    modifies lines
    ensures forall i | 0 <= i < lines.Length :: lines[i] == Treated(old(lines[i]), trail, o)
  {
    var i := 0;
    while i < lines.Length
      invariant 0 <= i <= lines.Length
      invariant forall j | 0 <= j < i :: lines[j] == Treated(old(lines[j]), trail, o)
      invariant forall j | i <= j < lines.Length :: lines[j] == old(lines[j])
    {
      lines[i] := TreatLine(lines[i], trail, o);
      i := i + 1;
    }
  }

  method TreatLine(l: Line, trail: string, o: Options) returns (r: Line)
    ensures r == Treated(l, trail, o)
  {
    r := l;
    if !l.active { return; }
    if |l.text| < |trail| || !Same(l.text[|l.text| - |trail|..], trail, o.igncase) {
      r := l.(active := false);
      return;
    }
    var temp := Cut(l.text, |l.text| - |trail|);
    if o.maxalign > 0 && |temp| + |trail| + o.padding > o.maxalign {
      r := l.(active := false);
    } else if |l.orgtext| <= |trail| {
      r := Line(temp, temp, true);
    } else {
      var org := Cut(l.orgtext, |l.orgtext| - |trail|);
      r := Line(org, temp, true);
    }
  }

  // ---------------------------------------------------------------------------------------
  // Output

  function Filled(c: char, n: nat): string {
    seq(n, _ => c)
  }

  /** What printf prints of a buffer: everything before the first zero. */
  function CString(s: seq<char>): string {
    if s == [] || s[0] == '\0' then [] else [s[0]] + CString(s[1..])
  }

  lemma {:induction false} CStringIs(s: seq<char>, n: nat, c: char)
    requires n < |s| && s[n] == '\0' && c != '\0' && forall k | 0 <= k < n :: s[k] == c
    ensures CString(s) == Filled(c, n)
  {
    if n > 0 {
      CStringIs(s[1..], n - 1, c);
      assert Filled(c, n) == [c] + Filled(c, n - 1);
    } else {
      assert Filled(c, 0) == [];
    }
  }

  function FillSize(newlen: nat, l: Line, trail: string): nat {
    if newlen < |l.text| + |trail| then 0 else newlen - |l.text| - |trail|
  }

  /** The line as it is put out. */
  function Aligned(l: Line, trail: string, newlen: nat, fillchar: char): string {
    if l.active then l.orgtext + Filled(fillchar, FillSize(newlen, l, trail)) + trail else l.orgtext
  }

  /** The length of aligned lines. */
  function NewLen(longest: nat, trail: string, o: Options): nat {
    if o.column > 0 && (o.maxalign == 0 || o.column <= o.maxalign) then o.column else longest + |trail| + o.padding
  }

  /** The longest considered line has so many characters, and lines are to be aligned to newlen. */
  predicate LongestIs(lines: seq<Line>, longest: nat, newlen: nat, trail: string, o: Options) {
    && newlen == NewLen(longest, trail, o)
    && (forall i | 0 <= i < |lines| && lines[i].active :: |lines[i].text| <= longest)
    && (longest == 0 || exists i :: 0 <= i < |lines| && lines[i].active && |lines[i].text| == longest)
  }

  /** output_aligned_lines: one buffer of fill characters serves for all lines. */
  method OutputAlignedLines(lines: array<Line>, outputInput: bool, trail: string,
                            o: Options) returns (out: seq<string>, newlen: nat)
    requires o.fillchar != '\0'
    ensures |out| == lines.Length
    ensures outputInput ==> forall i | 0 <= i < |out| :: out[i] == lines[i].orgtext
    ensures !outputInput ==> exists longest: nat ::
      && LongestIs(lines[..], longest, newlen, trail, o)
      && (forall i | 0 <= i < |out| :: out[i] == Aligned(lines[i], trail, newlen, o.fillchar))
  {
    out, newlen := [], 0;
    if outputInput {
      var i := 0;
      while i < lines.Length
        invariant 0 <= i <= lines.Length && |out| == i && forall j | 0 <= j < i :: out[j] == lines[j].orgtext
      {
        out := out + [lines[i].orgtext];
        i := i + 1;
      }
    } else {
      var longest := LongestLineLen(lines);
      newlen := NewLen(longest, trail, o);
      LongestFound(lines[..], longest, trail, o);
      var sfill := new char[newlen + 1](_ => o.fillchar);
      var fp, i := 0, 0;
      while i < lines.Length
        invariant 0 <= i <= lines.Length && |out| == i && 0 <= fp <= newlen
        invariant forall k | 0 <= k <= newlen && k != fp :: sfill[k] == o.fillchar
        invariant forall j | 0 <= j < i :: out[j] == Aligned(lines[j], trail, newlen, o.fillchar)
      {
        if !lines[i].active {
          out := out + [lines[i].orgtext];
        } else {
          sfill[fp] := o.fillchar;
          var fillsize: int := newlen - |lines[i].text| - |trail|;
          if fillsize < 0 { fillsize := 0; }
          fp := fillsize;
          sfill[fp] := '\0';
          CStringIs(sfill[..], fp, o.fillchar);
          out := out + [lines[i].orgtext + CString(sfill[..]) + trail];
        }
        i := i + 1;
      }
      assert LongestIs(lines[..], longest, newlen, trail, o);
    }
  }

  lemma LongestFound(lines: seq<Line>, longest: nat, trail: string, o: Options)
    requires forall i | 0 <= i < |lines| && lines[i].active :: |lines[i].text| <= longest
    requires longest == 0 || exists i :: 0 <= i < |lines| && lines[i].active && |lines[i].text| == longest
    ensures LongestIs(lines, longest, NewLen(longest, trail, o), trail, o)
  {
  }

  // ---------------------------------------------------------------------------------------
  // All of tal

  /** The common column was asked for, and is not beyond the limit for aligned lines. */
  predicate ColumnGiven(o: Options) {
    o.column > 0 && (o.maxalign == 0 || o.column <= o.maxalign)
  }

  /** How many fill characters bring the trailer to where newlen characters end: none if the text is too long. */
  function Gap(l: Line, trail: string, newlen: nat): nat
    requires |trail| <= |l.text|
  {
    var n := |TextOf(l, trail)| + |trail|;
    if newlen < n then 0 else newlen - n
  }

  /** out is what is left of the line, fill characters, and the trailer, in this order; a line without tabs keeps its
      text. */
  predicate AlignedFrom(l: Line, out: string, trail: string, newlen: nat, o: Options)
    requires |trail| <= |l.text|
  {
    var org, n := OrgTextOf(l, trail), Gap(l, trail, newlen);
    && |out| == |org| + n + |trail| && out[..|org|] == org && out[|org| + n..] == trail
    && (forall k | |org| <= k < |org| + n :: out[k] == o.fillchar)
    && (l.orgtext == l.text ==> org == TextOf(l, trail))
  }

  /** The lines whose trailer is moved end where they shall, or where the longest of them, padded, ends. */
  predicate Column(before: seq<Line>, trail: string, o: Options, newlen: nat) {
    if ColumnGiven(o) then newlen == o.column else
    && (forall i | 0 <= i < |before| && Aligns(before[i], trail, o) ::
          |TextOf(before[i], trail)| + |trail| + o.padding <= newlen)
    && (newlen == |trail| + o.padding || exists i :: 0 <= i < |before| && Aligns(before[i], trail, o)
                                                     && |TextOf(before[i], trail)| + |trail| + o.padding == newlen)
  }

  lemma TreatedAligned(l: Line, trail: string, o: Options, longest: nat)
    requires Treated(l, trail, o).active ==> |Treated(l, trail, o).text| <= longest
    ensures var r, n := Treated(l, trail, o), NewLen(longest, trail, o);
      var out := Aligned(r, trail, n, o.fillchar);
      if Aligns(l, trail, o) then AlignedFrom(l, out, trail, n, o) else out == l.orgtext
  {
    hide Treated, Trimmed, Same;
    var r, n := Treated(l, trail, o), NewLen(longest, trail, o);
    TreatedIs(l, trail, o);
    if r.active {
      if l.orgtext == l.text && |l.orgtext| <= |trail| { assert l.text[..0] == []; }
      var f := FillSize(n, r, trail);
      var out := r.orgtext + Filled(o.fillchar, f) + trail;
      assert out[..|r.orgtext|] == r.orgtext && out[|r.orgtext| + f..] == trail;
    }
  }

  /** What find_a_good_trailer promises about its result. */
  ghost predicate GoodTrailer(lines: seq<Line>, found: Found, o: Options) {
    && (found == NoLines <==> forall i | 0 <= i < |lines| :: !lines[i].active)
    && (found != NoLines ==> Best(lines, found.trailer, o.igncase) && found.trailer.text != [])
    && (found != NoLines && o.prefTlen == 0 ==>
          && NoneAbove(lines, 1, found.trailer.freq, o.igncase)
          && (|found.trailer.text| == 1 || found.trailer.text[0] != ' '))
  }

  /** No two considered lines have a trailer in common. */
  ghost predicate NothingShared(lines: seq<Line>, igncase: bool) {
    NoneAbove(lines, 1, 1, igncase)
  }

  /** Without a preferred length, the found trailer is shared just if any is. */
  lemma SharedIsFound(lines: seq<Line>, found: Found, o: Options)
    requires GoodTrailer(lines, found, o) && o.prefTlen == 0
    ensures found == NoLines || found.trailer.freq < 2 <==> NothingShared(lines, o.igncase)
  {
    hide Freq;
    if found != NoLines && NothingShared(lines, o.igncase) {
      var t := found.trailer.text;
      var i :| 0 <= i < |lines| && Offers(lines[i], |t|) && Suffix(lines[i].text, |t|) == t;
      assert Freq(lines, Suffix(lines[i].text, |t|), o.igncase) <= 1;
    }
  }

  /** The trailer for all lines: the one the user gave, or one that is found; and whether the lines are put
      out as they are. */
  method UsedTrailer(lines: array<Line>, given: Found, o: Options) returns (used: Found, outputInput: bool)
    requires forall i | 0 <= i < lines.Length && lines[i].active :: lines[i].text != []
    ensures given != NoLines ==> used == given && !outputInput
    ensures given == NoLines ==> GoodTrailer(lines[..], used, o)
    ensures given == NoLines ==> (outputInput <==> used == NoLines || used.trailer.freq < 2)
  {
    hide Best, NoneAbove;
    if given != NoLines {
      used, outputInput := given, false;
    } else {
      ghost var picked;
      used, picked := FindAGoodTrailer(lines, o.prefTlen, o.force, o.igncase);
      outputInput := used == NoLines || used.trailer.freq < 2;
    }
  }

  /** tal, on lines as they were read.  The lines that end with the trailer, and are not too long
      for -m, are put out with the trailer at one common column, behind their text; all others as they were. */
  method Tal(lines: array<Line>, given: Found, o: Options)
    returns (out: seq<string>, used: Found, outputInput: bool, newlen: nat)
    requires o.fillchar != '\0' && forall i | 0 <= i < lines.Length && lines[i].active :: lines[i].text != []
    modifies lines
    ensures |out| == lines.Length
    ensures given != NoLines ==> used == given && !outputInput
    ensures given == NoLines ==> GoodTrailer(old(lines[..]), used, o)
    ensures given == NoLines ==> (outputInput <==> used == NoLines || used.trailer.freq < 2)
    ensures outputInput ==> forall i | 0 <= i < |out| :: out[i] == old(lines[i].orgtext)
    ensures !outputInput ==> used != NoLines && Column(old(lines[..]), used.trailer.text, o, newlen)
    ensures !outputInput ==> forall i | 0 <= i < |out| ::
      if Aligns(old(lines[i]), used.trailer.text, o) then
        AlignedFrom(old(lines[i]), out[i], used.trailer.text, newlen, o) && (o.maxalign > 0 ==> newlen <= o.maxalign)
      else
        out[i] == old(lines[i].orgtext)
  {
    hide Aligned, Treated, AlignedFrom, GoodTrailer, Column, Aligns;
    used, outputInput := UsedTrailer(lines, given, o);
    ghost var before := lines[..];
    var trail := if used == NoLines then [] else used.trailer.text;
    if !outputInput {
      DoStuffToLines(lines, trail, o);
    }
    out, newlen := OutputAlignedLines(lines, outputInput, trail, o);
    if !outputInput {
      ghost var longest: nat :| LongestIs(lines[..], longest, newlen, trail, o)
        && forall i | 0 <= i < |out| :: out[i] == Aligned(lines[i], trail, newlen, o.fillchar);
      assert forall i | 0 <= i < |before| :: lines[..][i] == Treated(before[i], trail, o);
      CommonColumn(before, lines[..], trail, o, longest, newlen);
      forall i | 0 <= i < |out|
        ensures if Aligns(before[i], trail, o) then
                  AlignedFrom(before[i], out[i], trail, newlen, o) && (o.maxalign > 0 ==> newlen <= o.maxalign)
                else out[i] == before[i].orgtext
      {
        assert lines[..][i] == lines[i] == Treated(before[i], trail, o);
        TreatedAligned(before[i], trail, o, longest);
        TreatedIs(before[i], trail, o);
        if lines[i].active { WithinMaxalign(before, lines[..], trail, o, longest, i); }
      }
    }
  }

  lemma CommonColumn(before: seq<Line>, after: seq<Line>, trail: string, o: Options, longest: nat, newlen: nat)
    requires |after| == |before| && (forall i | 0 <= i < |after| :: after[i] == Treated(before[i], trail, o))
    requires LongestIs(after, longest, newlen, trail, o)
    ensures Column(before, trail, o, newlen)
  {
    hide Treated, Aligns, TextOf;
    forall i | 0 <= i < |before| ensures after[i].active <==> Aligns(before[i], trail, o) {
      TreatedIs(before[i], trail, o);
    }
    forall i | 0 <= i < |before| && Aligns(before[i], trail, o)
      ensures |trail| <= |before[i].text| && after[i].text == TextOf(before[i], trail) {
      TreatedIs(before[i], trail, o);
    }
    if longest != 0 && !ColumnGiven(o) {
      var i :| 0 <= i < |after| && after[i].active && |after[i].text| == longest;
      assert |TextOf(before[i], trail)| + |trail| + o.padding == newlen;
    }
  }

  /** Lines that are too long for -m are not aligned, so the others determine the column. */
  lemma WithinMaxalign(before: seq<Line>, after: seq<Line>, trail: string, o: Options, longest: nat, k: nat)
    requires |after| == |before| && (forall i | 0 <= i < |after| :: after[i] == Treated(before[i], trail, o))
    requires k < |after| && after[k].active
      && LongestIs(after, longest, NewLen(longest, trail, o), trail, o)
    ensures o.maxalign > 0 ==> NewLen(longest, trail, o) <= o.maxalign
  {
  }
}
