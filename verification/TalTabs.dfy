/** tal, lines with tabs (tal-1.9/tal.c, expand_tabs_into, and the cut of orgtext in do_stuff_to_lines). */
module TalTabs {
  import opened TalTrailer
  import opened TalOutput

  /** How many columns a tab at column c takes. */
  function TabWidth(c: nat, tabstop: nat): (w: nat)
    requires tabstop > 0
    ensures 0 < w <= tabstop
  {
    tabstop - c % tabstop
  }

  /** A tab leads to the next multiple of the tab stop. */
  lemma ToTabStop(c: nat, tabstop: nat)
    requires tabstop > 0
    ensures c + TabWidth(c, tabstop) == tabstop * (c / tabstop + 1) > c
  {
  }

  function First(x: char, c: nat, tabstop: nat): (s: string)
    requires tabstop > 0
    ensures |s| > 0 && '\t' !in s && (x != '\t' ==> s == [x]) && (Blank(x) ==> forall k | 0 <= k < |s| :: Blank(s[k]))
  {
    if x == '\t' then Filled(' ', TabWidth(c, tabstop)) else [x]
  }

  /** What s looks like from column c on. */
  function Expand(s: string, c: nat, tabstop: nat): string
    requires tabstop > 0
  {
    if s == [] then [] else First(s[0], c, tabstop) + Expand(s[1..], c + |First(s[0], c, tabstop)|, tabstop)
  }

  predicate NoTabs(s: string) {
    '\t' !in s
  }

  lemma Associative(a: string, b: string, c: string)
    ensures a + (b + c) == a + b + c
  {
  }

  lemma {:induction false} ExpandSplit(p: string, q: string, c: nat, tabstop: nat)
    requires tabstop > 0
    ensures Expand(p + q, c, tabstop) == Expand(p, c, tabstop) + Expand(q, c + |Expand(p, c, tabstop)|, tabstop)
  {
    hide First;
    if p == [] {
      assert p + q == q;
    } else {
      var first := First(p[0], c, tabstop);
      assert (p + q)[1..] == p[1..] + q && (p + q)[0] == p[0];
      var e, f := Expand(p[1..], c + |first|, tabstop),
        Expand(q, c + |first| + |Expand(p[1..], c + |first|, tabstop)|, tabstop);
      ExpandSplit(p[1..], q, c + |first|, tabstop);
      assert Expand(p, c, tabstop) == first + e;
      Associative(first, e, f);
    }
  }

  lemma {:induction false} ExpandIs(s: string, c: nat, tabstop: nat)
    requires tabstop > 0
    ensures NoTabs(Expand(s, c, tabstop)) && |s| <= |Expand(s, c, tabstop)|
    ensures NoTabs(s) ==> Expand(s, c, tabstop) == s
  {
    hide First;
    if s != [] { ExpandIs(s[1..], c + |First(s[0], c, tabstop)|, tabstop); }
  }

  /** expand_tabs_into */
  method ExpandTabsInto(input: string, tabstop: nat) returns (text: string)
    requires tabstop > 0
    ensures text == Expand(input, 0, tabstop)
  {
    text := [];
    var ii := 0;
    while ii < |input|
      invariant 0 <= ii <= |input| && text == Expand(input[..ii], 0, tabstop)
    {
      assert input[..ii + 1] == input[..ii] + [input[ii]];
      ExpandSplit(input[..ii], [input[ii]], 0, tabstop);
      if input[ii] == '\t' {
        var io := |text|;
        var jp := io + tabstop - io % tabstop;
        ghost var before := text;
        while io < jp
          invariant |before| <= io <= jp && text == before + Filled(' ', io - |before|)
        {
          text := text + [' '];
          io := io + 1;
        }
      } else {
        text := text + [input[ii]];
      }
      ii := ii + 1;
    }
    assert input[..ii] == input;
  }

  // ---------------------------------------------------------------------------------------
  // Trimming

  lemma {:induction false} TrimmedMore(s: string, blanks: string)
    requires forall k | 0 <= k < |blanks| :: Blank(blanks[k])
    ensures Trimmed(s + blanks) == Trimmed(s)
  {
    if blanks == [] {
      assert s + blanks == s;
    } else {
      assert (s + blanks)[..|s + blanks| - 1] == s + blanks[..|blanks| - 1];
      TrimmedMore(s, blanks[..|blanks| - 1]);
    }
  }

  /** Trimming before or after tabs are expanded comes to the same. */
  lemma {:induction false} TrimmedExpand(s: string, c: nat, tabstop: nat)
    requires tabstop > 0
    ensures Trimmed(Expand(s, c, tabstop)) == Expand(Trimmed(s), c, tabstop)
  {
    hide First;
    if s != [] {
      var p, x := s[..|s| - 1], s[|s| - 1];
      assert s == p + [x];
      ExpandSplit(p, [x], c, tabstop);
      var e := Expand([x], c + |Expand(p, c, tabstop)|, tabstop);
      assert e == First(x, c + |Expand(p, c, tabstop)|, tabstop) + [];
      if Blank(x) {
        TrimmedExpand(p, c, tabstop);
        TrimmedMore(Expand(p, c, tabstop), e);
      }
    }
  }

  // ---------------------------------------------------------------------------------------
  // The cut of orgtext

  /** As read_all_input leaves a line. */
  predicate Read(l: Line, tabstop: nat)
    requires tabstop > 0
  {
    l.text == Expand(l.orgtext, 0, tabstop)
  }

  /** Between where the cut of orgtext falls and where the trailer begins in text there are only blanks. */
  predicate OnlyBlanksLost(l: Line, trail: string, tabstop: nat)
    requires tabstop > 0 && |trail| <= |l.text|
  {
    |l.orgtext| > |trail| ==>
      forall k | |Expand(l.orgtext[..|l.orgtext| - |trail|], 0, tabstop)| <= k < |l.text| - |trail| :: Blank(l.text[k])
  }

  /** The same, of the strings alone. */
  lemma CutStrings(org: string, n: nat, tabstop: nat)
    requires tabstop > 0 && n < |org|
    ensures |org| <= |Expand(org, 0, tabstop)|
    ensures var p, text := org[..|org| - n], Expand(org, 0, tabstop);
      var e, x := Expand(p, 0, tabstop), text[..|text| - n];
      && |e| <= |x|
      && (Expand(Trimmed(p), 0, tabstop) == Trimmed(x) <==> forall k | |e| <= k < |text| - n :: Blank(text[k]))
  {
    hide Expand, Trimmed, Blank;
    var p, q, text := org[..|org| - n], org[|org| - n..], Expand(org, 0, tabstop);
    assert org == p + q;
    ExpandSplit(p, q, 0, tabstop);
    ExpandIs(org, 0, tabstop);
    var e := Expand(p, 0, tabstop);
    ExpandIs(q, |e|, tabstop);
    var x := text[..|text| - n];
    var gap := x[|e|..];
    assert x == e + gap;
    TrimmedExpand(p, 0, tabstop);
    TrimmedIs(e);
    TrimmedIs(x);
    if forall k | |e| <= k < |text| - n :: Blank(text[k]) {
      forall k | 0 <= k < |gap| ensures Blank(gap[k]) { assert gap[k] == text[|e| + k]; }
      TrimmedMore(e, gap);
    } else {
      var k :| |e| <= k < |text| - n && !Blank(text[k]);
      assert text[k] == x[k];
    }
  }

  /** do_stuff_to_lines cuts as many characters from orgtext as the trailer has in text.  What is left of the two looks
      the same if, and only if, no other characters than blanks lie in between. */
  lemma CutAlike(l: Line, trail: string, tabstop: nat)
    requires tabstop > 0 && Read(l, tabstop) && |trail| <= |l.text|
    ensures Expand(OrgTextOf(l, trail), 0, tabstop) == TextOf(l, trail) <==> OnlyBlanksLost(l, trail, tabstop)
  {
    hide Expand, Trimmed, Blank;
    if |l.orgtext| <= |trail| {
      ExpandIs(l.orgtext, 0, tabstop);
      var x := l.text[..|l.text| - |trail|];
      TrimmedIs(x);
      assert NoTabs(Trimmed(x)) by { assert forall c | c in Trimmed(x) :: c in x && c in l.text; }
      ExpandIs(Trimmed(x), 0, tabstop);
    } else {
      CutStrings(l.orgtext, |trail|, tabstop);
    }
  }

  /** A line whose cut is right is put out with the look of its text, and the trailer in the common column. */
  lemma LooksAligned(l: Line, trail: string, o: Options, tabstop: nat, newlen: nat, out: string)
    requires tabstop > 0 && Read(l, tabstop) && Aligns(l, trail, o) && o.fillchar != '\t'
    requires OnlyBlanksLost(l, trail, tabstop) && AlignedFrom(l, out, trail, newlen, o)
    ensures var fill := seq(Gap(l, trail, newlen), _ => o.fillchar);
      Expand(out, 0, tabstop) == TextOf(l, trail) + fill + trail
  {
    hide *;
    var org, text, n := OrgTextOf(l, trail), TextOf(l, trail), Gap(l, trail, newlen);
    var fill := seq(n, _ => o.fillchar);
    CutAlike(l, trail, tabstop);
    TrailHasNoTabs(l, trail, o, tabstop);
    OutIs(l, trail, o, newlen, out);
    ExpandSplit(org, fill + trail, 0, tabstop);
    FillTabs(fill, trail, o.fillchar);
    ExpandIs(fill + trail, |text|, tabstop);
    Associative(text, fill, trail);
  }

  lemma FillTabs(fill: string, trail: string, c: char)
    requires NoTabs(trail) && c != '\t' && forall k | 0 <= k < |fill| :: fill[k] == c
    ensures NoTabs(fill + trail)
  {
  }

  lemma OutIs(l: Line, trail: string, o: Options, newlen: nat, out: string)
    requires |trail| <= |l.text| && AlignedFrom(l, out, trail, newlen, o)
    ensures out == OrgTextOf(l, trail) + (seq(Gap(l, trail, newlen), _ => o.fillchar) + trail)
  {
    hide OrgTextOf, TextOf, Gap;
    var org, n := OrgTextOf(l, trail), Gap(l, trail, newlen);
    var fill := seq(n, _ => o.fillchar);
    assert out[|org|..|org| + n] == fill;
    assert out == out[..|org|] + (out[|org|..|org| + n] + out[|org| + n..]);
  }

  lemma TrailHasNoTabs(l: Line, trail: string, o: Options, tabstop: nat)
    requires tabstop > 0 && Read(l, tabstop) && Aligns(l, trail, o)
    ensures NoTabs(trail)
  {
    hide Trimmed, Expand;
    ExpandIs(l.orgtext, 0, tabstop);
    var s := Suffix(l.text, |trail|);
    forall k | 0 <= k < |trail| ensures trail[k] != '\t' {
      assert s[k] in l.text;
    }
  }

  /** With tab stops of 8, a line "foo }", a tab and "x" has the trailer "}   x"; cutting it off
      leaves "fo" of "foo". */
  lemma TextLost(o: Options)
    requires o.maxalign == 0
    ensures var l, trail := Line("foo }\tx", "foo }   x", true), "}   x";
      && Read(l, 8) && Aligns(l, trail, o) && TextOf(l, trail) == "foo" && OrgTextOf(l, trail) == "fo"
      && !OnlyBlanksLost(l, trail, 8)
  {
    hide Expand, Trimmed;
    var l, trail := Line("foo }\tx", "foo }   x", true), "}   x";
    SomeTab();
    assert "foo }\tx" == "foo }" + "\tx";
    assert l.text[|l.text| - |trail|..] == trail;
    assert l.text[..4] == "foo " && l.orgtext[..2] == "fo";
    TrimmedMore("foo", " ");
    assert "foo" + " " == "foo ";
    TrimmedIs("foo");
    TrimmedIs("fo");
    Ends("foo");
    Ends("fo");
    ExpandIs("fo", 0, 8);
    assert !Blank(l.text[2]);
  }

  lemma SomeTab()
    ensures Expand("foo }" + "\tx", 0, 8) == "foo }   x"
  {
    hide Expand;
    ExpandIs("foo }", 0, 8);
    ExpandIs("x", 8, 8);
    OneTab();
    ExpandSplit("\t", "x", 5, 8);
    assert "\t" + "x" == "\tx";
    ExpandSplit("foo }", "\tx", 0, 8);
  }

  lemma OneTab()
    ensures Expand("\t", 5, 8) == "   "
  {
    assert First('\t', 5, 8) == "   ";
  }

  lemma Ends(s: string)
    requires s != [] && !Blank(s[|s| - 1])
    ensures Trimmed(s) == s
  {
  }
}
