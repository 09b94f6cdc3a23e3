/** What a pattern matches (sections 6.4.1 and 6.4.2 of the Lua 5.2 manual), said
    without the search: which bytes an item stands for, how often it is repeated,
    and which of the possible matches is the result. */
module PatternClasses {
  import opened Patterns

  // ------------------------------------------------------------ named classes

  /** The bytes of %a, %c, %d, %g, %l, %p, %s, %u, %w, %x and %z, as ranges. */
  const NAMED: map<Byte, seq<(Byte, Byte)>> := map[
    97 := [(65, 90), (97, 122)],
    99 := [(0, 31), (127, 127)],
    100 := [(48, 57)],
    103 := [(33, 126)],
    108 := [(97, 122)],
    112 := [(33, 47), (58, 64), (91, 96), (123, 126)],
    115 := [(9, 13), (32, 32)],
    117 := [(65, 90)],
    119 := [(48, 57), (65, 90), (97, 122)],
    120 := [(48, 57), (65, 70), (97, 102)],
    122 := [(0, 0)]]

  predicate InRanges(c: Byte, ranges: seq<(Byte, Byte)>) { exists i :: 0 <= i < |ranges| && ranges[i].0 <= c <= ranges[i].1 }

  /** An escaped byte stands for its class, in upper case for all other bytes,
      and for itself when it names no class. */
  predicate InNamed(c: Byte, l: Byte) {
    if l in NAMED then InRanges(c, NAMED[l])
    else if 65 <= l <= 90 && l + 32 in NAMED then !InRanges(c, NAMED[l + 32])
    else c == l
  }

  lemma FourRanges(c: Byte, ranges: seq<(Byte, Byte)>)
    requires |ranges| <= 4
    ensures InRanges(c, ranges) <==>
              ((|ranges| > 0 && ranges[0].0 <= c <= ranges[0].1) || (|ranges| > 1 && ranges[1].0 <= c <= ranges[1].1)
               || (|ranges| > 2 && ranges[2].0 <= c <= ranges[2].1) || (|ranges| > 3 && ranges[3].0 <= c <= ranges[3].1))
  {}

  lemma NamedLower(c: Byte, l: Byte)
    requires l in NAMED
    ensures InClass(c, l) <==> InRanges(c, NAMED[l])
  {
    FourRanges(c, NAMED[l]);
    hide InRanges;
  }

  lemma NamedUpper(c: Byte, l: Byte)
    requires 65 <= l <= 90 && l + 32 in NAMED
    ensures InClass(c, l) <==> !InClass(c, l + 32)
  {}

  /** The classes are those ranges. */
  lemma NamedIs(c: Byte, l: Byte)
    ensures InClass(c, l) <==> InNamed(c, l)
  {
    if l in NAMED {
      NamedLower(c, l);
    } else if 65 <= l <= 90 && l + 32 in NAMED {
      NamedUpper(c, l);
      NamedLower(c, l + 32);
    }
  }

  // ------------------------------------------------------ sets and single items

  /** A part of a set: a byte, a range, or an escaped byte. */
  datatype Element = One(c: Byte) | Range(lo: Byte, hi: Byte) | Escaped(l: Byte)

  /** What stands for one character of the subject. */
  datatype Class = Any | Char(c: Byte) | Letter(l: Byte) | Set(complement: bool, elements: seq<Element>)

  predicate InElement(c: Byte, e: Element) {
    match e
    case One(x) => c == x
    case Range(lo, hi) => lo <= c <= hi
    case Escaped(l) => InNamed(c, l)
  }

  predicate Contains(cl: Class, c: Byte) {
    match cl
    case Any => true
    case Char(x) => c == x
    case Letter(l) => InNamed(c, l)
    case Set(complement, elements) => (exists i :: 0 <= i < |elements| && InElement(c, elements[i])) != complement
  }

  // How they are written.

  function ElementText(e: Element): (t: seq<Byte>)
    ensures |t| > 0
  {
    match e
    case One(x) => [x]
    case Range(lo, hi) => [lo, 45, hi]
    case Escaped(l) => [37, l]
  }

  function ElementsText(es: seq<Element>): seq<Byte> {
    if es == [] then [] else ElementText(es[0]) + ElementsText(es[1..])
  }

  function ClassText(cl: Class): seq<Byte> {
    match cl
    case Any => [46]
    case Char(x) => [x]
    case Letter(l) => [37, l]
    case Set(complement, elements) => [91] + (if complement then [94] else []) + ElementsText(elements) + [93]
  }

  /** The set can be read back: no element begins with % by itself, a closing
      bracket is the first byte or escaped, no range ends with a bracket or %,
      and a minus that is no range is the last element, or follows an escape. */
  predicate ElementsPlain(es: seq<Element>, first: bool)
    decreases |es|
  {
    es == [] || (
      && (match es[0]
          case One(x) => x != 37 && (x == 93 ==> first) && (|es| > 1 && ElementText(es[1])[0] == 45 ==> es[1] == One(45) && |es| == 2)
          case Range(lo, hi) => lo != 37 && (lo == 93 ==> first) && hi != 37 && hi != 93
          case Escaped(l) => true)
      && ElementsPlain(es[1..], false))
  }

  /** A byte that is an item by itself; at the end of a pattern a dollar is not. */
  predicate ClassPlain(cl: Class) {
    match cl
    case Any => true
    case Char(x) => x != 37 && x != 46 && x != 91 && x != 40 && x != 41
    case Letter(l) => l != 98 && l != 102 && !(48 <= l <= 57)
    case Set(complement, elements) =>
      elements != [] && ElementsPlain(elements, true) && (!complement ==> ElementText(elements[0])[0] != 94)
  }

  /** The text `t` is in the pattern at `p`. */
  predicate TextAt(pat: seq<Byte>, p: nat, t: seq<Byte>) { p + |t| <= |pat| && pat[p..p + |t|] == t }

  lemma TextParts(pat: seq<Byte>, p: nat, t: seq<Byte>, u: seq<Byte>)
    requires TextAt(pat, p, t + u)
    ensures TextAt(pat, p, t) && TextAt(pat, p + |t|, u)
  {
    assert pat[p..p + |t + u|][..|t|] == t && pat[p..p + |t + u|][|t|..] == u;
  }

  lemma TextByte(pat: seq<Byte>, p: nat, t: seq<Byte>, i: nat)
    requires TextAt(pat, p, t) && i < |t|
    ensures p + i < |pat| && pat[p + i] == t[i]
  {
    assert pat[p..p + |t|][i] == pat[p + i];
  }

  /** The first element of a set, as the two loops see it. */
  lemma ElementStep(pat: seq<Byte>, p: nat, es: seq<Element>, first: bool)
    requires es != [] && ElementsPlain(es, first) && TextAt(pat, p, ElementsText(es) + [93])
    ensures TextAt(pat, p, ElementText(es[0])) && TextAt(pat, p + |ElementText(es[0])|, ElementsText(es[1..]) + [93])
    ensures var e, q := es[0], p + |ElementText(es[0])|;
      && (e.One? ==> pat[p] == e.c) && (e.Range? ==> pat[p] == e.lo && pat[p + 1] == 45 && pat[p + 2] == e.hi)
      && (e.Escaped? ==> pat[p] == 37 && pat[p + 1] == e.l)
      && q < |pat| && (e.One? && pat[q] == 45 && q + 1 < |pat| ==> es[1..] == [One(45)] && pat[q + 1] == 93)
      && (pat[q] == 93 ==> es[1..] == [])
  {
    var t, u := ElementText(es[0]), ElementsText(es[1..]) + [93];
    assert ElementsText(es) + [93] == t + u;
    TextParts(pat, p, t, u);
    TextByte(pat, p + |t|, u, 0);
    forall i: nat | i < |t| ensures pat[p + i] == t[i] { TextByte(pat, p, t, i); }
    if |es| > 1 {
      assert es[1..][0] == es[1] && u[0] == ElementText(es[1])[0];
      if es[0].One? && u[0] == 45 {
        assert es[1..] == [One(45)] && es[1..][1..] == [];
        assert ElementsText(es[1..]) == [45] + ElementsText([]);
        TextByte(pat, p + |t|, u, 1);
      }
    }
  }

  /** classend finds the bracket that closes the set. */
  lemma {:induction false} SetEnds(pat: seq<Byte>, p: nat, es: seq<Element>, first: bool)
    requires es != [] && ElementsPlain(es, first) && TextAt(pat, p, ElementsText(es) + [93])
    ensures SetEnd(pat, p) == EndAt(p + |ElementsText(es)| + 1)
    decreases |es|
  {
    ElementStep(pat, p, es, first);
    var q := p + |ElementText(es[0])|;
    if es[1..] != [] {
      SetEnds(pat, q, es[1..], false);
    }
    RangeEnds(pat, p, es, first);
  }

  /** A range takes three turns of that loop. */
  lemma RangeEnds(pat: seq<Byte>, p: nat, es: seq<Element>, first: bool)
    requires es != [] && ElementsPlain(es, first) && TextAt(pat, p, ElementsText(es) + [93])
    ensures var q := p + |ElementText(es[0])|;
            q < |pat| && SetEnd(pat, p) == if pat[q] == 93 then EndAt(q + 1) else SetEnd(pat, q)
  {
    ElementStep(pat, p, es, first);
    if es[0].Range? {
      assert SetEnd(pat, p) == SetEnd(pat, p + 1) == SetEnd(pat, p + 2);
    }
  }

  /** matchbracketclass finds an element that contains the byte, if there is one. */
  lemma {:induction false} SetContains(c: Byte, pat: seq<Byte>, p: nat, es: seq<Element>, first: bool)
    requires ElementsPlain(es, first) && TextAt(pat, p, ElementsText(es) + [93])
    ensures InSet(c, pat, p, p + |ElementsText(es)|) <==> exists i :: 0 <= i < |es| && InElement(c, es[i])
    decreases |es|
  {
    if es != [] {
      ElementStep(pat, p, es, first);
      var e, q, ec := es[0], p + |ElementText(es[0])|, p + |ElementsText(es)|;
      SetContains(c, pat, q, es[1..], false);
      assert ec == q + |ElementsText(es[1..])|;
      if e.Escaped? { NamedIs(c, e.l); }
      assert InSet(c, pat, p, ec) <==> InElement(c, e) || InSet(c, pat, q, ec);
      assert forall i | 0 <= i < |es[1..]| :: es[1..][i] == es[i + 1];
      if InElement(c, e) { assert InElement(c, es[0]); }
    }
  }
}

/** The result of a match, item by item. */
module PatternLaws {
  import opened Patterns
  import opened PatternClasses
  import opened PatternSearch
  import opened Matcher

  /** The item `cl` stands in the pattern between `p` and `ep`. */
  ghost predicate ItemAt(pat: seq<Byte>, p: nat, cl: Class, ep: nat) {
    && ClassPlain(cl) && TextAt(pat, p, ClassText(cl)) && ep == p + |ClassText(cl)|
    && (cl == Char(36) ==> ep < |pat|)
  }

  /** The brackets of a set, and what is between them. */
  lemma SetParts(pat: seq<Byte>, p: nat, complement: bool, es: seq<Element>, ep: nat)
    requires ItemAt(pat, p, Set(complement, es), ep)
    ensures var q := if complement then p + 2 else p + 1;
      && p < ep <= |pat| && pat[p] == 91 && (At(pat, p + 1) == 94 <==> complement)
      && TextAt(pat, q, ElementsText(es) + [93]) && ep == q + |ElementsText(es)| + 1 && es != [] && ElementsPlain(es, true)
  {
    hide ElementsPlain;
    var t := ClassText(Set(complement, es));
    var open: seq<Byte> := if complement then [91, 94] else [91];
    assert t == open + (ElementsText(es) + [93]);
    TextParts(pat, p, open, ElementsText(es) + [93]);
    TextByte(pat, p, open, 0);
    if complement {
      TextByte(pat, p, open, 1);
    } else {
      ElementStep(pat, p + 1, es, true);
      TextByte(pat, p + 1, ElementText(es[0]), 0);
    }
  }

  lemma SetReads(src: seq<Byte>, pat: seq<Byte>, p: nat, complement: bool, es: seq<Element>, ep: nat, s: nat)
    requires ItemAt(pat, p, Set(complement, es), ep)
    ensures p < ep <= |pat| && pat[p] == 91 && ClassEnd(pat, p) == EndAt(ep)
    ensures s < |src| ==> (InBracket(src[s], pat, p, ep - 1) <==> Contains(Set(complement, es), src[s]))
  {
    hide ElementsText, ElementText, ElementsPlain, SetEnd, InSet, InElement, TextAt, ItemAt;
    SetParts(pat, p, complement, es, ep);
    var q := if complement then p + 2 else p + 1;
    SetEnds(pat, q, es, true);
    if s < |src| { SetContains(src[s], pat, q, es, true); }
  }

  /** How the search reads the item: where it ends, and what it stands for. */
  lemma ItemReads(src: seq<Byte>, pat: seq<Byte>, p: nat, cl: Class, ep: nat, s: nat)
    requires ItemAt(pat, p, cl, ep)
    ensures p < ep <= |pat| && ClassEnd(pat, p) == EndAt(ep)
    ensures Single(src, pat, s, p, ep) <==> s < |src| && Contains(cl, src[s])
  {
    if cl.Set? {
      hide TextAt, ClassText, ClassPlain, ClassEnd, InBracket;
      SetReads(src, pat, p, cl.complement, cl.elements, ep, s);
    } else {
      var t := ClassText(cl);
      TextByte(pat, p, t, 0);
      if cl.Letter? {
        TextByte(pat, p, t, 1);
        if s < |src| { NamedIs(src[s], cl.l); }
      }
      hide TextAt, InNamed, InClass;
    }
  }

  /** At a single item no other branch applies. */
  lemma ItemAlone(src: seq<Byte>, pat: seq<Byte>, s: nat, p: nat, cl: Class, ep: nat, caps: seq<Cap>)
    requires ItemAt(pat, p, cl, ep) && s <= |src|
    ensures p < |pat| && Outcomes(src, pat, s, p, caps) == Item(src, pat, s, p, caps)
  {
    var t := ClassText(cl);
    assert |t| > 0;
    TextByte(pat, p, t, 0);
    if cl.Letter? { TextByte(pat, p, t, 1); }
    hide Item;
  }

  // ------------------------------------------------------------------ results

  /** The result is the first of the possible matches, or the error met first. */
  datatype Choice = NoMatch | First(o: Outcome)

  function Choose(src: seq<Byte>, pat: seq<Byte>, s: nat, p: nat, caps: seq<Cap>): Choice
    requires s <= |src| && p <= |pat|
  {
    var os := Outcomes(src, pat, s, p, caps);
    if os == [] then NoMatch else First(os[0])
  }

  /** All characters from `s` up to `t` belong to the class. */
  ghost predicate Stretch(src: seq<Byte>, s: nat, cl: Class, t: nat) {
    s <= t <= |src| && forall k | s <= k < t :: Contains(cl, src[k])
  }

  /** They do, and the rest of the pattern, from `q` on, has a result at `t`. */
  ghost predicate Goes(src: seq<Byte>, pat: seq<Byte>, s: nat, cl: Class, t: nat, q: nat, caps: seq<Cap>) {
    q <= |pat| && Stretch(src, s, cl, t) && Choose(src, pat, t, q, caps) != NoMatch
  }

  /** How far the item can be repeated. */
  lemma {:induction false} TimesIs(src: seq<Byte>, pat: seq<Byte>, s: nat, p: nat, cl: Class, ep: nat, t: nat)
    requires ItemAt(pat, p, cl, ep) && s <= t && s <= |src| && p < |pat| && ep > 0
    ensures t <= s + Times(src, pat, s, p, ep) <==> Stretch(src, s, cl, t)
    decreases t - s
  {
    hide ItemAt, Single, Contains, Stretch;
    ItemReads(src, pat, p, cl, ep, s);
    StretchStep(src, s, cl, t);
    if t > s && Single(src, pat, s, p, ep) { TimesIs(src, pat, s + 1, p, cl, ep, t); }
  }

  lemma StretchStep(src: seq<Byte>, s: nat, cl: Class, t: nat)
    requires s <= t && s <= |src|
    ensures Stretch(src, s, cl, t) <==> t == s || (s < |src| && Contains(cl, src[s]) && Stretch(src, s + 1, cl, t))
  {
    hide Contains;
  }

  lemma {:induction false} ShortestFirst(src: seq<Byte>, pat: seq<Byte>, s: nat, q: nat, n: nat, caps: seq<Cap>, t: nat)
    requires s + n <= |src| && q <= |pat| && s <= t <= s + n + 1
    requires forall u: nat | s <= u < t :: Choose(src, pat, u, q, caps) == NoMatch
    requires t <= s + n ==> Choose(src, pat, t, q, caps) != NoMatch
    ensures var os := Shortest(src, pat, s, q, n, caps);
            if t <= s + n then os != [] && First(os[0]) == Choose(src, pat, t, q, caps) else os == []
    decreases t - s
  {
    hide Outcomes;
    if t > s {
      assert Choose(src, pat, s, q, caps) == NoMatch;
      if n > 0 { ShortestFirst(src, pat, s + 1, q, n - 1, caps, t); }
    }
  }

  lemma {:induction false} LongestFirst(src: seq<Byte>, pat: seq<Byte>, s: nat, q: nat, n: nat, caps: seq<Cap>, t: int)
    requires s + n <= |src| && q <= |pat| && s - 1 <= t <= s + n
    requires forall u: nat | t < u <= s + n :: Choose(src, pat, u, q, caps) == NoMatch
    requires t >= s ==> Choose(src, pat, t, q, caps) != NoMatch
    ensures var os := Longest(src, pat, s, q, n, caps);
            if t >= s then os != [] && First(os[0]) == Choose(src, pat, t, q, caps) else os == []
    decreases n
  {
    hide Outcomes;
    if t < s + n {
      assert Choose(src, pat, s + n, q, caps) == NoMatch;
      if n > 0 { LongestFirst(src, pat, s, q, n - 1, caps, t); }
    }
  }

  // ---------------------------------------------------------------- the items

  predicate IsSuffix(c: Byte) { c == 42 || c == 43 || c == 45 || c == 63 }

  /** An item by itself stands for one character. */
  lemma Once(src: seq<Byte>, pat: seq<Byte>, s: nat, p: nat, cl: Class, ep: nat, caps: seq<Cap>)
    requires s <= |src| && ItemAt(pat, p, cl, ep) && !(ep < |pat| && IsSuffix(pat[ep]))
    ensures p <= |pat| && ep <= |pat|
    ensures Choose(src, pat, s, p, caps) ==
            if s < |src| && Contains(cl, src[s]) then Choose(src, pat, s + 1, ep, caps) else NoMatch
  {
    ItemAlone(src, pat, s, p, cl, ep, caps);
    ItemReads(src, pat, p, cl, ep, s);
    hide ItemAt, Single, Outcomes, ClassEnd;
  }

  /** With `?`, one character if the rest has a result then, and otherwise none. */
  lemma Optional(src: seq<Byte>, pat: seq<Byte>, s: nat, p: nat, cl: Class, ep: nat, caps: seq<Cap>)
    requires s <= |src| && ItemAt(pat, p, cl, ep) && ep < |pat| && pat[ep] == 63
    ensures p <= |pat|
    ensures Choose(src, pat, s, p, caps) ==
            if s < |src| && Contains(cl, src[s]) && Choose(src, pat, s + 1, ep + 1, caps) != NoMatch
            then Choose(src, pat, s + 1, ep + 1, caps) else Choose(src, pat, s, ep + 1, caps)
  {
    ItemAlone(src, pat, s, p, cl, ep, caps);
    ItemReads(src, pat, p, cl, ep, s);
    hide ItemAt, Single, Outcomes, ClassEnd;
  }

  /** What a repeated item has in common: it can go as far as `t` exactly when it
      can be repeated so often. */
  lemma Repeats(src: seq<Byte>, pat: seq<Byte>, s: nat, p: nat, cl: Class, ep: nat, caps: seq<Cap>, q: nat)
    requires s <= |src| && ItemAt(pat, p, cl, ep) && ep < |pat| && q == ep + 1
    ensures p < |pat| && ep > 0 && Outcomes(src, pat, s, p, caps) == Item(src, pat, s, p, caps) && ClassEnd(pat, p) == EndAt(ep)
    ensures Single(src, pat, s, p, ep) <==> s < |src| && Contains(cl, src[s])
    ensures forall t: nat | s <= t <= s + Times(src, pat, s, p, ep) ::
              Goes(src, pat, s, cl, t, q, caps) <==> Choose(src, pat, t, q, caps) != NoMatch
    ensures forall t: nat | Goes(src, pat, s, cl, t, q, caps) :: s <= t <= s + Times(src, pat, s, p, ep)
  {
    ItemAlone(src, pat, s, p, cl, ep, caps);
    ItemReads(src, pat, p, cl, ep, s);
    hide ItemAt, Single, Outcomes, ClassEnd, Times, Item, Contains;
    forall t: nat | s <= t ensures t <= s + Times(src, pat, s, p, ep) <==> Stretch(src, s, cl, t) {
      TimesIs(src, pat, s, p, cl, ep, t);
    }
  }

  /** With `-`, the least number of characters of the class after which the rest
      has a result. */
  lemma Lazy(src: seq<Byte>, pat: seq<Byte>, s: nat, p: nat, cl: Class, ep: nat, caps: seq<Cap>, q: nat, t: nat)
    requires s <= |src| && ItemAt(pat, p, cl, ep) && ep < |pat| && pat[ep] == 45 && q == ep + 1
    requires Goes(src, pat, s, cl, t, q, caps) && forall u: nat | u < t :: !Goes(src, pat, s, cl, u, q, caps)
    ensures p <= |pat| && Choose(src, pat, s, p, caps) == Choose(src, pat, t, q, caps)
  {
    Repeats(src, pat, s, p, cl, ep, caps, q);
    hide ItemAt, Single, Outcomes, ClassEnd, Times, Shortest;
    ShortestFirst(src, pat, s, q, Times(src, pat, s, p, ep), caps, t);
  }

  /** With `*`, the greatest. */
  lemma Greedy(src: seq<Byte>, pat: seq<Byte>, s: nat, p: nat, cl: Class, ep: nat, caps: seq<Cap>, q: nat, t: nat)
    requires s <= |src| && ItemAt(pat, p, cl, ep) && ep < |pat| && pat[ep] == 42 && q == ep + 1
    requires Goes(src, pat, s, cl, t, q, caps) && forall u: nat | u > t :: !Goes(src, pat, s, cl, u, q, caps)
    ensures p <= |pat| && Choose(src, pat, s, p, caps) == Choose(src, pat, t, q, caps)
  {
    Repeats(src, pat, s, p, cl, ep, caps, q);
    hide ItemAt, Single, Outcomes, ClassEnd, Times, Longest;
    LongestFirst(src, pat, s, q, Times(src, pat, s, p, ep), caps, t);
  }

  /** With `+`, the greatest that is at least 1. */
  lemma GreedyOnce(src: seq<Byte>, pat: seq<Byte>, s: nat, p: nat, cl: Class, ep: nat, caps: seq<Cap>, q: nat, t: nat)
    requires s < t && ItemAt(pat, p, cl, ep) && ep < |pat| && pat[ep] == 43 && q == ep + 1
    requires Goes(src, pat, s, cl, t, q, caps) && forall u: nat | u > t :: !Goes(src, pat, s, cl, u, q, caps)
    ensures p <= |pat| && s <= |src| && Choose(src, pat, s, p, caps) == Choose(src, pat, t, q, caps)
  {
    assert Contains(cl, src[s]) && s < |src|;
    hide ItemAt, Outcomes, ClassEnd, Longest, Contains, Single, Times, Goes, Stretch;
    Repeats(src, pat, s, p, cl, ep, caps, q);
    Repeats(src, pat, s + 1, p, cl, ep, caps, q);
    GoesOn(src, pat, s, cl, t, q, caps);
    var n := Times(src, pat, s + 1, p, ep);
    forall u: nat | t < u <= s + 1 + n ensures Choose(src, pat, u, q, caps) == NoMatch {
      GoesOn(src, pat, s, cl, u, q, caps);
      assert !Goes(src, pat, s, cl, u, q, caps);
    }
    ChosenLast(src, pat, s + 1, q, n, caps, t);
  }

  lemma ChosenLast(src: seq<Byte>, pat: seq<Byte>, s: nat, q: nat, n: nat, caps: seq<Cap>, t: nat)
    requires s <= t <= s + n <= |src| && q <= |pat| && Choose(src, pat, t, q, caps) != NoMatch
    requires forall u: nat | t < u <= s + n :: Choose(src, pat, u, q, caps) == NoMatch
    ensures var os := Longest(src, pat, s, q, n, caps); os != [] && First(os[0]) == Choose(src, pat, t, q, caps)
  {
    hide Choose, Longest;
    LongestFirst(src, pat, s, q, n, caps, t);
  }

  /** When the rest has no result after any number of characters (for `+`, any
      but 0), there is none. */
  lemma Fails(src: seq<Byte>, pat: seq<Byte>, s: nat, p: nat, cl: Class, ep: nat, caps: seq<Cap>, q: nat)
    requires s <= |src| && ItemAt(pat, p, cl, ep) && ep < |pat| && (pat[ep] == 45 || pat[ep] == 42 || pat[ep] == 43) && q == ep + 1
    requires forall t: nat | s < t || pat[ep] != 43 :: !Goes(src, pat, s, cl, t, q, caps)
    ensures p <= |pat| && Choose(src, pat, s, p, caps) == NoMatch
  {
    hide ItemAt, Outcomes, ClassEnd, Longest, Shortest, Contains, Single, Times, Goes, Stretch;
    if pat[ep] == 43 {
      FailsOnce(src, pat, s, p, cl, ep, caps, q);
    } else {
      Repeats(src, pat, s, p, cl, ep, caps, q);
      var n := Times(src, pat, s, p, ep);
      forall u: nat | s <= u <= s + n ensures Choose(src, pat, u, q, caps) == NoMatch {
        assert !Goes(src, pat, s, cl, u, q, caps);
      }
      NoneFits(src, pat, s, q, n, caps);
    }
  }

  lemma NoneFits(src: seq<Byte>, pat: seq<Byte>, s: nat, q: nat, n: nat, caps: seq<Cap>)
    requires s + n <= |src| && q <= |pat| && forall u: nat | s <= u <= s + n :: Choose(src, pat, u, q, caps) == NoMatch
    ensures Longest(src, pat, s, q, n, caps) == Shortest(src, pat, s, q, n, caps) == []
  {
    hide Choose, Longest, Shortest;
    LongestFirst(src, pat, s, q, n, caps, s - 1);
    ShortestFirst(src, pat, s, q, n, caps, s + n + 1);
  }

  lemma FailsOnce(src: seq<Byte>, pat: seq<Byte>, s: nat, p: nat, cl: Class, ep: nat, caps: seq<Cap>, q: nat)
    requires s <= |src| && ItemAt(pat, p, cl, ep) && ep < |pat| && pat[ep] == 43 && q == ep + 1
    requires forall t: nat | s < t :: !Goes(src, pat, s, cl, t, q, caps)
    ensures p <= |pat| && Choose(src, pat, s, p, caps) == NoMatch
  {
    hide ItemAt, Outcomes, ClassEnd, Longest, Contains, Single, Times, Goes, Stretch;
    Repeats(src, pat, s, p, cl, ep, caps, q);
    if Single(src, pat, s, p, ep) {
      Repeats(src, pat, s + 1, p, cl, ep, caps, q);
      var n := Times(src, pat, s + 1, p, ep);
      forall u: nat | s + 1 <= u <= s + 1 + n ensures Choose(src, pat, u, q, caps) == NoMatch {
        GoesOn(src, pat, s, cl, u, q, caps);
        assert !Goes(src, pat, s, cl, u, q, caps);
      }
      NoneFits(src, pat, s + 1, q, n, caps);
    }
  }

  lemma GoesOn(src: seq<Byte>, pat: seq<Byte>, s: nat, cl: Class, u: nat, q: nat, caps: seq<Cap>)
    requires s < |src| && Contains(cl, src[s]) && s < u
    ensures Goes(src, pat, s, cl, u, q, caps) <==> Goes(src, pat, s + 1, cl, u, q, caps)
  {
    hide Contains, Choose, Stretch;
    StretchStep(src, s, cl, u);
  }

  // ---------------------------------------------------- what is not a character

  /** The end of the pattern, and a dollar there, which is an anchor. */
  lemma Ends(src: seq<Byte>, pat: seq<Byte>, s: nat, caps: seq<Cap>)
    requires s <= |src|
    ensures Choose(src, pat, s, |pat|, caps) == First(Match(s, caps))
    ensures |pat| > 0 && pat[|pat| - 1] == 36 ==>
              Choose(src, pat, s, |pat| - 1, caps) == if s == |src| then First(Match(s, caps)) else NoMatch
  {}

  /** Captures: a position, the start of one, and the end of the last that is
      still open, which then has the text in between. At most 32. */
  lemma Captures(src: seq<Byte>, pat: seq<Byte>, s: nat, p: nat, caps: seq<Cap>, l: nat)
    requires s <= |src| && p < |pat|
    ensures TextAt(pat, p, [40, 41]) && |caps| < 32 ==>
              Choose(src, pat, s, p, caps) == Choose(src, pat, s, p + 2, caps + [Cap(s, -2)])
    ensures pat[p] == 40 && !TextAt(pat, p, [40, 41]) && |caps| < 32 ==>
              Choose(src, pat, s, p, caps) == Choose(src, pat, s, p + 1, caps + [Cap(s, -1)])
    ensures pat[p] == 40 && |caps| >= 32 ==> Choose(src, pat, s, p, caps) == First(Bad(TooManyCaptures))
    ensures pat[p] == 41 && l < |caps| && caps[l].len == -1 && (forall k | l < k < |caps| :: caps[k].len != -1) ==>
              Choose(src, pat, s, p, caps) == Choose(src, pat, s, p + 1, caps[l := Cap(caps[l].init, s - caps[l].init)])
    ensures pat[p] == 41 && (forall k | 0 <= k < |caps| :: caps[k].len != -1) ==>
              Choose(src, pat, s, p, caps) == First(Bad(InvalidCapture))
  {
    OpenIs(caps);
    assert TextAt(pat, p, [40, 41]) <==> pat[p] == 40 && p + 1 < |pat| && pat[p + 1] == 41;
    hide OpenCapture, Item, ClassEnd, BalanceFrom, InBracket, Again;
  }

  /** The last capture that is still open. */
  lemma {:induction false} OpenIs(caps: seq<Cap>)
    ensures var l := OpenCapture(caps); (forall k | l < k < |caps| :: caps[k].len != -1) && (l >= 0 ==> caps[l].len == -1)
    decreases |caps|
  {
    if caps != [] { OpenIs(caps[..|caps| - 1]); }
  }

  /** `t` is where as many `e` as `b` have been read since `s`, for the first
      time; when the two are the same byte, its next occurrence ends it. */
  ghost predicate Balances(src: seq<Byte>, b: Byte, e: Byte, s: nat, t: nat) {
    && s < t <= |src| && src[s] == b && src[t - 1] == e
    && if b == e then t >= s + 2 && forall k | s < k < t - 1 :: src[k] != e
       else && multiset(src[s..t])[b] == multiset(src[s..t])[e]
            && forall u: nat | s < u < t :: multiset(src[s..u])[b] > multiset(src[s..u])[e]
  }

  lemma CountNext(src: seq<Byte>, s: nat, u: nat, c: Byte)
    requires s <= u < |src|
    ensures multiset(src[s..u + 1])[c] == multiset(src[s..u])[c] + if src[u] == c then 1 else 0
  {
    assert src[s..u + 1] == src[s..u] + [src[u]];
  }

  /** What the search for the end has read when it is at `u` with `n` open. */
  ghost predicate Reading(src: seq<Byte>, b: Byte, e: Byte, s: nat, u: nat, n: nat) {
    && s < u <= |src| && n > 0 && src[s] == b
    && if b == e then n == 1 && forall k | s < k < u :: src[k] != e
       else && multiset(src[s..u])[b] == multiset(src[s..u])[e] + n
            && forall v: nat | s < v <= u :: multiset(src[s..v])[b] > multiset(src[s..v])[e]
  }

  lemma {:induction false} BalanceIs(src: seq<Byte>, b: Byte, e: Byte, s: nat, u: nat, n: nat, t: nat)
    requires Reading(src, b, e, s, u, n)
    ensures Balance(src, b, e, u, n) == Somewhere(t) <==> u < t && Balances(src, b, e, s, t)
    decreases |src| - u
  {
    if u < |src| {
      CountNext(src, s, u, b);
      CountNext(src, s, u, e);
      if src[u] == e && n == 1 {
        assert Balances(src, b, e, s, u + 1);
      } else {
        var m := if src[u] == e then n - 1 else if src[u] == b then n + 1 else n;
        assert Reading(src, b, e, s, u + 1, m);
        BalanceIs(src, b, e, s, u + 1, m, t);
      }
    }
  }

  lemma BalanceFromIs(src: seq<Byte>, b: Byte, e: Byte, s: nat, t: nat)
    requires s < |src|
    ensures BalanceFrom(src, b, e, s) == Somewhere(t) <==> Balances(src, b, e, s, t)
  {
    if src[s] == b {
      assert src[s..s + 1] == [b];
      assert Reading(src, b, e, s, s + 1, 1);
      BalanceIs(src, b, e, s, s + 1, 1, t);
    }
  }

  /** %bxy goes on where the text is balanced, and fails when it never is. */
  lemma Balanced(src: seq<Byte>, pat: seq<Byte>, s: nat, p: nat, x: Byte, y: Byte, caps: seq<Cap>)
    requires s <= |src| && TextAt(pat, p, [37, 98, x, y])
    ensures forall t: nat | Balances(src, x, y, s, t) :: Choose(src, pat, s, p, caps) == Choose(src, pat, t, p + 4, caps)
    ensures (forall t: nat :: !Balances(src, x, y, s, t)) ==> Choose(src, pat, s, p, caps) == NoMatch
  {
    var w: seq<Byte> := [37, 98, x, y];
    TextByte(pat, p, w, 0);
    TextByte(pat, p, w, 1);
    TextByte(pat, p, w, 2);
    TextByte(pat, p, w, 3);
    var r := BalanceFrom(src, x, y, s);
    forall t: nat ensures r == Somewhere(t) <==> Balances(src, x, y, s, t) {
      if s < |src| { BalanceFromIs(src, x, y, s, t); }
    }
    hide BalanceFrom, Item, Balances, Again, TextAt;
    if r.Somewhere? { assert Balances(src, x, y, s, r.s); }
  }

  /** %f followed by a set: the character before does not belong to the set, and
      the next one does; before the start and behind the end there is a zero. */
  lemma Frontier(src: seq<Byte>, pat: seq<Byte>, s: nat, p: nat, complement: bool, es: seq<Element>, ep: nat, caps: seq<Cap>)
    requires s <= |src| && TextAt(pat, p, [37, 102]) && ItemAt(pat, p + 2, Set(complement, es), ep)
    ensures ep <= |pat|
    ensures var cl := Set(complement, es);
            Choose(src, pat, s, p, caps) ==
            if !Contains(cl, if s == 0 then 0 else src[s - 1]) && Contains(cl, if s == |src| then 0 else src[s])
            then Choose(src, pat, s, ep, caps) else NoMatch
  {
    hide Item, InBracket, ClassEnd, Contains, ItemAt, Again, BalanceFrom;
    TextByte(pat, p, [37, 102], 0);
    TextByte(pat, p, [37, 102], 1);
    hide TextAt;
    var before: Byte := if s == 0 then 0 else src[s - 1];
    var next: Byte := if s == |src| then 0 else src[s];
    SetReads([before], pat, p + 2, complement, es, ep, 0);
    SetReads([next], pat, p + 2, complement, es, ep, 0);
  }

  /** %1 to %9: the text of that capture once more; a position never matches. */
  lemma Backward(src: seq<Byte>, pat: seq<Byte>, s: nat, p: nat, d: Byte, caps: seq<Cap>)
    requires s <= |src| && TextAt(pat, p, [37, d]) && 48 <= d <= 57
    ensures d - 49 >= |caps| || d == 48 || caps[d - 49].len == -1 ==> Choose(src, pat, s, p, caps) == First(Bad(InvalidIndex))
    ensures d > 48 && d - 49 < |caps| && caps[d - 49].len == -2 ==> Choose(src, pat, s, p, caps) == NoMatch
    ensures d > 48 && d - 49 < |caps| && caps[d - 49].len >= 0 && caps[d - 49].init + caps[d - 49].len <= |src| ==>
              var w := src[caps[d - 49].init..caps[d - 49].init + caps[d - 49].len];
              Choose(src, pat, s, p, caps) ==
              if s + |w| <= |src| && src[s..s + |w|] == w then Choose(src, pat, s + |w|, p + 2, caps) else NoMatch
  {
    TextByte(pat, p, [37, d], 0);
    TextByte(pat, p, [37, d], 1);
    hide Item, InBracket, ClassEnd, BalanceFrom, TextAt;
  }

  /** Patterns that are not well formed are errors where the search meets them:
      an item without its end, and %b and %f without what they need. */
  lemma NoEnd(src: seq<Byte>, pat: seq<Byte>, s: nat, p: nat, caps: seq<Cap>)
    requires s <= |src| && p < |pat|
    ensures pat[p] == 37 && p + 1 == |pat| ==> Choose(src, pat, s, p, caps) == First(Bad(EndsWithEsc))
    ensures pat[p] == 91 && 93 !in pat[p..] ==> Choose(src, pat, s, p, caps) == First(Bad(MissingBracket))
  {
    if pat[p] == 91 && 93 !in pat[p..] {
      forall j | p <= j < |pat| ensures pat[j] != 93 { assert pat[p..][j - p] == pat[j]; }
      NeverClosed(pat, if At(pat, p + 1) == 94 then p + 2 else p + 1);
    }
    if (pat[p] == 37 && p + 1 == |pat|) || (pat[p] == 91 && 93 !in pat[p..]) {
      assert ClassEnd(pat, p).Malformed?;
      assert Item(src, pat, s, p, caps) == [Bad(ClassEnd(pat, p).error)];
      hide Item, ClassEnd, InBracket, BalanceFrom, Again;
      assert Outcomes(src, pat, s, p, caps) == Item(src, pat, s, p, caps);
    }
  }

  lemma NoArguments(src: seq<Byte>, pat: seq<Byte>, s: nat, p: nat, caps: seq<Cap>)
    requires s <= |src| && TextAt(pat, p, [37, 98]) && p + 3 >= |pat|
    ensures Choose(src, pat, s, p, caps) == First(Bad(MissingArguments))
  {
    TextByte(pat, p, [37, 98], 0);
    TextByte(pat, p, [37, 98], 1);
    hide Item, ClassEnd, InBracket, BalanceFrom, Again, TextAt;
  }

  lemma NoSet(src: seq<Byte>, pat: seq<Byte>, s: nat, p: nat, caps: seq<Cap>)
    requires s <= |src| && TextAt(pat, p, [37, 102]) && !TextAt(pat, p + 2, [91])
    ensures Choose(src, pat, s, p, caps) == First(Bad(MissingFrontier))
  {
    TextByte(pat, p, [37, 102], 0);
    TextByte(pat, p, [37, 102], 1);
    if p + 2 < |pat| { assert pat[p + 2..p + 3] == [pat[p + 2]]; }
    hide Item, ClassEnd, InBracket, BalanceFrom, Again, TextAt;
  }

  lemma {:induction false} NeverClosed(pat: seq<Byte>, p: nat)
    requires p <= |pat| && forall j | p <= j < |pat| :: pat[j] != 93
    ensures SetEnd(pat, p) == Malformed(MissingBracket)
    decreases |pat| - p
  {
    if p < |pat| { NeverClosed(pat, if pat[p] == 37 && p + 1 < |pat| then p + 2 else p + 1); }
  }

  // --------------------------------------------------------------- the search

  /** The answer is the result at the first position that has one; an anchored
      pattern is tried at the initial position alone. */
  lemma {:induction false} FirstPosition(src: seq<Byte>, pat: seq<Byte>, s: nat, anchor: bool, t: nat)
    requires s <= t <= |src| && (anchor ==> t == s)
    requires forall u: nat | s <= u < t :: Choose(src, pat, u, 0, []) == NoMatch
    ensures forall e, caps | Choose(src, pat, t, 0, []) == First(Match(e, caps)) :: SearchFrom(src, pat, s, anchor) == Found(t, e, caps)
    ensures forall x | Choose(src, pat, t, 0, []) == First(Bad(x)) :: SearchFrom(src, pat, s, anchor) == Failed(x)
    ensures Choose(src, pat, t, 0, []) == NoMatch && (anchor || t == |src|) ==> SearchFrom(src, pat, s, anchor) == NotFound
    decreases t - s
  {
    hide Outcomes;
    if s < t {
      assert Choose(src, pat, s, 0, []) == NoMatch;
      FirstPosition(src, pat, s + 1, anchor, t);
    }
  }

  // "aXbX", with the patterns ".-X" and ".*X".
  const SUBJECT: seq<Byte> := [97, 88, 98, 88]
  const LAZY: seq<Byte> := [46, 45, 88]
  const GREEDY: seq<Byte> := [46, 42, 88]

  /** The last item of both. */
  lemma LastX(pat: seq<Byte>, s: nat)
    requires (pat == LAZY || pat == GREEDY) && s <= 4
    ensures Choose(SUBJECT, pat, s, 2, []) == if s == 1 || s == 3 then First(Match(s + 1, [])) else NoMatch
  {
    assert pat[2..3] == [88];
    Once(SUBJECT, pat, s, 2, Char(88), 3, []);
    if s < 4 { Ends(SUBJECT, pat, s + 1, []); }
    hide Outcomes;
  }

  /** The shortest repetition ends at the first X, the longest at the last. */
  lemma Example()
    ensures SearchFrom(SUBJECT, LAZY, 0, false) == Found(0, 2, [])
    ensures SearchFrom(SUBJECT, GREEDY, 0, false) == Found(0, 4, [])
  {
    hide Outcomes;
    forall s: nat | s <= 4
      ensures Goes(SUBJECT, LAZY, 0, Any, s, 2, []) <==> s == 1 || s == 3
      ensures Goes(SUBJECT, GREEDY, 0, Any, s, 2, []) <==> s == 1 || s == 3
    {
      LastX(LAZY, s);
      LastX(GREEDY, s);
    }
    assert LAZY[0..1] == [46] && GREEDY[0..1] == [46];
    Lazy(SUBJECT, LAZY, 0, 0, Any, 1, [], 2, 1);
    Greedy(SUBJECT, GREEDY, 0, 0, Any, 1, [], 2, 3);
    LastX(LAZY, 1);
    LastX(GREEDY, 3);
    FirstPosition(SUBJECT, LAZY, 0, false, 0);
    FirstPosition(SUBJECT, GREEDY, 0, false, 0);
  }
}
