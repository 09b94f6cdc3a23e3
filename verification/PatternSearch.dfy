/** string.find and string.match (lstrlib.c): where a pattern is looked for, and
    the plain search that replaces the matcher for patterns without specials. */
module PatternSearch {
  import opened Patterns
  import opened Matcher

  /** Captures lie inside the subject, and begin no later than the search is. */
  ghost predicate Fit(src: seq<Byte>, caps: seq<Cap>, s: nat) {
    forall i | 0 <= i < |caps| :: caps[i].init <= s && (caps[i].len >= 0 ==> caps[i].init + caps[i].len <= |src|)
  }

  ghost predicate AllFit(src: seq<Byte>, s: nat, os: seq<Outcome>) {
    forall o | o in os && o.Match? :: s <= o.e <= |src| && Fit(src, o.caps, o.e)
  }

  lemma AllFitFrom(src: seq<Byte>, s: nat, t: nat, os: seq<Outcome>)
    requires s <= t && AllFit(src, t, os)
    ensures AllFit(src, s, os)
  {}

  /** Every match ends behind its start and inside the subject, and so do the
      captures that it reports. */
  lemma {:induction false} OutcomesFit(src: seq<Byte>, pat: seq<Byte>, s: nat, p: nat, caps: seq<Cap>)
    requires s <= |src| && p <= |pat| && Fit(src, caps, s)
    ensures AllFit(src, s, Outcomes(src, pat, s, p, caps))
    decreases |pat| - p, 2, 0
  {
    if p == |pat| {
    } else if pat[p] == 40 {
      if |caps| < MAXCAPTURES {
        if At(pat, p + 1) == 41 { OutcomesFit(src, pat, s, p + 2, caps + [Cap(s, CAP_POSITION)]); }
        else { OutcomesFit(src, pat, s, p + 1, caps + [Cap(s, CAP_UNFINISHED)]); }
      }
    } else if pat[p] == 41 {
      var l := OpenCapture(caps);
      if l >= 0 { OutcomesFit(src, pat, s, p + 1, caps[l := caps[l].(len := s - caps[l].init)]); }
    } else if pat[p] == 36 && p + 1 == |pat| {
    } else if pat[p] == ESC && At(pat, p + 1) == 98 {
      if p + 3 < |pat| {
        var r := BalanceFrom(src, pat[p + 2], pat[p + 3], s);
        if r.Somewhere? {
          OutcomesFit(src, pat, r.s, p + 4, caps);
          AllFitFrom(src, s, r.s, Outcomes(src, pat, r.s, p + 4, caps));
        }
      }
    } else if pat[p] == ESC && At(pat, p + 1) == 102 {
      if At(pat, p + 2) == 91 {
        var end := ClassEnd(pat, p + 2);
        if end.EndAt? { OutcomesFit(src, pat, s, end.ep, caps); }
      }
    } else if pat[p] == ESC && IsDigit(At(pat, p + 1)) {
      var l: int := pat[p + 1] as int - 49;
      if 0 <= l < |caps| && caps[l].len != CAP_UNFINISHED && Again(src, caps[l], s) {
        var t := s + caps[l].len;
        OutcomesFit(src, pat, t, p + 2, caps);
        AllFitFrom(src, s, t, Outcomes(src, pat, t, p + 2, caps));
      }
    } else {
      ItemFit(src, pat, s, p, caps);
    }
  }

  lemma {:induction false} ItemFit(src: seq<Byte>, pat: seq<Byte>, s: nat, p: nat, caps: seq<Cap>)
    requires s <= |src| && p < |pat| && Fit(src, caps, s)
    ensures AllFit(src, s, Item(src, pat, s, p, caps))
    decreases |pat| - p, 1, 0
  {
    var end := ClassEnd(pat, p);
    if end.EndAt? {
      var ep := end.ep;
      var once := Single(src, pat, s, p, ep);
      if ep < |pat| && pat[ep] == 63 {
        OutcomesFit(src, pat, s, ep + 1, caps);
        if once { LaterFit(src, pat, s, ep + 1, caps); }
      } else if ep < |pat| && pat[ep] == 43 {
        if once {
          LongestFit(src, pat, s + 1, ep + 1, Times(src, pat, s + 1, p, ep), caps);
          AllFitFrom(src, s, s + 1, Longest(src, pat, s + 1, ep + 1, Times(src, pat, s + 1, p, ep), caps));
        }
      } else if ep < |pat| && pat[ep] == 42 {
        LongestFit(src, pat, s, ep + 1, Times(src, pat, s, p, ep), caps);
      } else if ep < |pat| && pat[ep] == 45 {
        ShortestFit(src, pat, s, ep + 1, Times(src, pat, s, p, ep), caps);
      } else if once {
        LaterFit(src, pat, s, ep, caps);
      }
    }
  }

  lemma {:induction false} LaterFit(src: seq<Byte>, pat: seq<Byte>, s: nat, p: nat, caps: seq<Cap>)
    requires s + 1 <= |src| && p <= |pat| && Fit(src, caps, s)
    ensures AllFit(src, s, Outcomes(src, pat, s + 1, p, caps))
    decreases |pat| - p, 3, 0
  {
    OutcomesFit(src, pat, s + 1, p, caps);
    AllFitFrom(src, s, s + 1, Outcomes(src, pat, s + 1, p, caps));
  }

  lemma {:induction false} LongestFit(src: seq<Byte>, pat: seq<Byte>, s: nat, p: nat, i: nat, caps: seq<Cap>)
    requires s + i <= |src| && p <= |pat| && Fit(src, caps, s)
    ensures AllFit(src, s, Longest(src, pat, s, p, i, caps))
    decreases |pat| - p, 3, i
  {
    OutcomesFit(src, pat, s + i, p, caps);
    AllFitFrom(src, s, s + i, Outcomes(src, pat, s + i, p, caps));
    if i > 0 { LongestFit(src, pat, s, p, i - 1, caps); }
  }

  lemma {:induction false} ShortestFit(src: seq<Byte>, pat: seq<Byte>, s: nat, p: nat, n: nat, caps: seq<Cap>)
    requires s + n <= |src| && p <= |pat| && Fit(src, caps, s)
    ensures AllFit(src, s, Shortest(src, pat, s, p, n, caps))
    decreases |pat| - p, 3, n
  {
    OutcomesFit(src, pat, s, p, caps);
    if n > 0 {
      ShortestFit(src, pat, s + 1, p, n - 1, caps);
      AllFitFrom(src, s, s + 1, Shortest(src, pat, s + 1, p, n - 1, caps));
    }
  }

  // -------------------------------------------------------------------- search

  datatype Answer = NotFound | Found(start: nat, end: nat, caps: seq<Cap>) | Failed(error: Error)

  /** The first position from `s` on where the pattern has an outcome. */
  function SearchFrom(src: seq<Byte>, pat: seq<Byte>, s: nat, anchor: bool): Answer
    requires s <= |src|
    decreases |src| - s
  {
    var os := Outcomes(src, pat, s, 0, []);
    if os != [] then
      match os[0]
      case Match(e, caps) => Found(s, e, caps)
      case Bad(x) => Failed(x)
    else if s == |src| || anchor then NotFound
    else SearchFrom(src, pat, s + 1, anchor)
  }

  /** The loop of str_find_aux over the positions of the subject. A pattern of
      fewer than MAXCCALLS characters is never too complex. */
  method Search(src: seq<Byte>, pattern: seq<Byte>, init: nat) returns (r: Answer)
    requires init <= |src|
    ensures var anchor := At(pattern, 0) == 94;
            r == Failed(TooComplex) || r == SearchFrom(src, if anchor then pattern[1..] else pattern, init, anchor)
    ensures |pattern| < MAXCCALLS ==> r != Failed(TooComplex)
  {
    var anchor := At(pattern, 0) == 94;
    var pat := if anchor then pattern[1..] else pattern;
    var ms := new MatchState(src, pat);
    NotTooComplex(src, pat, init, 0, []);
    var s := init;
    while true
      invariant init <= s <= |src| && ms.Valid() && ms.src == src && ms.pat == pat && ms.matchdepth == MAXCCALLS
      invariant fresh(ms) && fresh(ms.capture)
      invariant SearchFrom(src, pat, s, anchor) == SearchFrom(src, pat, init, anchor)
      decreases |src| - s
    {
      ms.level := 0;
      assert ms.Caps() == [];
      NotTooComplex(src, pat, s, 0, []);
      var res := ms.DoMatch(s, 0);
      match res {
        case Ok(e) => return Found(s, e, ms.capture[..ms.level]);
        case Err(x) => return Failed(x);
        case Fail =>
      }
      if s >= |src| || anchor { break; }
      s := s + 1;
    }
    r := NotFound;
  }

  /** Depth is not part of what a pattern means. */
  ghost predicate NoneTooComplex(os: seq<Outcome>) { Bad(TooComplex) !in os }

  lemma {:induction false} NotTooComplex(src: seq<Byte>, pat: seq<Byte>, s: nat, p: nat, caps: seq<Cap>)
    requires s <= |src| && p <= |pat|
    ensures NoneTooComplex(Outcomes(src, pat, s, p, caps))
    decreases |pat| - p, 2, 0
  {
    if p == |pat| {
    } else if pat[p] == 40 {
      if |caps| < MAXCAPTURES {
        if At(pat, p + 1) == 41 { NotTooComplex(src, pat, s, p + 2, caps + [Cap(s, CAP_POSITION)]); }
        else { NotTooComplex(src, pat, s, p + 1, caps + [Cap(s, CAP_UNFINISHED)]); }
      }
    } else if pat[p] == 41 {
      var l := OpenCapture(caps);
      if l >= 0 { NotTooComplex(src, pat, s, p + 1, caps[l := caps[l].(len := s - caps[l].init)]); }
    } else if pat[p] == 36 && p + 1 == |pat| {
    } else if pat[p] == ESC && At(pat, p + 1) == 98 {
      if p + 3 < |pat| {
        var r := BalanceFrom(src, pat[p + 2], pat[p + 3], s);
        if r.Somewhere? { NotTooComplex(src, pat, r.s, p + 4, caps); }
      }
    } else if pat[p] == ESC && At(pat, p + 1) == 102 {
      if At(pat, p + 2) == 91 {
        var end := ClassEnd(pat, p + 2);
        if end.EndAt? { NotTooComplex(src, pat, s, end.ep, caps); }
      }
    } else if pat[p] == ESC && IsDigit(At(pat, p + 1)) {
      var l: int := pat[p + 1] as int - 49;
      if 0 <= l < |caps| && caps[l].len != CAP_UNFINISHED && Again(src, caps[l], s) {
        NotTooComplex(src, pat, s + caps[l].len, p + 2, caps);
      }
    } else {
      ItemNotTooComplex(src, pat, s, p, caps);
    }
  }

  lemma {:induction false} ItemNotTooComplex(src: seq<Byte>, pat: seq<Byte>, s: nat, p: nat, caps: seq<Cap>)
    requires s <= |src| && p < |pat|
    ensures NoneTooComplex(Item(src, pat, s, p, caps))
    decreases |pat| - p, 1, 0
  {
    var end := ClassEnd(pat, p);
    if end.EndAt? {
      var ep := end.ep;
      if ep < |pat| {
        NotTooComplex(src, pat, s, ep + 1, caps);
        if s < |src| { NotTooComplex(src, pat, s + 1, ep + 1, caps); }
        if Single(src, pat, s, p, ep) { LongestNotTooComplex(src, pat, s + 1, ep + 1, Times(src, pat, s + 1, p, ep), caps); }
        LongestNotTooComplex(src, pat, s, ep + 1, Times(src, pat, s, p, ep), caps);
        ShortestNotTooComplex(src, pat, s, ep + 1, Times(src, pat, s, p, ep), caps);
      }
      if s < |src| { NotTooComplex(src, pat, s + 1, ep, caps); }
    }
  }

  lemma {:induction false} LongestNotTooComplex(src: seq<Byte>, pat: seq<Byte>, s: nat, p: nat, i: nat, caps: seq<Cap>)
    requires s + i <= |src| && p <= |pat|
    ensures NoneTooComplex(Longest(src, pat, s, p, i, caps))
    decreases |pat| - p, 3, i
  {
    NotTooComplex(src, pat, s + i, p, caps);
    if i > 0 { LongestNotTooComplex(src, pat, s, p, i - 1, caps); }
  }

  lemma {:induction false} ShortestNotTooComplex(src: seq<Byte>, pat: seq<Byte>, s: nat, p: nat, n: nat, caps: seq<Cap>)
    requires s + n <= |src| && p <= |pat|
    ensures NoneTooComplex(Shortest(src, pat, s, p, n, caps))
    decreases |pat| - p, 3, n
  {
    NotTooComplex(src, pat, s, p, caps);
    if n > 0 { ShortestNotTooComplex(src, pat, s + 1, p, n - 1, caps); }
  }

  // -------------------------------------------------------------- plain search

  const SPECIALS: seq<Byte> := [94, 36, 42, 43, 63, 46, 40, 91, 37, 45]

  predicate Plain(p: seq<Byte>) { forall i | 0 <= i < |p| :: p[i] !in SPECIALS }

  /** The text occurs at `s`. */
  predicate Occurs(src: seq<Byte>, w: seq<Byte>, s: nat) { s + |w| <= |src| && src[s..s + |w|] == w }

  lemma OccursParts(t: seq<Byte>, w: seq<Byte>, j: nat)
    ensures Occurs(t, w, j) && w != [] ==> t[j] == w[0] && t[j + 1..j + |w|] == w[1..]
  {
    if Occurs(t, w, j) && w != [] {
      assert t[j..j + |w|][0] == t[j] && t[j..j + |w|][1..] == t[j + 1..j + |w|];
    }
  }

  /** The loop of nospecials, over the parts of the pattern between zeros. */
  method NoSpecials(p: seq<Byte>) returns (b: bool)
    ensures b == Plain(p)
  {
    var upto := 0;
    while upto <= |p|
      invariant forall i | 0 <= i < upto && i < |p| :: p[i] !in SPECIALS
      decreases |p| + 1 - upto
    {
      var i := upto;
      while At(p, i) != 0
        invariant upto <= i <= |p| && forall j | 0 <= j < i :: p[j] !in SPECIALS
        decreases |p| - i
      {
        if At(p, i) in SPECIALS { return false; }
        i := i + 1;
      }
      assert i < |p| ==> p[i] == 0 && p[i] !in SPECIALS;
      upto := i + 1;
    }
    b := true;
  }

  /** memchr, in the `n` characters from `s` on. */
  method MemChr(t: seq<Byte>, s: nat, c: Byte, n: nat) returns (i: int)
    requires s + n <= |t|
    ensures i >= 0 ==> s <= i < s + n && t[i] == c && forall j | s <= j < i :: t[j] != c
    ensures i < 0 ==> forall j | s <= j < s + n :: t[j] != c
  {
    i := s;
    while i < s + n
      invariant s <= i <= s + n && forall j | s <= j < i :: t[j] != c
    {
      if t[i] == c { return; }
      i := i + 1;
    }
    i := -1;
  }

  /** lmemfind, from position `init` on. */
  method LMemFind(t: seq<Byte>, init: nat, w: seq<Byte>) returns (r: int)
    requires init <= |t|
    ensures r >= 0 ==> init <= r && Occurs(t, w, r) && forall j: nat | init <= j < r :: !Occurs(t, w, j)
    ensures r < 0 ==> forall j: nat | init <= j :: !Occurs(t, w, j)
  {
    if |w| == 0 { return init; }
    if |w| > |t| - init { return -1; }
    var l2 := |w| - 1;
    var s1, l1 := init, |t| - init - l2;
    while l1 > 0
      invariant init <= s1 && s1 + l1 == |t| - l2 && l1 >= 0
      invariant forall j: nat | init <= j < s1 :: !Occurs(t, w, j)
    {
      var at := MemChr(t, s1, w[0], l1);
      forall j: nat | s1 <= j && (j < at || (at < 0 && j < s1 + l1)) ensures !Occurs(t, w, j) {
        OccursParts(t, w, j);
      }
      if at < 0 { break; }
      at := at + 1;
      if t[at..at + l2] == w[1..] {
        assert t[at - 1..at - 1 + |w|] == w;
        return at - 1;
      }
      OccursParts(t, w, at - 1);
      assert !Occurs(t, w, at - 1);
      l1 := l1 - (at - s1);
      s1 := at;
    }
    r := -1;
  }

  /** A pattern of ordinary characters matches itself, once. */
  lemma {:induction false} PlainOutcomes(src: seq<Byte>, pat: seq<Byte>, s: nat, p: nat)
    requires s <= |src| && p <= |pat| && Plain(pat) && 41 !in pat[p..]
    ensures Outcomes(src, pat, s, p, []) == if Occurs(src, pat[p..], s) then [Match(s + |pat| - p, [])] else []
    decreases |pat| - p
  {
    if p < |pat| {
      var c := pat[p];
      assert c !in SPECIALS && pat[p..][0] == c && pat[p..][1..] == pat[p + 1..];
      assert c != 40 && c != 36 && c != ESC && c != 91 && c != 46 && c != 41 by {
        assert SPECIALS[6] == 40 && SPECIALS[1] == 36 && SPECIALS[8] == 37 && SPECIALS[7] == 91 && SPECIALS[5] == 46;
      }
      assert p + 1 < |pat| ==> pat[p + 1] != 63 && pat[p + 1] != 43 && pat[p + 1] != 42 && pat[p + 1] != 45 by {
        if p + 1 < |pat| {
          assert pat[p + 1] !in SPECIALS;
          assert SPECIALS[4] == 63 && SPECIALS[3] == 43 && SPECIALS[2] == 42 && SPECIALS[9] == 45;
        }
      }
      if s < |src| && src[s] == c {
        PlainOutcomes(src, pat, s + 1, p + 1);
        OccursStep(src, pat, s, p);
      } else {
        OccursParts(src, pat[p..], s);
      }
    }
  }

  lemma OccursStep(src: seq<Byte>, pat: seq<Byte>, s: nat, p: nat)
    requires p < |pat| && s < |src| && src[s] == pat[p]
    ensures Occurs(src, pat[p..], s) <==> Occurs(src, pat[p + 1..], s + 1)
  {
    var n := |pat| - p;
    if s + n <= |src| {
      assert src[s..s + n] == [src[s]] + src[s + 1..s + n];
      assert pat[p..] == [pat[p]] + pat[p + 1..];
    }
  }

  /** What the plain search answers. */
  ghost predicate PlainAnswer(src: seq<Byte>, w: seq<Byte>, init: nat, r: Answer) {
    match r
    case NotFound => forall j: nat | init <= j :: !Occurs(src, w, j)
    case Found(start, end, caps) =>
      init <= start && Occurs(src, w, start) && end == start + |w| && caps == [] && forall j: nat | init <= j < start :: !Occurs(src, w, j)
    case Failed(_) => false
  }

  /** posrelat: a position counted from the end when negative, 0 before the start. */
  function PosRelat(pos: int, len: nat): nat {
    if pos >= 0 then pos else if -pos > len then 0 else len + pos + 1
  }

  /** Where the search starts, counted from 0. */
  function StartOf(init: int, len: nat): nat {
    if PosRelat(init, len) < 1 then 0 else PosRelat(init, len) - 1
  }

  /** str_find_aux of string.find: the search is plain on request, or when the
      pattern has no specials; past the end there is nothing to find. */
  method StrFind(src: seq<Byte>, pattern: seq<Byte>, init: int, plain: bool) returns (r: Answer)
    ensures StartOf(init, |src|) > |src| ==> r == NotFound
    ensures StartOf(init, |src|) <= |src| && (plain || Plain(pattern)) ==> PlainAnswer(src, pattern, StartOf(init, |src|), r)
    ensures StartOf(init, |src|) <= |src| && !plain && !Plain(pattern) ==>
      var anchor := At(pattern, 0) == 94;
      r == Failed(TooComplex) || r == SearchFrom(src, if anchor then pattern[1..] else pattern, StartOf(init, |src|), anchor)
  {
    var start := PosRelat(init, |src|);
    if start < 1 {
      start := 1;
    } else if start > |src| + 1 {
      return NotFound;
    }
    var quick := plain;
    if !quick { quick := NoSpecials(pattern); }
    if quick {
      var at := LMemFind(src, start - 1, pattern);
      r := if at >= 0 then Found(at, at + |pattern|, []) else NotFound;
    } else {
      r := Search(src, pattern, start - 1);
    }
  }

  lemma {:induction false} PlainSearch(src: seq<Byte>, w: seq<Byte>, s: nat)
    requires s <= |src| && Plain(w) && 41 !in w
    ensures PlainAnswer(src, w, s, SearchFrom(src, w, s, false))
    decreases |src| - s
  {
    assert w[0..] == w;
    PlainOutcomes(src, w, s, 0);
    if !Occurs(src, w, s) && s < |src| { PlainSearch(src, w, s + 1); }
  }

  /** Up to a closing parenthesis the pattern matches its own characters; there
      the matcher gives up with an error. */
  lemma {:induction false} ParenOutcomes(src: seq<Byte>, w: seq<Byte>, p: nat, q: nat)
    requires p <= q < |w| && Plain(w) && w[q] == 41 && 41 !in w[p..q] && |src| >= q && src[..q] == w[..q]
    ensures Outcomes(src, w, p, p, []) == [Bad(InvalidCapture)]
    decreases q - p
  {
    var c := w[p];
    assert c !in SPECIALS;
    assert c != 40 && c != 36 && c != ESC && c != 91 && c != 46 by {
      assert SPECIALS[6] == 40 && SPECIALS[1] == 36 && SPECIALS[8] == 37 && SPECIALS[7] == 91 && SPECIALS[5] == 46;
    }
    if p < q {
      assert w[p..q][0] == c && src[..q][p] == w[..q][p];
      assert w[p + 1] !in SPECIALS && w[p + 1] != 63 && w[p + 1] != 43 && w[p + 1] != 42 && w[p + 1] != 45 by {
        assert SPECIALS[4] == 63 && SPECIALS[3] == 43 && SPECIALS[2] == 42 && SPECIALS[9] == 45;
      }
      assert forall x | x in w[p + 1..q] :: x in w[p..q] by { assert w[p..q] == [c] + w[p + 1..q]; }
      ParenOutcomes(src, w, p + 1, q);
    }
  }

  ghost predicate Agree(src: seq<Byte>, w: seq<Byte>) { PlainAnswer(src, w, 0, SearchFrom(src, w, 0, false)) }

  lemma FirstParen(w: seq<Byte>) returns (q: nat)
    requires 41 in w
    ensures q < |w| && w[q] == 41 && 41 !in w[..q]
  {
    q := 0;
    while w[q] != 41
      invariant q < |w| && 41 !in w[..q] && 41 in w[q..]
      decreases |w| - q
    {
      assert w[..q + 1] == w[..q] + [w[q]];
      assert w[q..] == [w[q]] + w[q + 1..];
      q := q + 1;
    }
  }

  /** The plain search gives what the matcher would, for every subject, if and
      only if the pattern has no closing parenthesis, which is not counted among
      the special characters although the matcher gives it a meaning. */
  lemma PlainSearchExact(w: seq<Byte>)
    requires Plain(w)
    ensures (forall src :: Agree(src, w)) <==> 41 !in w
  {
    if 41 !in w {
      forall src ensures Agree(src, w) { PlainSearch(src, w, 0); }
    } else {
      var q := FirstParen(w);
      var src := w[..q];
      assert w[0..q] == w[..q] && src[..q] == w[..q];
      ParenOutcomes(src, w, 0, q);
      assert SearchFrom(src, w, 0, false) == Failed(InvalidCapture);
      assert !Agree(src, w);
    }
  }
}
