/** The pattern matcher (lstrlib.c): a backtracking search that records its
    captures in place and undoes them when it fails. */
module Matcher {
  import opened Patterns

  const MAXCCALLS := 200

  datatype Result = Fail | Ok(e: nat) | Err(error: Error)

  /** The search ends with the first of the outcomes, unless it is too deep. */
  ghost predicate First(r: Result, caps: seq<Cap>, os: seq<Outcome>) {
    match r
    case Fail => os == []
    case Ok(e) => os != [] && os[0] == Match(e, caps)
    case Err(x) => x == TooComplex || (os != [] && os[0] == Bad(x))
  }

  class MatchState {
    const src: seq<Byte>
    const pat: seq<Byte>
    var matchdepth: int
    var level: nat
    const capture: array<Cap>

    predicate Valid()
      reads this
    {
      capture.Length == MAXCAPTURES && level <= MAXCAPTURES && matchdepth >= 0
    }

    ghost function Caps(): seq<Cap>
      requires Valid()
      reads this, capture
    {
      capture[..level]
    }

    constructor (src: seq<Byte>, pat: seq<Byte>)
      ensures Valid() && this.src == src && this.pat == pat && matchdepth == MAXCCALLS && level == 0 && fresh(capture)
    {
      this.src, this.pat := src, pat;
      matchdepth, level := MAXCCALLS, 0;
      capture := new Cap[MAXCAPTURES](i => Cap(0, 0));
    }

    /** What every step of the search keeps: when it fails the captures are as
        before, and unless it ends with an error the depth is as before. When
        the depth is larger than the rest of the pattern, it is enough. */
    twostate predicate Searched(r: Result, os: seq<Outcome>, need: int)
      requires old(Valid())
      reads this, capture
    {
      && Valid() && First(r, Caps(), os)
      && (!r.Err? ==> matchdepth == old(matchdepth))
      && (r.Fail? ==> Caps() == old(Caps()))
      && (r == Err(TooComplex) ==> old(matchdepth) < need)
    }

    // ---------------------------------------------------------------- classes

    /** The loop of classend over a set. */
    method FindSetEnd(p: nat) returns (r: End)
      requires p <= |pat|
      ensures r == SetEnd(pat, p)
    {
      var q := p;
      while true
        invariant q <= |pat| && SetEnd(pat, q) == SetEnd(pat, p)
        decreases |pat| - q
      {
        if q == |pat| { return Malformed(MissingBracket); }
        var c := pat[q];
        q := q + 1;
        if c == ESC && q < |pat| { q := q + 1; }
        if At(pat, q) == 93 { return EndAt(q + 1); }
      }
    }

    method FindClassEnd(p: nat) returns (r: End)
      requires p < |pat|
      ensures r == ClassEnd(pat, p)
    {
      if pat[p] == ESC {
        r := if p + 1 == |pat| then Malformed(EndsWithEsc) else EndAt(p + 2);
      } else if pat[p] == 91 {
        r := FindSetEnd(if At(pat, p + 1) == 94 then p + 2 else p + 1);
      } else {
        r := EndAt(p + 1);
      }
    }

    /** matchbracketclass. */
    method MatchBracketClass(c: Byte, p: nat, ec: nat) returns (b: bool)
      ensures b == InBracket(c, pat, p, ec)
    {
      var sig := true;
      var q := p;
      if At(pat, q + 1) == 94 {
        sig := false;
        q := q + 1;
      }
      q := q + 1;
      ghost var start := q;
      while q < ec
        invariant InSet(c, pat, q, ec) == InSet(c, pat, start, ec)
        decreases ec - q
      {
        if At(pat, q) == ESC {
          q := q + 1;
          if InClass(c, At(pat, q)) { return sig; }
        } else if At(pat, q + 1) == 45 && q + 2 < ec {
          q := q + 2;
          if At(pat, q - 2) <= c && c <= At(pat, q) { return sig; }
        } else if At(pat, q) == c {
          return sig;
        }
        q := q + 1;
      }
      b := !sig;
    }

    method SingleMatch(s: nat, p: nat, ep: nat) returns (b: bool)
      requires p < |pat| && ep > 0
      ensures b == Single(src, pat, s, p, ep)
    {
      if s >= |src| { return false; }
      if pat[p] == 46 { return true; }
      if pat[p] == ESC { return InClass(src[s], At(pat, p + 1)); }
      if pat[p] == 91 {
        b := MatchBracketClass(src[s], p, ep - 1);
        return;
      }
      b := pat[p] == src[s];
    }

    /** matchbalance. */
    method MatchBalance(s: nat, b: Byte, e: Byte) returns (r: Place)
      ensures r == BalanceFrom(src, b, e, s)
    {
      if At(src, s) != b { return Nowhere; }
      var cont, t := 1, s + 1;
      while t < |src|
        invariant cont > 0 && Balance(src, b, e, t, cont) == Balance(src, b, e, s + 1, 1)
      {
        if src[t] == e {
          cont := cont - 1;
          if cont == 0 { return Somewhere(t + 1); }
        } else if src[t] == b {
          cont := cont + 1;
        }
        t := t + 1;
      }
      r := Nowhere;
    }

    // ---------------------------------------------------------------- captures

    /** capture_to_close. */
    method CaptureToClose() returns (l: int)
      requires Valid()
      ensures l == OpenCapture(Caps())
    {
      l := level - 1;
      while l >= 0
        invariant -1 <= l < level && OpenCapture(capture[..l + 1]) == OpenCapture(Caps())
      {
        assert capture[..l + 1][..l] == capture[..l];
        if capture[l].len == CAP_UNFINISHED { return; }
        l := l - 1;
      }
    }

    method StartCapture(s: nat, p: nat, what: int) returns (r: Result)
      requires Valid() && s <= |src| && p <= |pat|
      modifies this, capture
      ensures Searched(r, if |old(Caps())| >= MAXCAPTURES then [Bad(TooManyCaptures)]
                          else Outcomes(src, pat, s, p, old(Caps()) + [Cap(s, what)]), |pat| - p + 1)
      decreases |pat| - p, 3
    {
      if level >= MAXCAPTURES { return Err(TooManyCaptures); }
      ghost var caps := Caps();
      capture[level] := Cap(s, what);
      level := level + 1;
      assert Caps() == caps + [Cap(s, what)];
      r := DoMatch(s, p);
      if r.Fail? {
        level := level - 1;
        assert Caps() == (caps + [Cap(s, what)])[..level];
      }
    }

    method EndCapture(s: nat, p: nat) returns (r: Result)
      requires Valid() && s <= |src| && p <= |pat|
      modifies this, capture
      ensures Searched(r, var l := OpenCapture(old(Caps()));
                          if l < 0 then [Bad(InvalidCapture)]
                          else Outcomes(src, pat, s, p, old(Caps())[l := old(Caps())[l].(len := s - old(Caps())[l].init)]), |pat| - p + 1)
      decreases |pat| - p, 3
    {
      var l := CaptureToClose();
      if l < 0 { return Err(InvalidCapture); }
      ghost var caps := Caps();
      capture[l] := capture[l].(len := s - capture[l].init);
      assert Caps() == caps[l := caps[l].(len := s - caps[l].init)];
      r := DoMatch(s, p);
      if r.Fail? {
        assert Caps()[l] == caps[l].(len := s - caps[l].init);
        capture[l] := capture[l].(len := CAP_UNFINISHED);
        assert Caps() == caps;
      }
    }

    // --------------------------------------------------------------- repetition

    method MaxExpand(s: nat, p: nat, ep: nat) returns (r: Result)
      requires Valid() && s <= |src| && p < ep < |pat|
      modifies this, capture
      ensures Searched(r, Longest(src, pat, s, ep + 1, Times(src, pat, s, p, ep), old(Caps())), |pat| - ep)
      decreases |pat| - ep - 1, 3
    {
      hide Outcomes, Item, Single, InBracket;
      ghost var caps, depth, n := Caps(), matchdepth, Times(src, pat, s, p, ep);
      var i := 0;
      while true
        invariant s + i <= |src| && i + Times(src, pat, s + i, p, ep) == n
        invariant Valid() && Caps() == caps && matchdepth == depth
        decreases |src| - s - i
      {
        var b := SingleMatch(s + i, p, ep);
        if !b { break; }
        i := i + 1;
      }
      ghost var all := Longest(src, pat, s, ep + 1, i, caps);
      while i >= 0
        invariant -1 <= i && s + i <= |src| && Valid() && Caps() == caps && matchdepth == depth
        invariant all == if i < 0 then [] else Longest(src, pat, s, ep + 1, i, caps)
      {
        r := DoMatch(s + i, ep + 1);
        if !r.Fail? { return; }
        i := i - 1;
      }
      r := Fail;
    }

    method MinExpand(s: nat, p: nat, ep: nat) returns (r: Result)
      requires Valid() && s <= |src| && p < ep < |pat|
      modifies this, capture
      ensures Searched(r, Shortest(src, pat, s, ep + 1, Times(src, pat, s, p, ep), old(Caps())), |pat| - ep)
      decreases |pat| - ep - 1, 3
    {
      hide Outcomes, Item, Single, InBracket;
      ghost var caps, depth := Caps(), matchdepth;
      ghost var all := Shortest(src, pat, s, ep + 1, Times(src, pat, s, p, ep), caps);
      var t := s;
      while true
        invariant t <= |src| && Valid() && Caps() == caps && matchdepth == depth
        invariant all == Shortest(src, pat, t, ep + 1, Times(src, pat, t, p, ep), caps)
        decreases |src| - t
      {
        r := DoMatch(t, ep + 1);
        if !r.Fail? { return; }
        var b := SingleMatch(t, p, ep);
        if !b { return Fail; }
        t := t + 1;
      }
    }

    // ------------------------------------------------------------------- match

    /** The escapes that are not single characters. */
    method Escape(s: nat, p: nat) returns (step: Step)
      requires Valid() && s <= |src| && p < |pat| && pat[p] == ESC && Special(At(pat, p + 1))
      ensures Stepped(step, s, p, Outcomes(src, pat, s, p, Caps()))
    {
      var c := At(pat, p + 1);
      if c == 98 {
        if p + 3 >= |pat| { return Stop(Err(MissingArguments)); }
        var r := MatchBalance(s, pat[p + 2], pat[p + 3]);
        step := if r.Nowhere? then Stop(Fail) else Goto(r.s, p + 4);
      } else if c == 102 {
        if At(pat, p + 2) != 91 { return Stop(Err(MissingFrontier)); }
        var end := FindClassEnd(p + 2);
        if end.Malformed? { return Stop(Err(end.error)); }
        var previous := if s == 0 then 0 else src[s - 1];
        var before := MatchBracketClass(previous, p + 2, end.ep - 1);
        var here := MatchBracketClass(At(src, s), p + 2, end.ep - 1);
        step := if !before && here then Goto(s, end.ep) else Stop(Fail);
      } else {
        var l: int := c as int - 49;
        if l < 0 || l >= level || capture[l].len == CAP_UNFINISHED { return Stop(Err(InvalidIndex)); }
        assert Caps()[l] == capture[l];
        step := if Again(src, capture[l], s) then Goto(s + capture[l].len, p + 2) else Stop(Fail);
      }
    }

    /** A single-character item with its suffix. */
    method ItemStep(s: nat, p: nat) returns (step: Step)
      requires Valid() && s <= |src| && p < |pat|
      modifies this, capture
      ensures ItemStepped(step, s, p)
      decreases |pat| - p, 1, 0
    {
      var end := FindClassEnd(p);
      if end.Malformed? { return Stop(Err(end.error)); }
      var ep := end.ep;
      var suffix := At(pat, ep);
      var once := SingleMatch(s, p, ep);
      if !once {
        step := if ep < |pat| && (suffix == 42 || suffix == 63 || suffix == 45) then Goto(s, ep + 1) else Stop(Fail);
      } else if ep < |pat| && suffix == 63 {
        var r := DoMatch(s + 1, ep + 1);
        step := if r.Fail? then Goto(s, ep + 1) else Stop(r);
      } else if ep < |pat| && suffix == 43 {
        var r := MaxExpand(s + 1, p, ep);
        step := Stop(r);
      } else if ep < |pat| && suffix == 42 {
        var r := MaxExpand(s, p, ep);
        step := Stop(r);
      } else if ep < |pat| && suffix == 45 {
        var r := MinExpand(s, p, ep);
        step := Stop(r);
      } else {
        step := Goto(s + 1, ep);
      }
    }

    /** One turn of `match` from `s` and `p`: it ends, or goes on further down
        the pattern with the same outcomes. */
    ghost predicate Stepped(step: Step, s: nat, p: nat, os: seq<Outcome>)
      requires Valid()
      reads this, capture
    {
      match step
      case Stop(r) => First(r, Caps(), os) && r != Err(TooComplex)
      case Goto(s', p') => s' <= |src| && p < p' <= |pat| && os == Outcomes(src, pat, s', p', Caps())
    }

    twostate predicate ItemStepped(step: Step, s: nat, p: nat)
      requires old(Valid()) && s <= |src| && p < |pat|
      reads this, capture
    {
      var os := Item(src, pat, s, p, old(Caps()));
      match step
      case Stop(r) => Searched(r, os, |pat| - p)
      case Goto(s', p') =>
        && Valid() && Caps() == old(Caps()) && matchdepth == old(matchdepth)
        && s' <= |src| && p < p' <= |pat| && os == Outcomes(src, pat, s', p', Caps())
    }

    // ------------------------------------------------------------------- match

    /** match. Its jumps back to the start are the turns of the loop. */
    method DoMatch(s0: nat, p0: nat) returns (r: Result)
      requires Valid() && s0 <= |src| && p0 <= |pat|
      modifies this, capture
      ensures Searched(r, Outcomes(src, pat, s0, p0, old(Caps())), |pat| - p0 + 1)
      decreases |pat| - p0, 2
    {
      if matchdepth == 0 { return Err(TooComplex); }
      matchdepth := matchdepth - 1;
      ghost var caps, depth, os := Caps(), matchdepth, Outcomes(src, pat, s0, p0, Caps());
      var s: nat, p: nat := s0, p0;
      while true
        invariant s <= |src| && p0 <= p <= |pat| && Valid() && Caps() == caps && matchdepth == depth
        invariant Outcomes(src, pat, s, p, caps) == os
        decreases |pat| - p
      {
        var step := Turn(s, p);
        match step {
          case Goto(s', p') => s, p := s', p';
          case Stop(res) =>
            r := res;
            break;
        }
      }
      if !r.Err? { matchdepth := matchdepth + 1; }
    }

    method Turn(s: nat, p: nat) returns (step: Step)
      requires Valid() && s <= |src| && p <= |pat|
      modifies this, capture
      ensures match step
              case Stop(r) => Searched(r, Outcomes(src, pat, s, p, old(Caps())), |pat| - p)
              case Goto(s', p') =>
                && Valid() && Caps() == old(Caps()) && matchdepth == old(matchdepth)
                && s' <= |src| && p < p' <= |pat|
                && Outcomes(src, pat, s, p, old(Caps())) == Outcomes(src, pat, s', p', old(Caps()))
      decreases |pat| - p, 1, 1
    {
      if p == |pat| { return Stop(Ok(s)); }
      var c := pat[p];
      if c == 40 {
        var r;
        if At(pat, p + 1) == 41 {
          r := StartCapture(s, p + 2, CAP_POSITION);
        } else {
          r := StartCapture(s, p + 1, CAP_UNFINISHED);
        }
        step := Stop(r);
      } else if c == 41 {
        var r := EndCapture(s, p + 1);
        step := Stop(r);
      } else if c == 36 && p + 1 == |pat| {
        step := Stop(if s == |src| then Ok(s) else Fail);
      } else if c == ESC && Special(At(pat, p + 1)) {
        step := Escape(s, p);
      } else {
        step := ItemStep(s, p);
      }
    }
  }

  datatype Step = Stop(r: Result) | Goto(s: nat, p: nat)

  /** The characters that make an escape more than a single character. */
  predicate Special(c: Byte) { c == 98 || c == 102 || IsDigit(c) }
}
