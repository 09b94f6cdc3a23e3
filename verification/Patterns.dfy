/** What patterns mean (lstrlib.c): the outcomes of a match in the order in
    which a backtracking search comes to them. */
module Patterns {
  type Byte = x: int | 0 <= x < 256

  const ESC: Byte := 37
  const MAXCAPTURES := 32
  const CAP_UNFINISHED := -1
  const CAP_POSITION := -2

  /** A capture: where it begins, and its length or one of the marks above. */
  datatype Cap = Cap(init: nat, len: int)

  datatype Error =
    | EndsWithEsc | MissingBracket | MissingArguments | MissingFrontier
    | InvalidIndex | InvalidCapture | TooManyCaptures | TooComplex

  datatype Outcome = Match(e: nat, caps: seq<Cap>) | Bad(error: Error)

  /** Strings end with a zero byte that is not part of them. */
  function At(s: seq<Byte>, i: nat): Byte { if i < |s| then s[i] else 0 }

  // ------------------------------------------------------- classes of characters

  predicate IsLower(c: Byte) { 97 <= c <= 122 }
  predicate IsUpper(c: Byte) { 65 <= c <= 90 }
  predicate IsDigit(c: Byte) { 48 <= c <= 57 }
  predicate IsAlpha(c: Byte) { IsLower(c) || IsUpper(c) }
  predicate IsCntrl(c: Byte) { c < 32 || c == 127 }
  predicate IsGraph(c: Byte) { 33 <= c <= 126 }
  predicate IsSpace(c: Byte) { c == 32 || 9 <= c <= 13 }
  predicate IsXDigit(c: Byte) { IsDigit(c) || 97 <= c <= 102 || 65 <= c <= 70 }
  predicate IsPunct(c: Byte) { IsGraph(c) && !IsAlpha(c) && !IsDigit(c) }

  function ToLower(c: Byte): Byte { if IsUpper(c) then c + 32 else c }

  /** match_class. */
  predicate InClass(c: Byte, cl: Byte) {
    var k := ToLower(cl);
    if k == 97 then IsAlpha(c) == IsLower(cl)
    else if k == 99 then IsCntrl(c) == IsLower(cl)
    else if k == 100 then IsDigit(c) == IsLower(cl)
    else if k == 103 then IsGraph(c) == IsLower(cl)
    else if k == 108 then IsLower(c) == IsLower(cl)
    else if k == 112 then IsPunct(c) == IsLower(cl)
    else if k == 115 then IsSpace(c) == IsLower(cl)
    else if k == 117 then IsUpper(c) == IsLower(cl)
    else if k == 119 then (IsAlpha(c) || IsDigit(c)) == IsLower(cl)
    else if k == 120 then IsXDigit(c) == IsLower(cl)
    else if k == 122 then (c == 0) == IsLower(cl)
    else cl == c
  }

  datatype End = EndAt(ep: nat) | Malformed(error: Error)

  /** The loop of classend for a set: `p` is behind the bracket, or behind an
      element of the set. */
  function SetEnd(pat: seq<Byte>, p: nat): (r: End)
    requires p <= |pat|
    ensures if r.EndAt? then p < r.ep <= |pat| && pat[r.ep - 1] == 93 else r.error != TooComplex
    decreases |pat| - p
  {
    if p == |pat| then Malformed(MissingBracket)
    else
      var q := if pat[p] == ESC && p + 1 < |pat| then p + 2 else p + 1;
      if At(pat, q) == 93 then EndAt(q + 1) else SetEnd(pat, q)
  }

  /** classend. */
  function ClassEnd(pat: seq<Byte>, p: nat): (r: End)
    requires p < |pat|
    ensures if r.EndAt? then p < r.ep <= |pat| else r.error != TooComplex
  {
    if pat[p] == ESC then
      if p + 1 == |pat| then Malformed(EndsWithEsc) else EndAt(p + 2)
    else if pat[p] == 91 then SetEnd(pat, if At(pat, p + 1) == 94 then p + 2 else p + 1)
    else EndAt(p + 1)
  }

  /** The loop of matchbracketclass: does an element from `p` on, before the
      closing bracket at `ec`, contain the character? */
  predicate InSet(c: Byte, pat: seq<Byte>, p: nat, ec: nat)
    decreases ec - p
  {
    if p >= ec then false
    else if At(pat, p) == ESC then InClass(c, At(pat, p + 1)) || InSet(c, pat, p + 2, ec)
    else if At(pat, p + 1) == 45 && p + 2 < ec then At(pat, p) <= c <= At(pat, p + 2) || InSet(c, pat, p + 3, ec)
    else At(pat, p) == c || InSet(c, pat, p + 1, ec)
  }

  /** matchbracketclass, for a set that begins at `p` and ends at `ec`. */
  predicate InBracket(c: Byte, pat: seq<Byte>, p: nat, ec: nat) {
    if At(pat, p + 1) == 94 then !InSet(c, pat, p + 2, ec) else InSet(c, pat, p + 1, ec)
  }

  /** singlematch: the single-character item between `p` and `ep`. */
  predicate Single(src: seq<Byte>, pat: seq<Byte>, s: nat, p: nat, ep: nat)
    requires p < |pat| && ep > 0
  {
    && s < |src|
    && if pat[p] == 46 then true
       else if pat[p] == ESC then InClass(src[s], At(pat, p + 1))
       else if pat[p] == 91 then InBracket(src[s], pat, p, ep - 1)
       else pat[p] == src[s]
  }

  // ------------------------------------------------------------------ items

  datatype Place = Nowhere | Somewhere(s: nat)

  /** matchbalance's search, from `s`, with `n` open. */
  function Balance(src: seq<Byte>, b: Byte, e: Byte, s: nat, n: nat): (r: Place)
    requires n > 0
    ensures r.Somewhere? ==> s < r.s <= |src|
    decreases |src| - s
  {
    if s >= |src| then Nowhere
    else if src[s] == e then (if n == 1 then Somewhere(s + 1) else Balance(src, b, e, s + 1, n - 1))
    else if src[s] == b then Balance(src, b, e, s + 1, n + 1)
    else Balance(src, b, e, s + 1, n)
  }

  function BalanceFrom(src: seq<Byte>, b: Byte, e: Byte, s: nat): (r: Place)
    ensures r.Somewhere? ==> s < r.s <= |src|
  {
    if At(src, s) != b then Nowhere else Balance(src, b, e, s + 1, 1)
  }

  /** The last capture that is still open, or -1. */
  function OpenCapture(caps: seq<Cap>): (l: int)
    ensures -1 <= l < |caps| && (l >= 0 ==> caps[l].len == CAP_UNFINISHED)
  {
    if caps == [] then -1
    else if caps[|caps| - 1].len == CAP_UNFINISHED then |caps| - 1
    else OpenCapture(caps[..|caps| - 1])
  }

  /** The text of a capture occurs again at `s`. A position capture is treated
      as one of enormous length. */
  predicate Again(src: seq<Byte>, c: Cap, s: nat)
    requires s <= |src|
  {
    c.len >= 0 && c.len <= |src| - s && c.init + c.len <= |src| && src[c.init..c.init + c.len] == src[s..s + c.len]
  }

  /** How often the item matches in a row. */
  function Times(src: seq<Byte>, pat: seq<Byte>, s: nat, p: nat, ep: nat): (n: nat)
    requires p < |pat| && ep > 0
    ensures n == 0 || s + n <= |src|
    decreases |src| - s
  {
    if Single(src, pat, s, p, ep) then 1 + Times(src, pat, s + 1, p, ep) else 0
  }

  // --------------------------------------------------------------- outcomes

  /** All ways in which the pattern from `p` on matches from `s` on, in order of
      preference; an error is where the search would end with it. */
  function Outcomes(src: seq<Byte>, pat: seq<Byte>, s: nat, p: nat, caps: seq<Cap>): seq<Outcome>
    requires s <= |src| && p <= |pat|
    decreases |pat| - p, 2, 0
  {
    if p == |pat| then [Match(s, caps)]
    else if pat[p] == 40 then
      if |caps| >= MAXCAPTURES then [Bad(TooManyCaptures)]
      else if At(pat, p + 1) == 41 then Outcomes(src, pat, s, p + 2, caps + [Cap(s, CAP_POSITION)])
      else Outcomes(src, pat, s, p + 1, caps + [Cap(s, CAP_UNFINISHED)])
    else if pat[p] == 41 then
      var l := OpenCapture(caps);
      if l < 0 then [Bad(InvalidCapture)]
      else Outcomes(src, pat, s, p + 1, caps[l := caps[l].(len := s - caps[l].init)])
    else if pat[p] == 36 && p + 1 == |pat| then
      if s == |src| then [Match(s, caps)] else []
    else if pat[p] == ESC && At(pat, p + 1) == 98 then
      if p + 3 >= |pat| then [Bad(MissingArguments)]
      else
        var r := BalanceFrom(src, pat[p + 2], pat[p + 3], s);
        if r.Nowhere? then [] else Outcomes(src, pat, r.s, p + 4, caps)
    else if pat[p] == ESC && At(pat, p + 1) == 102 then
      if At(pat, p + 2) != 91 then [Bad(MissingFrontier)]
      else
        match ClassEnd(pat, p + 2)
        case Malformed(e) => [Bad(e)]
        case EndAt(ep) =>
          var previous := if s == 0 then 0 else src[s - 1];
          if !InBracket(previous, pat, p + 2, ep - 1) && InBracket(At(src, s), pat, p + 2, ep - 1) then
            Outcomes(src, pat, s, ep, caps)
          else []
    else if pat[p] == ESC && IsDigit(At(pat, p + 1)) then
      var l: int := pat[p + 1] as int - 49;
      if l < 0 || l >= |caps| || caps[l].len == CAP_UNFINISHED then [Bad(InvalidIndex)]
      else if Again(src, caps[l], s) then Outcomes(src, pat, s + caps[l].len, p + 2, caps)
      else []
    else Item(src, pat, s, p, caps)
  }

  /** A single-character item with its suffix. */
  function Item(src: seq<Byte>, pat: seq<Byte>, s: nat, p: nat, caps: seq<Cap>): seq<Outcome>
    requires s <= |src| && p < |pat|
    decreases |pat| - p, 1, 0
  {
    match ClassEnd(pat, p)
    case Malformed(e) => [Bad(e)]
    case EndAt(ep) =>
      var once := Single(src, pat, s, p, ep);
      if ep < |pat| && pat[ep] == 63 then
        (if once then Outcomes(src, pat, s + 1, ep + 1, caps) else []) + Outcomes(src, pat, s, ep + 1, caps)
      else if ep < |pat| && pat[ep] == 43 then
        if once then Longest(src, pat, s + 1, ep + 1, Times(src, pat, s + 1, p, ep), caps) else []
      else if ep < |pat| && pat[ep] == 42 then
        Longest(src, pat, s, ep + 1, Times(src, pat, s, p, ep), caps)
      else if ep < |pat| && pat[ep] == 45 then
        Shortest(src, pat, s, ep + 1, Times(src, pat, s, p, ep), caps)
      else if once then Outcomes(src, pat, s + 1, ep, caps)
      else []
  }

  /** The rest of the pattern after `i`, `i - 1`, ..., 0 characters. */
  function Longest(src: seq<Byte>, pat: seq<Byte>, s: nat, p: nat, i: nat, caps: seq<Cap>): seq<Outcome>
    requires s + i <= |src| && p <= |pat|
    decreases |pat| - p, 3, i
  {
    Outcomes(src, pat, s + i, p, caps) + if i == 0 then [] else Longest(src, pat, s, p, i - 1, caps)
  }

  /** The rest of the pattern after 0, 1, ..., `n` characters. */
  function Shortest(src: seq<Byte>, pat: seq<Byte>, s: nat, p: nat, n: nat, caps: seq<Cap>): seq<Outcome>
    requires s + n <= |src| && p <= |pat|
    decreases |pat| - p, 3, n
  {
    Outcomes(src, pat, s, p, caps) + if n == 0 then [] else Shortest(src, pat, s + 1, p, n - 1, caps)
  }
}
