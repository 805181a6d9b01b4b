/** Searching and trimming text: std::string::find and the configuration reader's Trim. */
module Texts {
  import opened Common
  import opened Decimal

  predicate OccursAt(s: string, pattern: string, i: int)
  {
    0 <= i && i + |pattern| <= |s| && s[i..i + |pattern|] == pattern
  }

  /** The first occurrence at or after `from`. */
  function Find(s: string, pattern: string, from: nat): (r: Option<nat>)
    ensures r.Some? ==> from <= r.value && OccursAt(s, pattern, r.value)
    ensures forall i: int :: from <= i && OccursAt(s, pattern, i) ==> r.Some? && r.value <= i
    decreases |s| - from
  {
    if from + |pattern| > |s| then None
    else if s[from..from + |pattern|] == pattern then Some(from)
    else Find(s, pattern, from + 1)
  }

  /** Where the parts of a text put together from five lie. */
  lemma Layout(a: string, b: string, c: string, d: string, e: string)
    ensures var s, n := a + (b + (c + (d + e))), |a| + |b|;
            && s[0..|a|] == a && s[n..] == c + (d + e) && s[n..n + |c|] == c && s[n + |c| + |d|..] == e
  {
  }

  lemma CutInFive(s: string, i: nat, j: nat, k: nat, l: nat)
    requires i <= j <= k <= l <= |s|
    ensures s == s[0..i] + (s[i..j] + (s[j..k] + (s[k..l] + s[l..])))
  {
  }

  lemma OccursInSlice(s: string, pattern: string, a: nat, b: nat, i: int)
    requires a <= b <= |s| && 0 <= i && i + |pattern| <= b - a
    ensures OccursAt(s[a..b], pattern, i) <==> OccursAt(s, pattern, a + i)
  {
    var inner, outer := s[a..b][i..i + |pattern|], s[a + i..a + i + |pattern|];
    assert forall k :: 0 <= k < |pattern| ==> inner[k] == outer[k];
    assert inner == outer;
  }

  /** Nothing is found before the first occurrence. */
  lemma NothingBefore(s: string, pattern: string, from: nat, end: nat)
    requires pattern != "" && Find(s, pattern, from) == Some(end)
    ensures Find(s[from..end], pattern, 0).None?
  {
    hide Find;
    var r := Find(s[from..end], pattern, 0);
    if r.Some? {
      OccursInSlice(s, pattern, from, end, r.value);
    }
  }

  /** A pattern without a repeated character cannot begin inside the text it is appended to. */
  predicate Sharp(pattern: string)
  {
    |pattern| == 1 || (|pattern| == 2 && pattern[0] != pattern[1])
  }

  lemma NotIn(s: string, c: char)
    requires forall i :: 0 <= i < |s| ==> s[i] != c
    ensures Find(s, [c], 0).None?
  {
    hide Find;
    forall i: int | 0 <= i ensures !OccursAt(s, [c], i) {
      if i < |s| { assert s[i..i + 1][0] == s[i]; }
    }
  }

  /** Text that does not contain the pattern, followed by the pattern and anything else. */
  lemma FoundAfter(before: string, pattern: string, after: string)
    requires Sharp(pattern) && Find(before, pattern, 0).None?
    ensures Find(before + (pattern + after), pattern, 0) == Some(|before|)
  {
    hide Find;
    var s := before + (pattern + after);
    assert s[|before|..|before| + |pattern|] == pattern;
    assert s[0..|before|] == before;
    assert OccursAt(s, pattern, |before|);
    forall i: int | 0 <= i < |before| ensures !OccursAt(s, pattern, i) {
      if i + |pattern| <= |before| {
        OccursInSlice(s, pattern, 0, |before|, i);
      } else {
        assert s[i..i + 2][1] == pattern[0];
      }
    }
  }

  /** Looking from a position is looking in the rest of the text. */
  lemma FindInRest(s: string, pattern: string, from: nat)
    requires from <= |s| && pattern != ""
    ensures var r, rest := Find(s, pattern, from), Find(s[from..], pattern, 0);
            r == if rest.None? then None else Some(from + rest.value)
  {
    hide Find;
    forall i: int | 0 <= i ensures OccursAt(s[from..], pattern, i) <==> OccursAt(s, pattern, from + i) {
      if from + i + |pattern| <= |s| {
        OccursInSlice(s, pattern, from, |s|, i);
      }
    }
    assert forall i: int :: from <= i && OccursAt(s, pattern, i) ==> OccursAt(s[from..], pattern, i - from);
  }

  /** The same behind a prefix that the search skips. */
  lemma FoundBehind(prefix: string, before: string, pattern: string, after: string)
    requires Sharp(pattern) && Find(before, pattern, 0).None?
    ensures Find(prefix + (before + (pattern + after)), pattern, |prefix|) == Some(|prefix| + |before|)
  {
    hide Find;
    var s := prefix + (before + (pattern + after));
    assert s[|prefix|..] == before + (pattern + after);
    FoundAfter(before, pattern, after);
    FindInRest(s, pattern, |prefix|);
  }

  function TrimLeft(s: string): string
  {
    SkipSpaces(s)
  }

  function TrimRight(s: string): string
    decreases |s|
  {
    if s != "" && IsSpace(s[|s| - 1]) then TrimRight(s[..|s| - 1]) else s
  }

  function Trim(s: string): string
  {
    TrimRight(TrimLeft(s))
  }

  predicate Blank(s: string)
  {
    forall i :: 0 <= i < |s| ==> IsSpace(s[i])
  }

  lemma {:induction false} TrimLeftOff(blanks: string, s: string)
    requires Blank(blanks) && (s == "" || !IsSpace(s[0]))
    ensures TrimLeft(blanks + s) == s
  {
    if blanks == "" {
      assert blanks + s == s;
    } else {
      assert (blanks + s)[1..] == blanks[1..] + s;
      TrimLeftOff(blanks[1..], s);
    }
  }

  lemma {:induction false} TrimRightOff(s: string, blanks: string)
    requires Blank(blanks) && (s == "" || !IsSpace(s[|s| - 1]))
    ensures TrimRight(s + blanks) == s
    decreases |blanks|
  {
    if blanks == "" {
      assert s + blanks == s;
    } else {
      var n := |blanks| - 1;
      assert (s + blanks)[..|s| + n] == s + blanks[..n];
      TrimRightOff(s, blanks[..n]);
    }
  }

  predicate Bare(s: string)
  {
    s == "" || (!IsSpace(s[0]) && !IsSpace(s[|s| - 1]))
  }

  predicate Around(left: string, core: string, right: string, s: string)
  {
    Blank(left) && Blank(right) && s == left + core + right
  }

  lemma TrimIs(left: string, core: string, right: string)
    requires Blank(left) && Bare(core) && Blank(right)
    ensures Trim(left + core + right) == core
  {
    if core == "" {
      assert left + core + right == (left + right) + "";
      TrimLeftOff(left + right, "");
    } else {
      assert left + core + right == left + (core + right);
      TrimLeftOff(left, core + right);
      TrimRightOff(core, right);
    }
  }

  /** What Trim leaves is the one text without blanks at its ends that blanks around it make up the input. */
  lemma TrimExactly(s: string, core: string)
    ensures Trim(s) == core <==> Bare(core) && exists left, right :: Around(left, core, right, s)
  {
    var left, right := TrimParts(s);
    assert Around(left, Trim(s), right, s);
    if Bare(core) && exists l, r :: Around(l, core, r, s) {
      var l, r :| Around(l, core, r, s);
      TrimIs(l, core, r);
    }
  }

  /** The blanks Trim takes off. */
  lemma {:induction false} TrimParts(s: string) returns (left: string, right: string)
    ensures Blank(left) && Blank(right) && s == left + Trim(s) + right && Bare(Trim(s))
  {
    left := LeftPart(s);
    var rest := TrimLeft(s);
    right := RightPart(rest);
    assert s == left + rest && rest == Trim(s) + right;
    if Trim(s) != "" { assert Trim(s)[0] == rest[0]; }
  }

  lemma {:induction false} LeftPart(s: string) returns (left: string)
    ensures Blank(left) && s == left + TrimLeft(s) && (TrimLeft(s) != "" ==> !IsSpace(TrimLeft(s)[0]))
  {
    left := "";
    if s != "" && IsSpace(s[0]) {
      left := LeftPart(s[1..]);
      left := [s[0]] + left;
    }
  }

  lemma {:induction false} RightPart(s: string) returns (right: string)
    ensures Blank(right) && s == TrimRight(s) + right
    ensures TrimRight(s) != "" ==> !IsSpace(TrimRight(s)[|TrimRight(s)| - 1])
    decreases |s|
  {
    right := "";
    if s != "" && IsSpace(s[|s| - 1]) {
      right := RightPart(s[..|s| - 1]);
      right := right + [s[|s| - 1]];
    }
  }
}
