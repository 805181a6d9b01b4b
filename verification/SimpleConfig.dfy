/**
 The configuration reader: `key = value` lines whose values may refer to environment variables as
 ${NAME} or ${NAME:-fallback}.
 */
module SimpleConfigs {
  import opened Common
  import opened Decimal
  import opened Texts

  /** The process environment, by variable name. */
  type Environment = map<string, string>

  /** What C sees of a text: everything before the first NUL. */
  function CString(s: string): string
  {
    if s == "" || s[0] == '\0' then "" else [s[0]] + CString(s[1..])
  }

  /** The variable's value, unless it is unset or empty. */
  function Setting(env: Environment, name: string): Option<string>
  {
    if name != "" && CString(name) in env && env[CString(name)] != "" then Some(env[CString(name)]) else None
  }

  /** ResolveEnvironmentReference. */
  function Resolve(env: Environment, reference: string): string
  {
    var expression := Trim(reference);
    var separator := Find(expression, ":-", 0);
    var name := Trim(if separator.Some? then expression[..separator.value] else expression);
    var setting := Setting(env, name);
    if setting.Some? then setting.value
    else if separator.Some? then Trim(expression[separator.value + 2..])
    else ""
  }

  // ---- what expansion means ----

  /** A text taken apart: literals each followed by a reference, and what remains at the end. */
  datatype Template = Tail(text: string) | Reference(literal: string, name: string, rest: Template)

  function Render(t: Template): string
  {
    match t
    case Tail(text) => text
    case Reference(literal, name, rest) => literal + ("${" + (name + ("}" + Render(rest))))
  }

  /** Literals contain no "${", names no "}", and the end no complete reference. */
  predicate WellFormed(t: Template)
  {
    match t
    case Tail(text) =>
      var start := Find(text, "${", 0);
      start.None? || Find(text, "}", start.value + 2).None?
    case Reference(literal, name, rest) =>
      Find(literal, "${", 0).None? && Find(name, "}", 0).None? && WellFormed(rest)
  }

  /** Every reference replaced by what it resolves to; the replacement itself is not looked at again. */
  function Substitute(env: Environment, t: Template): string
  {
    match t
    case Tail(text) => text
    case Reference(literal, name, rest) => literal + (Resolve(env, name) + Substitute(env, rest))
  }

  /** Every text is the rendering of a well-formed template. */
  function Parse(s: string): (t: Template)
    ensures WellFormed(t)
    decreases |s|
  {
    var start := Find(s, "${", 0);
    if start.None? then Tail(s)
    else
      var end := Find(s, "}", start.value + 2);
      if end.None? then Tail(s)
      else
        NothingBefore(s, "${", 0, start.value);
        NothingBefore(s, "}", start.value + 2, end.value);
        Reference(s[0..start.value], s[start.value + 2..end.value], Parse(s[end.value + 1..]))
  }

  lemma ParseTail(s: string)
    requires WellFormed(Tail(s))
    ensures Parse(s) == Tail(s)
  {
  }

  lemma ParseFirst(s: string, start: nat, end: nat)
    requires Find(s, "${", 0) == Some(start) && Find(s, "}", start + 2) == Some(end)
    ensures Parse(s) == Reference(s[0..start], s[start + 2..end], Parse(s[end + 1..]))
  {
    hide Find;
  }

  lemma {:induction false} ParseRenders(s: string)
    ensures Render(Parse(s)) == s
    decreases |s|
  {
    hide Find, Parse;
    var start := Find(s, "${", 0);
    if start.None? || Find(s, "}", start.value + 2).None? {
      ParseTail(s);
    } else {
      var from, end := start.value + 2, Find(s, "}", start.value + 2).value;
      ParseFirst(s, start.value, end);
      ParseRenders(s[end + 1..]);
      assert s[start.value..from] == "${" && s[end..end + 1] == "}";
      CutInFive(s, start.value, from, end, end + 1);
    }
  }

  /** In a rendered reference the first "${" and the first "}" after it are the reference's own. */
  lemma ReferenceFound(literal: string, name: string, rest: string)
    requires Find(literal, "${", 0).None? && Find(name, "}", 0).None?
    ensures var s := literal + ("${" + (name + ("}" + rest)));
            Find(s, "${", 0) == Some(|literal|) && Find(s, "}", |literal| + 2) == Some(|literal| + 2 + |name|)
  {
    hide Find, OccursAt;
    var rest' := name + ("}" + rest);
    FoundAfter(literal, "${", rest');
    Regroup(literal, "${", rest');
    FoundBehind(literal + "${", name, "}", rest);
  }

  /** There is no other way to take a text apart. */
  lemma {:induction false} RenderParses(t: Template)
    requires WellFormed(t)
    ensures Parse(Render(t)) == t
  {
    hide Find, Parse;
    match t
    case Tail(text) =>
      ParseTail(text);
    case Reference(literal, name, rest) =>
      ReferenceFound(literal, name, Render(rest));
      RenderParses(rest);
      Layout(literal, "${", name, "}", Render(rest));
      ParseFirst(Render(t), |literal|, |literal| + 2 + |name|);
  }

  /** What ExpandEnvironmentVariables is to compute. */
  function Expanded(env: Environment, s: string): string
  {
    Substitute(env, Parse(s))
  }

  /** Expansion is substitution, on every text and for every environment. */
  lemma ExpansionSubstitutes(env: Environment, t: Template)
    requires WellFormed(t)
    ensures Expanded(env, Render(t)) == Substitute(env, t)
  {
    RenderParses(t);
  }

  /** One round of the loop, on the part of the text not yet visited. */
  lemma ExpandFirst(env: Environment, s: string, start: nat, end: nat)
    requires Find(s, "${", 0) == Some(start) && Find(s, "}", start + 2) == Some(end)
    ensures Expanded(env, s) == s[..start] + (Resolve(env, s[start + 2..end]) + Expanded(env, s[end + 1..]))
  {
    hide Find, Resolve;
    assert s[0..start] == s[..start];
  }

  lemma NothingToExpand(env: Environment, s: string)
    requires Find(s, "${", 0).None? || Find(s, "}", Find(s, "${", 0).value + 2).None?
    ensures Expanded(env, s) == s
  {
  }

  /** What the two searches of a round find lies in the part not yet visited. */
  lemma FoundInRest(s: string, position: nat, start: nat)
    requires position <= |s| && Find(s, "${", position) == Some(start)
    ensures position <= start && start + 2 <= |s| && Find(s[position..], "${", 0) == Some(start - position)
    ensures var end, inRest := Find(s, "}", start + 2), Find(s[position..], "}", start - position + 2);
            && (end.None? <==> inRest.None?)
            && (end.Some? ==> start + 2 <= end.value < |s| && inRest.value == end.value - position)
  {
    hide Find;
    var rest := s[position..];
    FindInRest(s, "${", position);
    FindInRest(s, "}", start + 2);
    FindInRest(rest, "}", start - position + 2);
    assert rest[start - position + 2..] == s[start + 2..];
  }

  /** A round of the loop: what is done grows by the text in between and the replacement. */
  lemma OneRound(env: Environment, s: string, position: nat, start: nat, end: nat)
    requires position <= |s| && Find(s, "${", position) == Some(start) && Find(s, "}", start + 2) == Some(end)
    ensures position <= start && start + 2 <= end < |s|
    ensures Expanded(env, s[position..]) ==
              s[position..start] + (Resolve(env, s[start + 2..end]) + Expanded(env, s[end + 1..]))
  {
    hide Find, Resolve, Expanded;
    FoundInRest(s, position, start);
    var rest := s[position..];
    ExpandFirst(env, rest, start - position, end - position);
    assert rest[..start - position] == s[position..start];
    assert rest[start - position + 2..end - position] == s[start + 2..end];
    assert rest[end - position + 1..] == s[end + 1..];
  }

  /** The in-place loop: search, replace, and go on behind the replacement. */
  method ExpandEnvironmentVariables(env: Environment, value: string) returns (expanded: string)
    ensures expanded == Expanded(env, value)
  {
    hide Resolve, Find, Expanded;
    expanded := value;
    var position := 0;
    assert value[0..] == value;
    while true
      invariant position <= |expanded|
      invariant expanded[..position] + Expanded(env, expanded[position..]) == Expanded(env, value)
      decreases |expanded| - position
    {
      var start := Find(expanded, "${", position);
      if start.None? {
        FindInRest(expanded, "${", position);
        NothingToExpand(env, expanded[position..]);
        break;
      }
      FoundInRest(expanded, position, start.value);
      var end := Find(expanded, "}", start.value + 2);
      if end.None? {
        NothingToExpand(env, expanded[position..]);
        break;
      }
      OneRound(env, expanded, position, start.value, end.value);
      var replacement := Resolve(env, expanded[start.value + 2..end.value]);
      ghost var done, tail := expanded[..start.value] + replacement, expanded[end.value + 1..];
      assert expanded[..position] + expanded[position..start.value] == expanded[..start.value];
      expanded := expanded[..start.value] + replacement + expanded[end.value + 1..];
      position := start.value + |replacement|;
      assert expanded[position..] == tail && expanded[..position] == done;
    }
    assert expanded == expanded[..position] + expanded[position..];
  }

  lemma BareIsTrimmed(s: string)
    requires Bare(s)
    ensures Trim(s) == s
  {
    TrimIs("", s, "");
    assert s == "" + s + "";
  }

  lemma TrimIgnoresTail(s: string, blanks: string)
    requires Blank(blanks)
    ensures Trim(s + blanks) == Trim(s)
  {
    hide Trim;
    var left, right := TrimParts(s);
    assert s + blanks == left + Trim(s) + (right + blanks);
    TrimIs(left, Trim(s), right + blanks);
  }

  /** `seen` is `name` up to its first NUL, which is all that getenv sees of it. */
  predicate SeenAs(name: string, seen: string)
  {
    seen <= name && '\0' !in seen && (seen == name || name[|seen|] == '\0')
  }

  lemma {:induction false} CStringExactly(name: string, seen: string)
    ensures CString(name) == seen <==> SeenAs(name, seen)
  {
    if name == "" || name[0] == '\0' {
    } else if seen != "" && seen[0] == name[0] {
      CStringExactly(name[1..], seen[1..]);
      assert seen == [seen[0]] + seen[1..] && name == [name[0]] + name[1..];
      assert forall c :: c in seen <==> c == seen[0] || c in seen[1..];
    }
  }

  /** A variable set to nothing counts as unset. */
  lemma SettingExactly(env: Environment, name: string, seen: string)
    requires SeenAs(name, seen)
    ensures Setting(env, name) ==
              if name != "" && seen in env && env[seen] != "" then Some(env[seen]) else None
  {
    CStringExactly(name, seen);
  }

  /** Blanks behind a name do not complete a separator. */
  lemma StillNoSeparator(name: string, blanks: string)
    requires Find(name, ":-", 0).None? && Blank(blanks)
    ensures Find(name + blanks, ":-", 0).None?
  {
    hide Find;
    var s := name + blanks;
    forall i: int | 0 <= i ensures !OccursAt(s, ":-", i) {
      if i + 2 <= |name| {
        OccursInSlice(s, ":-", 0, |name|, i);
        assert s[0..|name|] == name;
      } else if i + 2 <= |s| {
        assert s[i..i + 2][1] == blanks[i + 1 - |name|];
      }
    }
  }

  /** What is left of an expression with a fallback when the blanks at its ends are gone. */
  lemma TrimmedExpression(left: string, before: string, fallback: string) returns (kept: string)
    requires Blank(left) && (before == "" || !IsSpace(before[0]))
    ensures Trim(left + (before + (":-" + fallback))) == before + (":-" + kept) && Trim(kept) == Trim(fallback)
  {
    hide Trim;
    var blanks := RightPart(fallback);
    kept := TrimRight(fallback);
    var expression := before + (":-" + kept);
    assert expression[|expression| - 1] == if kept == "" then '-' else kept[|kept| - 1];
    assert expression[0] == if before == "" then ':' else before[0];
    assert left + (before + (":-" + fallback)) == left + expression + blanks;
    TrimIs(left, expression, blanks);
    TrimIgnoresTail(kept, blanks);
  }

  lemma ResolveTrimmed(env: Environment, reference: string, before: string, kept: string, name: string)
    requires Trim(reference) == before + (":-" + kept) && Find(before, ":-", 0).None? && Trim(before) == name
    ensures Resolve(env, reference) ==
              if Setting(env, name).Some? then Setting(env, name).value else Trim(kept)
  {
    hide Find, Trim, Setting;
    FoundAfter(before, ":-", kept);
    var expression := before + (":-" + kept);
    assert expression[..|before|] == before && expression[|before| + 2..] == kept;
  }

  /**
   ${NAME:-fallback}, with blanks wherever they may stand: the variable if it is set to something, the trimmed
   fallback if it is unset, set to nothing or has no name.
   */
  lemma ResolveWithFallback(env: Environment, left: string, name: string, right: string, fallback: string,
                            seen: string)
    requires Blank(left) && Bare(name) && Blank(right) && Find(name, ":-", 0).None? && SeenAs(name, seen)
    requires name == "" ==> right == ""
    ensures Resolve(env, left + (name + right + (":-" + fallback))) ==
              if name != "" && seen in env && env[seen] != "" then env[seen] else Trim(fallback)
  {
    hide Find, Trim, Setting, CString, Resolve;
    var before := name + right;
    assert before == "" + name + right;
    TrimIs("", name, right);
    StillNoSeparator(name, right);
    var kept := TrimmedExpression(left, before, fallback);
    ResolveTrimmed(env, left + (before + (":-" + fallback)), before, kept, name);
    SettingExactly(env, name, seen);
  }

  /** ${NAME}, with blanks around it: the variable if it is set to something, nothing otherwise. */
  lemma ResolveWithoutFallback(env: Environment, left: string, name: string, right: string, seen: string)
    requires Blank(left) && Bare(name) && Blank(right) && Find(name, ":-", 0).None? && SeenAs(name, seen)
    ensures Resolve(env, left + name + right) ==
              if name != "" && seen in env && env[seen] != "" then env[seen] else ""
  {
    hide Find, Trim, Setting, CString;
    TrimIs(left, name, right);
    BareIsTrimmed(name);
    SettingExactly(env, name, seen);
  }

  // ---- the file ----

  /** What one line assigns, if anything. */
  function Assignment(env: Environment, line: string): Option<(string, string)>
  {
    var text := Trim(line);
    if text == "" || text[0] == '#' then None
    else
      var separator := Find(text, "=", 0);
      if separator.None? then None
      else
        var key := Trim(text[..separator.value]);
        if key == "" then None else Some((key, Expanded(env, Trim(text[separator.value + 1..]))))
  }

  /** The line is `key = value` with blanks around both. */
  predicate Written(line: string, a: string, key: string, b: string, c: string, value: string, d: string)
  {
    Blank(a) && Blank(b) && Blank(c) && Blank(d) && line == a + (key + b + ("=" + (c + value + d)))
  }

  /** Such a line, whose key is there, holds no '=' and does not make the line a comment. */
  ghost predicate Pairs(line: string, key: string, value: string)
  {
    && Bare(key) && Bare(value) && key != "" && key[0] != '#' && '=' !in key
    && exists a, b, c, d :: Written(line, a, key, b, c, value, d)
  }

  /** What is left of such a line when the blanks at its ends are gone. */
  lemma TrimmedPair(line: string, a: string, key: string, b: string, c: string, value: string, d: string)
    returns (tail: string)
    requires Written(line, a, key, b, c, value, d) && Bare(key) && Bare(value) && key != ""
    ensures Trim(line) == key + b + ("=" + tail) && Trim(tail) == value
  {
    hide Trim;
    tail := if value == "" then "" else c + value;
    var right, core := if value == "" then c + d else d, key + b + ("=" + tail);
    assert line == a + core + right by {
      assert value == "" ==> c + value + d == "" + (c + d);
    }
    assert Bare(core) by {
      assert core[0] == key[0];
      assert core[|core| - 1] == if value == "" then '=' else value[|value| - 1];
    }
    TrimIs(a, core, right);
    if value == "" { TrimIs("", "", ""); } else { TrimIs(c, value, ""); }
    assert tail == (if value == "" then "" else c) + value + "";
  }

  lemma PairAssigns(env: Environment, line: string, key: string, value: string)
    requires Pairs(line, key, value)
    ensures Assignment(env, line) == Some((key, Expanded(env, value)))
  {
    hide Trim, Find, Expanded;
    var a, b, c, d :| Written(line, a, key, b, c, value, d);
    var tail := TrimmedPair(line, a, key, b, c, value, d);
    var before, text := key + b, Trim(line);
    NotIn(before, '=');
    FoundAfter(before, "=", tail);
    assert text[0] == key[0];
    assert text[..|before|] == before && text[|before| + 1..] == tail;
    TrimIs("", key, b);
    assert before == "" + key + b;
  }

  lemma AssignmentPairs(env: Environment, line: string) returns (value: string)
    requires Assignment(env, line).Some?
    ensures var (key, result) := Assignment(env, line).value;
            Pairs(line, key, value) && result == Expanded(env, value)
  {
    hide Trim, Find, Expanded;
    var text := Trim(line);
    var at := Find(text, "=", 0).value;
    var first, second := text[..at], text[at + 1..];
    var key := Trim(first);
    value := Trim(second);
    var left, right := TrimParts(line);
    var keyLeft, b := TrimParts(first);
    var c, valueRight := TrimParts(second);
    assert text == first + ("=" + second) by { assert text[at..at + 1] == "="; }
    assert text[0] == (keyLeft + key + b)[0];
    assert first == key + b && key[0] == text[0];
    assert line == left + (key + b + ("=" + (c + value + (valueRight + right))));
    assert Written(line, left, key, b, c, value, valueRight + right);
    forall i | 0 <= i < |key| ensures key[i] != '=' {
      assert key[i] == text[i];
      assert OccursAt(text, "=", i) <==> text[i..i + 1] == "=";
    }
  }

  /** A line assigns a key exactly when it is `key = value` up to blanks, and then the expansion of that value. */
  lemma AssignmentExactly(env: Environment, line: string, key: string, result: string)
    ensures Assignment(env, line) == Some((key, result)) <==>
            exists value :: Pairs(line, key, value) && result == Expanded(env, value)
  {
    hide Assignment, Expanded, Pairs;
    if Assignment(env, line) == Some((key, result)) {
      var value := AssignmentPairs(env, line);
    } else if exists value :: Pairs(line, key, value) && result == Expanded(env, value) {
      var value :| Pairs(line, key, value) && result == Expanded(env, value);
      PairAssigns(env, line, key, value);
    }
  }

  predicate Assigns(env: Environment, line: string, key: string)
  {
    Assignment(env, line).Some? && Assignment(env, line).value.0 == key
  }

  /** The last line that assigns the key, if any. */
  function LastLine(env: Environment, lines: seq<string>, key: string): Option<nat>
  {
    LastSuch(lines, line => Assigns(env, line, key))
  }

  /** A key has a value exactly when some line assigns it, and the last such line wins. */
  ghost predicate Reflects(values: map<string, string>, env: Environment, lines: seq<string>)
  {
    forall key ::
      && (key in values <==> LastLine(env, lines, key).Some?)
      && (key in values ==> Assignment(env, lines[LastLine(env, lines, key).value]) == Some((key, values[key])))
  }

  lemma NothingReflected(env: Environment)
    ensures Reflects(map[], env, [])
  {
  }

  lemma ReflectsOneMore(values: map<string, string>, env: Environment, lines: seq<string>, line: string)
    requires Reflects(values, env, lines)
    ensures var a := Assignment(env, line);
            Reflects(if a.Some? then values[a.value.0 := a.value.1] else values, env, lines + [line])
  {
    hide Assignment;
    assert (lines + [line])[..|lines|] == lines;
  }

  class SimpleConfig {
    var values: map<string, string>

    constructor ()
      ensures values == map[]
    {
      values := map[];
    }

    /** LoadFromFile, on the lines of the file; without a file nothing changes. */
    method LoadFromFile(env: Environment, file: Option<seq<string>>) returns (ok: bool)
      modifies this
      ensures ok == file.Some? && (!ok ==> values == old(values))
      ensures ok ==> Reflects(values, env, file.value)
    {
      hide Find, Trim, Expanded, Reflects;
      if file.None? { return false; }
      values := map[];
      var lines := file.value;
      NothingReflected(env);
      for i := 0 to |lines|
        invariant Reflects(values, env, lines[..i])
      {
        ReflectsOneMore(values, env, lines[..i], lines[i]);
        assert lines[..i + 1] == lines[..i] + [lines[i]];
        var line := Trim(lines[i]);
        if line == "" || line[0] == '#' { continue; }
        var separator := Find(line, "=", 0);
        if separator.None? { continue; }
        var key := Trim(line[..separator.value]);
        var value := ExpandEnvironmentVariables(env, Trim(line[separator.value + 1..]));
        if key != "" { values := values[key := value]; }
      }
      assert lines[..|lines|] == lines;
      ok := true;
    }
  }
}
