/**
 The records kept in Redis as text.  A player snapshot is a hash of decimal numbers, the name, and the
 progress list written as "id:star:flag" items separated by semicolons; a battle context is a hash of
 numbers and a flag.
 */
module Records {
  import opened Common
  import opened Decimal
  import opened Hashes
  import opened Tables
  import opened Texts

  // ---- splitting ----

  /** The non-empty pieces between separators. */
  function Pieces(s: string, separator: char): seq<string>
    decreases |s|
  {
    if s == "" then []
    else
      var next := Find(s, [separator], 0);
      var end := if next.Some? then next.value else |s|;
      (if end == 0 then [] else [s[..end]]) + Pieces(s[if next.Some? then end + 1 else end..], separator)
  }

  /** Where the piece that starts at `position` ends, and where the rest starts. */
  function PieceEnd(input: string, separator: char, position: nat): (end: nat)
    requires position <= |input|
    ensures position <= end <= |input|
  {
    var next := Find(input, [separator], position);
    if next.Some? then next.value else |input|
  }

  /** The first piece of what follows a position, and the pieces behind it. */
  lemma PiecesFrom(input: string, separator: char, position: nat)
    requires position < |input|
    ensures var end := PieceEnd(input, separator, position);
            var after := if Find(input, [separator], position).Some? then end + 1 else end;
            var item := input[position..end];
            && after <= |input|
            && Pieces(input[position..], separator) ==
                 (if item == "" then [] else [item]) + Pieces(input[after..], separator)
  {
    hide Find;
    var rest, end := input[position..], PieceEnd(input, separator, position);
    var after := if Find(input, [separator], position).Some? then end + 1 else end;
    FindInRest(input, [separator], position);
    assert rest[..end - position] == input[position..end] && rest[after - position..] == input[after..];
  }

  /** Split: read up to each separator in turn, and keep what is not empty. */
  method Split(input: string, separator: char) returns (parts: seq<string>)
    ensures parts == Pieces(input, separator)
  {
    hide Find, Pieces;
    parts := [];
    var position := 0;
    assert input[0..] == input;
    while position < |input|
      invariant position <= |input|
      invariant parts + Pieces(input[position..], separator) == Pieces(input, separator)
    {
      PiecesFrom(input, separator, position);
      var next := Find(input, [separator], position);
      var end := PieceEnd(input, separator, position);
      var item := input[position..end];
      ghost var before := parts;
      if item != "" { parts := parts + [item]; }
      position := if next.Some? then end + 1 else end;
      Regroup(before, if item == "" then [] else [item], Pieces(input[position..], separator));
    }
    NoPieces(separator);
    assert input[position..] == "";
  }

  lemma PieceFirst(piece: string, separator: char, rest: string)
    requires piece != "" && Find(piece, [separator], 0).None?
    ensures Pieces(piece + ([separator] + rest), separator) == [piece] + Pieces(rest, separator)
  {
    hide Find;
    var s := piece + ([separator] + rest);
    FoundAfter(piece, [separator], rest);
    assert s[..|piece|] == piece && s[|piece| + 1..] == rest;
  }

  lemma NoPieces(separator: char)
    ensures Pieces("", separator) == []
  {
  }

  lemma OnePiece(s: string, separator: char)
    requires s != "" && Find(s, [separator], 0).None?
    ensures Pieces(s, separator) == [s]
  {
    hide Find;
    assert s[..|s|] == s && s[|s|..] == "";
  }

  /** Text put together from pieces, with a gap in front of each and one at the end. */
  function Laid(gaps: seq<string>, pieces: seq<string>): string
    requires |gaps| == |pieces| + 1
  {
    if pieces == [] then gaps[0] else gaps[0] + (pieces[0] + Laid(gaps[1..], pieces[1..]))
  }

  predicate AllAre(s: string, c: char) { forall i :: 0 <= i < |s| ==> s[i] == c }

  /** The pieces are not empty and hold no separator; the gaps hold nothing else, and those between two pieces
      are not empty. */
  predicate LaidOut(s: string, separator: char, pieces: seq<string>, gaps: seq<string>)
  {
    && |gaps| == |pieces| + 1 && s == Laid(gaps, pieces)
    && (forall i :: 0 <= i < |gaps| ==> AllAre(gaps[i], separator))
    && (forall i :: 0 < i < |pieces| ==> gaps[i] != "")
    && (forall i :: 0 <= i < |pieces| ==> pieces[i] != "" && separator !in pieces[i])
  }

  lemma SkipsSeparator(s: string, separator: char)
    requires s != "" && s[0] == separator
    ensures Pieces(s, separator) == Pieces(s[1..], separator)
  {
    hide Find;
    assert OccursAt(s, [separator], 0) by { assert s[0..1] == [separator]; }
  }

  /** A gap at the front is skipped. */
  lemma {:induction false} SkipsGap(gap: string, separator: char, rest: string)
    requires AllAre(gap, separator)
    ensures Pieces(gap + rest, separator) == Pieces(rest, separator)
    decreases |gap|
  {
    hide Pieces;
    if gap == "" {
      assert gap + rest == rest;
    } else {
      SkipsSeparator(gap + rest, separator);
      assert (gap + rest)[1..] == gap[1..] + rest;
      SkipsGap(gap[1..], separator, rest);
    }
  }

  lemma {:induction false} LaidIsSplit(s: string, separator: char, pieces: seq<string>, gaps: seq<string>)
    requires LaidOut(s, separator, pieces, gaps)
    ensures Pieces(s, separator) == pieces
    decreases |pieces|
  {
    hide Pieces, AllAre, Find;
    if pieces == [] {
      SkipsGap(gaps[0], separator, "");
      assert gaps[0] + "" == gaps[0];
      NoPieces(separator);
    } else {
      var piece, rest := pieces[0], Laid(gaps[1..], pieces[1..]);
      SkipsGap(gaps[0], separator, piece + rest);
      NotIn(piece, separator);
      LaidIsSplit(rest, separator, pieces[1..], gaps[1..]);
      FirstPiece(piece, separator, gaps[1..], pieces[1..]);
      assert pieces == [piece] + pieces[1..];
    }
  }

  /** The first piece ends where a gap begins, or with the text. */
  lemma FirstPiece(piece: string, separator: char, gaps: seq<string>, pieces: seq<string>)
    requires |gaps| == |pieces| + 1 && piece != "" && Find(piece, [separator], 0).None?
    requires AllAre(gaps[0], separator) && (gaps[0] == "" ==> pieces == [])
    ensures var rest := Laid(gaps, pieces); Pieces(piece + rest, separator) == [piece] + Pieces(rest, separator)
  {
    hide Find, Pieces;
    var rest := Laid(gaps, pieces);
    if gaps[0] == "" {
      assert piece + rest == piece;
      OnePiece(piece, separator);
      NoPieces(separator);
    } else {
      assert rest[0] == separator && rest == [separator] + rest[1..];
      PieceFirst(piece, separator, rest[1..]);
      SkipsSeparator(rest, separator);
    }
  }

  /** A text that does not start with a separator: its first piece, and where that ends. */
  lemma FirstStretch(s: string, separator: char) returns (end: nat)
    requires s != "" && s[0] != separator
    ensures 0 < end <= |s| && separator !in s[..end] && (end < |s| ==> s[end] == separator)
    ensures Pieces(s, separator) == [s[..end]] + Pieces(s[end..], separator)
  {
    hide Find, Pieces;
    var next := Find(s, [separator], 0);
    end := if next.Some? then next.value else |s|;
    forall i | 0 <= i < |s| ensures OccursAt(s, [separator], i) <==> s[i] == separator {
      assert s[i..i + 1] == [s[i]];
    }
    assert end <= |s| && separator !in s[..end];
    if next.Some? {
      assert OccursAt(s, [separator], end);
      NotIn(s[..end], separator);
      PieceFirst(s[..end], separator, s[end + 1..]);
      assert s == s[..end] + ([separator] + s[end + 1..]);
      SkipsSeparator(s[end..], separator);
      assert s[end..][1..] == s[end + 1..];
    } else {
      OnePiece(s, separator);
      NoPieces(separator);
      assert s[..end] == s && s[end..] == "";
    }
  }

  lemma LaidGap(separator: char, gaps: seq<string>, pieces: seq<string>)
    requires |gaps| == |pieces| + 1
    ensures Laid([[separator] + gaps[0]] + gaps[1..], pieces) == [separator] + Laid(gaps, pieces)
  {
    var more := [[separator] + gaps[0]] + gaps[1..];
    assert more[1..] == gaps[1..];
  }

  lemma LaidPiece(piece: string, gaps: seq<string>, pieces: seq<string>)
    requires |gaps| == |pieces| + 1
    ensures Laid([""] + gaps, [piece] + pieces) == piece + Laid(gaps, pieces)
  {
    assert ([""] + gaps)[1..] == gaps && ([piece] + pieces)[1..] == pieces;
  }

  lemma {:induction false} SplitIsLaid(s: string, separator: char) returns (gaps: seq<string>)
    ensures LaidOut(s, separator, Pieces(s, separator), gaps)
    ensures s != "" && s[0] == separator ==> gaps[0] != ""
    decreases |s|
  {
    hide Pieces, Laid;
    if s == "" {
      gaps := [""];
      NoPieces(separator);
      LaidNothing();
    } else if s[0] == separator {
      SkipsSeparator(s, separator);
      var later := SplitIsLaid(s[1..], separator);
      gaps := [[separator] + later[0]] + later[1..];
      LaidGap(separator, later, Pieces(s[1..], separator));
      assert s == [separator] + s[1..];
    } else {
      var end := FirstStretch(s, separator);
      var later := SplitIsLaid(s[end..], separator);
      gaps := [""] + later;
      LaidPiece(s[..end], later, Pieces(s[end..], separator));
      if end == |s| { NoPieces(separator); }
    }
  }

  lemma LaidNothing()
    ensures Laid([""], []) == ""
  {
  }

  /** Splitting yields exactly the stretches between separators: no other list of pieces makes up the text. */
  lemma PiecesExactly(s: string, separator: char, pieces: seq<string>)
    ensures Pieces(s, separator) == pieces <==> exists gaps :: LaidOut(s, separator, pieces, gaps)
  {
    hide Pieces;
    if Pieces(s, separator) == pieces {
      var gaps := SplitIsLaid(s, separator);
    }
    if exists gaps :: LaidOut(s, separator, pieces, gaps) {
      var gaps :| LaidOut(s, separator, pieces, gaps);
      LaidIsSplit(s, separator, pieces, gaps);
    }
  }

  // ---- the progress list ----

  function Item(p: DungeonProgress): string
  {
    PrintInt(p.dungeonId) + ([':'] + (PrintInt(p.bestStar) + ([':'] + if p.isFirstClear then "1" else "0")))
  }

  function Serialized(ps: seq<DungeonProgress>): string
  {
    if ps == [] then ""
    else if |ps| == 1 then Item(ps[0])
    else Serialized(ps[..|ps| - 1]) + ([';'] + Item(ps[|ps| - 1]))
  }

  method SerializeProgress(ps: seq<DungeonProgress>) returns (output: string)
    ensures output == Serialized(ps)
  {
    hide Item;
    output := "";
    var first := true;
    for i := 0 to |ps|
      invariant output == Serialized(ps[..i]) && first == (i == 0)
    {
      if !first { output := output + [';']; }
      output := output + Item(ps[i]);
      first := false;
      assert ps[..i + 1][..i] == ps[..i];
    }
    assert ps[..|ps|] == ps;
  }

  /** An item that is not made of three pieces is skipped; one whose numbers cannot be read throws. */
  datatype Token = Skipped | Malformed | Parsed(progress: DungeonProgress)

  function ParseToken(token: string): Token
  {
    var parts := Pieces(token, ':');
    if |parts| != 3 then Skipped
    else
      var id, star := Stoi(parts[0]), Stoi(parts[1]);
      if id.None? || star.None? then Malformed else Parsed(DungeonProgress(id.value, star.value, parts[2] == "1"))
  }

  /** Three parts between colons. */
  ghost predicate MadeOf(token: string, a: string, b: string, c: string)
  {
    exists gaps :: LaidOut(token, ':', [a, b, c], gaps)
  }

  /** A token is read as an item exactly when it is made of three parts, the first two of which are readable
      numbers; the flag is set by "1" alone.  It throws exactly when one of the two is not. */
  lemma TokenExactly(token: string, p: DungeonProgress)
    ensures ParseToken(token) == Parsed(p) <==>
            exists a, b, c ::
              MadeOf(token, a, b, c)
              && Stoi(a) == Some(p.dungeonId) && Stoi(b) == Some(p.bestStar) && (p.isFirstClear <==> c == "1")
    ensures ParseToken(token).Malformed? <==>
            exists a, b, c :: MadeOf(token, a, b, c) && (Stoi(a).None? || Stoi(b).None?)
  {
    hide Pieces, Stoi, LaidOut;
    var parts := Pieces(token, ':');
    forall a: string, b: string, c: string ensures MadeOf(token, a, b, c) <==> parts == [a, b, c] {
      PiecesExactly(token, ':', [a, b, c]);
    }
    if |parts| == 3 { assert MadeOf(token, parts[0], parts[1], parts[2]); }
  }

  function ParsedTokens(tokens: seq<string>): Option<seq<DungeonProgress>>
  {
    if tokens == [] then Some([])
    else
      var before := ParsedTokens(tokens[..|tokens| - 1]);
      if before.None? then None
      else
        match ParseToken(tokens[|tokens| - 1])
        case Skipped => before
        case Malformed => None
        case Parsed(p) => Some(before.value + [p])
  }

  lemma {:induction false} ThrowsForGood(tokens: seq<string>, n: nat)
    requires n <= |tokens| && ParsedTokens(tokens[..n]).None?
    ensures ParsedTokens(tokens).None?
    decreases |tokens|
  {
    if n == |tokens| {
      assert tokens[..n] == tokens;
    } else {
      assert tokens[..|tokens| - 1][..n] == tokens[..n];
      ThrowsForGood(tokens[..|tokens| - 1], n);
    }
  }

  function ParsedProgress(raw: string): Option<seq<DungeonProgress>>
  {
    ParsedTokens(Pieces(raw, ';'))
  }

  method ParseProgress(raw: string) returns (list: Option<seq<DungeonProgress>>)
    ensures list == ParsedProgress(raw)
  {
    hide Pieces, Stoi;
    var progress: seq<DungeonProgress> := [];
    var tokens := Split(raw, ';');
    for i := 0 to |tokens|
      invariant ParsedTokens(tokens[..i]) == Some(progress)
    {
      assert tokens[..i + 1][..i] == tokens[..i];
      var parts := Split(tokens[i], ':');
      if |parts| != 3 { continue; }
      var id, star := Stoi(parts[0]), Stoi(parts[1]);
      if id.None? || star.None? {
        ThrowsForGood(tokens, i + 1);
        return None;
      }
      progress := progress + [DungeonProgress(id.value, star.value, parts[2] == "1")];
    }
    assert tokens[..|tokens|] == tokens;
    list := Some(progress);
  }

  // ---- the list comes back ----

  predicate Fits32(x: int) { INT32_MIN <= x <= INT32_MAX }

  predicate Fits64(x: int) { INT64_MIN <= x <= INT64_MAX }

  predicate ItemFits(p: DungeonProgress) { Fits32(p.dungeonId) && Fits32(p.bestStar) }

  predicate AllFit(ps: seq<DungeonProgress>)
  {
    forall i :: 0 <= i < |ps| ==> ItemFits(ps[i])
  }

  lemma StoiExactly(x: int)
    ensures Stoi(PrintInt(x)) == if Fits32(x) then Some(x) else None
  {
    ParsePrinted(x, "");
    assert PrintInt(x) + "" == PrintInt(x);
  }

  lemma StollExactly(x: int)
    ensures Stoll(PrintInt(x)) == if Fits64(x) then Some(x) else None
  {
    ParsePrinted(x, "");
    assert PrintInt(x) + "" == PrintInt(x);
  }

  predicate NumberChar(c: char) { IsDigit(c) || c == '-' }

  lemma PrintedChars(x: int)
    ensures PrintInt(x) != "" && forall i :: 0 <= i < |PrintInt(x)| ==> NumberChar(PrintInt(x)[i])
  {
    var digits := PrintNat(if x < 0 then -x else x);
    assert forall i :: 0 <= i < |digits| ==> IsDigit(digits[i]);
  }

  lemma ItemPieces(p: DungeonProgress)
    ensures Pieces(Item(p), ':') == [PrintInt(p.dungeonId), PrintInt(p.bestStar), if p.isFirstClear then "1" else "0"]
    ensures Item(p) != "" && Find(Item(p), [';'], 0).None?
  {
    PrintedChars(p.dungeonId);
    PrintedChars(p.bestStar);
    hide PrintInt, Find;
    var id, star, flag := PrintInt(p.dungeonId), PrintInt(p.bestStar), if p.isFirstClear then "1" else "0";
    NotIn(id, ':');
    NotIn(star, ':');
    NotIn(flag, ':');
    PieceFirst(id, ':', star + ([':'] + flag));
    PieceFirst(star, ':', flag);
    OnePiece(flag, ':');
    assert forall i :: 0 <= i < |Item(p)| ==> NumberChar(Item(p)[i]) || Item(p)[i] == ':';
    NotIn(Item(p), ';');
  }

  lemma {:induction false} SerializedCons(p: DungeonProgress, ps: seq<DungeonProgress>)
    ensures Serialized([p] + ps) == Item(p) + if ps == [] then "" else [';'] + Serialized(ps)
    decreases |ps|
  {
    hide Item;
    var all := [p] + ps;
    if ps == [] {
      assert Item(p) + "" == Item(p);
    } else {
      var n := |ps| - 1;
      assert all[..|all| - 1] == [p] + ps[..n];
      SerializedCons(p, ps[..n]);
      if n == 0 {
        assert Serialized(all) == Item(p) + ([';'] + Item(ps[0])) && Serialized(ps) == Item(ps[0]);
      } else {
        Regroup(Item(p), [';'] + Serialized(ps[..n]), [';'] + Item(ps[n]));
        Regroup([';'], Serialized(ps[..n]), [';'] + Item(ps[n]));
      }
    }
  }

  function Items(ps: seq<DungeonProgress>): seq<string>
  {
    seq(|ps|, i requires 0 <= i < |ps| => Item(ps[i]))
  }

  lemma {:induction false} SerializedPieces(ps: seq<DungeonProgress>)
    ensures Pieces(Serialized(ps), ';') == Items(ps)
    decreases |ps|
  {
    hide Item, Find, Pieces;
    if ps == [] {
      NoPieces(';');
    } else {
      var p, rest := ps[0], ps[1..];
      assert ps == [p] + rest;
      SerializedCons(p, rest);
      ItemPieces(p);
      SerializedPieces(rest);
      if rest == [] {
        assert Item(p) + "" == Item(p);
        OnePiece(Item(p), ';');
      } else {
        PieceFirst(Item(p), ';', Serialized(rest));
      }
    }
  }

  lemma {:induction false} ParsedItems(ps: seq<DungeonProgress>)
    ensures ParsedTokens(Items(ps)) == if AllFit(ps) then Some(ps) else None
    decreases |ps|
  {
    hide Item, Pieces, Stoi, PrintInt, Fits32;
    if ps != [] {
      var n := |ps| - 1;
      assert Items(ps)[..n] == Items(ps[..n]);
      ParsedItems(ps[..n]);
      ItemPieces(ps[n]);
      StoiExactly(ps[n].dungeonId);
      StoiExactly(ps[n].bestStar);
      assert ps == ps[..n] + [ps[n]];
      assert AllFit(ps) <==> AllFit(ps[..n]) && ItemFits(ps[n]);
    }
  }

  /** A written list is read back unchanged, the empty list included, exactly when every id and star is a
      32-bit number; otherwise reading throws. */
  lemma ProgressRoundTrip(ps: seq<DungeonProgress>)
    ensures ParsedProgress(Serialized(ps)) == if AllFit(ps) then Some(ps) else None
  {
    SerializedPieces(ps);
    ParsedItems(ps);
  }

  // ---- snapshots and battle contexts as hashes ----

  function EncodeSnapshot(state: PlayerState): Hash
  {
    map["player_id" := PrintInt(state.profile.playerId),
        "account_id" := PrintInt(state.profile.accountId),
        "player_name" := state.profile.name,
        "level" := PrintInt(state.profile.level),
        "stamina" := PrintInt(state.profile.stamina),
        "gold" := PrintInt(state.profile.gold),
        "diamond" := PrintInt(state.profile.diamond),
        "dungeon_progress" := Serialized(state.progress)]
  }

  const SNAPSHOT_FIELDS :=
    {"player_id", "account_id", "player_name", "level", "stamina", "gold", "diamond", "dungeon_progress"}

  /** None where map::at or a number reader throws: a missing field, or a number that cannot be read. */
  function DecodeSnapshot(fields: Hash): Option<PlayerState>
  {
    if !(SNAPSHOT_FIELDS <= fields.Keys) then None
    else
      var player, account := Stoll(fields["player_id"]), Stoll(fields["account_id"]);
      var level, stamina := Stoi(fields["level"]), Stoi(fields["stamina"]);
      var gold, diamond := Stoll(fields["gold"]), Stoll(fields["diamond"]);
      var progress := ParsedProgress(fields["dungeon_progress"]);
      if player.None? || account.None? || level.None? || stamina.None? || gold.None? || diamond.None? || progress.None?
      then None
      else
        Some(PlayerState(Profile(player.value, account.value, fields["player_name"], level.value, stamina.value,
                                 gold.value, diamond.value), progress.value))
  }

  /** All numbers have the width the program gives them. */
  predicate Representable(state: PlayerState)
  {
    && Fits64(state.profile.playerId) && Fits64(state.profile.accountId)
    && Fits32(state.profile.level) && Fits32(state.profile.stamina)
    && Fits64(state.profile.gold) && Fits64(state.profile.diamond)
    && AllFit(state.progress)
  }

  /** A wholly written snapshot is read back unchanged, whatever was there before, exactly when its numbers
      have their proper widths. */
  lemma SnapshotRoundTrip(before: Hash, state: PlayerState)
    ensures DecodeSnapshot(before + EncodeSnapshot(state)) == if Representable(state) then Some(state) else None
  {
    var profile := state.profile;
    StollExactly(profile.playerId);
    StollExactly(profile.accountId);
    StoiExactly(profile.level);
    StoiExactly(profile.stamina);
    StollExactly(profile.gold);
    StollExactly(profile.diamond);
    ProgressRoundTrip(state.progress);
    hide Stoi, Stoll, PrintInt, Serialized, ParsedProgress, Fits32, Fits64, AllFit;
  }

  /** Every field stands under its own name, where it can be read by itself. */
  lemma SnapshotColumns(state: PlayerState)
    requires Representable(state)
    ensures var fields, profile := EncodeSnapshot(state), state.profile;
            && fields.Keys == SNAPSHOT_FIELDS
            && Stoll(fields["player_id"]) == Some(profile.playerId)
            && Stoll(fields["account_id"]) == Some(profile.accountId)
            && fields["player_name"] == profile.name
            && Stoi(fields["level"]) == Some(profile.level) && Stoi(fields["stamina"]) == Some(profile.stamina)
            && Stoll(fields["gold"]) == Some(profile.gold) && Stoll(fields["diamond"]) == Some(profile.diamond)
            && ParsedProgress(fields["dungeon_progress"]) == Some(state.progress)
  {
    var profile := state.profile;
    StollExactly(profile.playerId);
    StollExactly(profile.accountId);
    StoiExactly(profile.level);
    StoiExactly(profile.stamina);
    StollExactly(profile.gold);
    StollExactly(profile.diamond);
    ProgressRoundTrip(state.progress);
    hide Stoi, Stoll, PrintInt, Serialized, ParsedProgress, Fits32, Fits64, AllFit;
  }

  lemma SnapshotKeys(state: PlayerState)
    ensures EncodeSnapshot(state).Keys == SNAPSHOT_FIELDS
  {
    hide PrintInt, Serialized;
  }

  /** A snapshot of which only some fields were written cannot be read back: map::at throws. */
  lemma TornSnapshot(state: PlayerState, names: set<string>)
    ensures DecodeSnapshot(Stored(map[], EncodeSnapshot(state), names)) ==
              if Representable(state) && SNAPSHOT_FIELDS <= names then Some(state) else None
  {
    hide EncodeSnapshot, Representable;
    SnapshotKeys(state);
    StoredIsPart(EncodeSnapshot(state), names);
    if SNAPSHOT_FIELDS <= names {
      StoredAll(map[], EncodeSnapshot(state), names);
      SnapshotRoundTrip(map[], state);
    }
  }

  function EncodeContext(ctx: BattleContext): Hash
  {
    map["player_id" := PrintInt(ctx.playerId),
        "dungeon_id" := PrintInt(ctx.dungeonId),
        "cost_stamina" := PrintInt(ctx.costStamina),
        "max_star" := PrintInt(ctx.maxStar),
        "settled" := if ctx.settled then "1" else "0"]
  }

  const CONTEXT_FIELDS := {"player_id", "dungeon_id", "cost_stamina", "max_star", "settled"}

  function DecodeContext(id: string, fields: Hash): Option<BattleContext>
  {
    if !(CONTEXT_FIELDS <= fields.Keys) then None
    else
      var player, dungeon := Stoll(fields["player_id"]), Stoi(fields["dungeon_id"]);
      var cost, stars := Stoi(fields["cost_stamina"]), Stoi(fields["max_star"]);
      if player.None? || dungeon.None? || cost.None? || stars.None? then None
      else Some(BattleContext(id, player.value, dungeon.value, cost.value, stars.value, fields["settled"] == "1"))
  }

  predicate ContextRepresentable(ctx: BattleContext)
  {
    Fits64(ctx.playerId) && Fits32(ctx.dungeonId) && Fits32(ctx.costStamina) && Fits32(ctx.maxStar)
  }

  /** A wholly written context is read back unchanged exactly when its numbers have their proper widths. */
  lemma ContextRoundTrip(before: Hash, ctx: BattleContext)
    ensures DecodeContext(ctx.battleId, before + EncodeContext(ctx)) ==
              if ContextRepresentable(ctx) then Some(ctx) else None
  {
    StollExactly(ctx.playerId);
    StoiExactly(ctx.dungeonId);
    StoiExactly(ctx.costStamina);
    StoiExactly(ctx.maxStar);
    hide Stoi, Stoll, PrintInt, Fits32, Fits64;
  }

  lemma ContextColumns(ctx: BattleContext)
    requires ContextRepresentable(ctx)
    ensures var fields := EncodeContext(ctx);
            && fields.Keys == CONTEXT_FIELDS
            && Stoll(fields["player_id"]) == Some(ctx.playerId) && Stoi(fields["dungeon_id"]) == Some(ctx.dungeonId)
            && Stoi(fields["cost_stamina"]) == Some(ctx.costStamina) && Stoi(fields["max_star"]) == Some(ctx.maxStar)
            && fields["settled"] == if ctx.settled then "1" else "0"
  {
    StollExactly(ctx.playerId);
    StoiExactly(ctx.dungeonId);
    StoiExactly(ctx.costStamina);
    StoiExactly(ctx.maxStar);
    hide Stoi, Stoll, PrintInt, Fits32, Fits64;
  }

  lemma ContextKeys(ctx: BattleContext)
    ensures EncodeContext(ctx).Keys == CONTEXT_FIELDS
  {
    hide PrintInt;
  }

  /** A context of which only some fields were written cannot be read back: map::at throws. */
  lemma TornContext(ctx: BattleContext, names: set<string>)
    ensures DecodeContext(ctx.battleId, Stored(map[], EncodeContext(ctx), names)) ==
              if ContextRepresentable(ctx) && CONTEXT_FIELDS <= names then Some(ctx) else None
  {
    hide EncodeContext, ContextRepresentable;
    ContextKeys(ctx);
    StoredIsPart(EncodeContext(ctx), names);
    if CONTEXT_FIELDS <= names {
      StoredAll(map[], EncodeContext(ctx), names);
      ContextRoundTrip(map[], ctx);
    }
  }
}
