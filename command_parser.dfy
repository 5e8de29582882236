/**
 * The shell-command extractor: a scanner for the single pattern
 *     ```(?:bash|sh)?\n([\s\S]+?)\n```  |  \$ (.+)
 * searched left to right as `finditer` does, the list of candidates it yields,
 * the `search` test, and the prefix cleaner.
 */
module CommandParser {
  import opened Wrappers
  import opened Strings

  // ------------------------------------------------------------ the pattern

  /** One match: group 1 (the body of a fenced block) or group 2 (the text after `$ `).
      `start` and `end` delimit the whole match, as `match.start()` and `match.end()`. */
  datatype Match =
    | Block(start: nat, body: string, end: nat)
    | Dollar(start: nat, rest: string, end: nat)

  const CloseFence: string := "\n```"

  /** A fence opens at `p` and its body begins at `q`: three backticks, the tag `bash`,
      the tag `sh` or no tag, then a newline. */
  predicate IsOpening(text: string, p: nat, q: nat) {
    || (q == p + 4 && OccursAt(text, "```\n", p))
    || (q == p + 6 && OccursAt(text, "```sh\n", p))
    || (q == p + 8 && OccursAt(text, "```bash\n", p))
  }

  /** What the pattern matches at `p`, stated declaratively. A block's body is non-empty
      and is the SHORTEST one followed by "\n```" (the lazy `+?`); a `$ ` match takes
      the WHOLE rest of the line, at least one character (the greedy `.+`). Neither
      alternative is anchored to the start of a line. */
  predicate MatchesHere(text: string, p: nat, m: Match) {
    && m.start == p
    && match m
       case Block(_, body, end) =>
         var q: int := end - 4 - |body|;
         && |body| >= 1
         && q >= p
         && IsOpening(text, p, q)
         && OccursAt(text, body, q)
         && OccursAt(text, CloseFence, q + |body|)
         && forall i :: q + 1 <= i < q + |body| ==> !OccursAt(text, CloseFence, i)
       case Dollar(_, rest, end) =>
         && OccursAt(text, "$ ", p)
         && |rest| >= 1
         && OccursAt(text, rest, p + 2)
         && end == p + 2 + |rest|
         && '\n' !in rest
         && (end == |text| || text[end] == '\n')
  }

  /** Where the body of a fence opening at `p` begins, trying `bash`, then `sh`, then no tag. */
  function OpeningEnd(text: string, p: nat): (r: Option<nat>)
    ensures r.Some? ==> IsOpening(text, p, r.value)
    ensures forall q: nat :: IsOpening(text, p, q) ==> r == Some(q)
  {
    if OccursAt(text, "```bash\n", p) then
      assert !OccursAt(text, "```\n", p) && !OccursAt(text, "```sh\n", p) by {
        OccursAtChar(text, "```bash\n", p, 3);
        if OccursAt(text, "```\n", p) { OccursAtChar(text, "```\n", p, 3); }
        if OccursAt(text, "```sh\n", p) { OccursAtChar(text, "```sh\n", p, 3); }
      }
      Some(p + 8)
    else if OccursAt(text, "```sh\n", p) then
      assert !OccursAt(text, "```\n", p) by {
        OccursAtChar(text, "```sh\n", p, 3);
        if OccursAt(text, "```\n", p) { OccursAtChar(text, "```\n", p, 3); }
      }
      Some(p + 6)
    else if OccursAt(text, "```\n", p) then
      assert !OccursAt(text, "```bash\n", p) by {
        OccursAtChar(text, "```\n", p, 3);
        if OccursAt(text, "```bash\n", p) { OccursAtChar(text, "```bash\n", p, 3); }
      }
      Some(p + 4)
    else None
  }

  /** The first position at or after `j` where "\n```" occurs, if any. */
  function FindClose(text: string, j: nat): (c: Option<nat>)
    ensures c.Some? ==> j <= c.value && OccursAt(text, CloseFence, c.value)
    ensures c.Some? ==> forall i :: j <= i < c.value ==> !OccursAt(text, CloseFence, i)
    ensures c.None? ==> forall i :: j <= i ==> !OccursAt(text, CloseFence, i)
    decreases |text| - j
  {
    if j + 4 > |text| then None
    else if OccursAt(text, CloseFence, j) then Some(j)
    else FindClose(text, j + 1)
  }

  /** The end of the line holding position `i`: the first newline at or after `i`, or the end. */
  function LineEnd(text: string, i: nat): (e: nat)
    requires i <= |text|
    ensures i <= e <= |text|
    ensures e < |text| ==> text[e] == '\n'
    ensures forall k :: i <= k < e ==> text[k] != '\n'
    decreases |text| - i
  {
    if i == |text| || text[i] == '\n' then i else LineEnd(text, i + 1)
  }

  /** The first alternative at `p`. */
  function FenceAt(text: string, p: nat): Option<Match> {
    match OpeningEnd(text, p)
    case None => None
    case Some(q) =>
      match FindClose(text, q + 1)
      case None => None
      case Some(c) => Some(Block(p, text[q..c], c + 4))
  }

  /** The second alternative at `p`. */
  function DollarAt(text: string, p: nat): Option<Match> {
    if OccursAt(text, "$ ", p) then
      var e := LineEnd(text, p + 2);
      if e > p + 2 then Some(Dollar(p, text[p + 2..e], e)) else None
    else None
  }

  /** The match of the pattern starting exactly at `p`, alternatives tried in order. */
  function MatchAt(text: string, p: nat): (r: Option<Match>)
    ensures r.Some? ==> r.value.start == p < r.value.end <= |text|
  {
    var f := FenceAt(text, p);
    if f.Some? then f else DollarAt(text, p)
  }

  /** What the scanner finds is a match of the pattern. */
  lemma MatchAtSound(text: string, p: nat)
    requires MatchAt(text, p).Some?
    ensures MatchesHere(text, p, MatchAt(text, p).value)
  {
    if FenceAt(text, p).Some? {
      var q := OpeningEnd(text, p).value;
      var c := FindClose(text, q + 1).value;
      assert FenceAt(text, p).value == Block(p, text[q..c], c + 4);
    }
  }

  /** A block the pattern matches is the one the scanner finds. */
  lemma BlockComplete(text: string, p: nat, m: Match)
    requires m.Block? && MatchesHere(text, p, m)
    ensures FenceAt(text, p) == Some(m)
  {
    var q := m.end - 4 - |m.body|;
    assert OpeningEnd(text, p) == Some(q);
    var c0 := q + |m.body|;
    var fc := FindClose(text, q + 1);
    assert fc.Some?;
    assert fc.value == c0;
    assert text[q..c0] == m.body;
  }

  /** A `$ ` line the pattern matches is the one the scanner finds; no fence opens there. */
  lemma DollarComplete(text: string, p: nat, m: Match)
    requires m.Dollar? && MatchesHere(text, p, m)
    ensures FenceAt(text, p).None? && DollarAt(text, p) == Some(m)
  {
    OccursAtChar(text, "$ ", p, 0);
    if OpeningEnd(text, p).Some? {
      var q := OpeningEnd(text, p).value;
      if q == p + 4 { OccursAtChar(text, "```\n", p, 0); }
      else if q == p + 6 { OccursAtChar(text, "```sh\n", p, 0); }
      else { OccursAtChar(text, "```bash\n", p, 0); }
      assert false;
    }
    var e := LineEnd(text, p + 2);
    if e < m.end {
      OccursAtChar(text, m.rest, p + 2, e - p - 2);
      assert false;
    }
    assert e == m.end;
    assert text[p + 2..e] == m.rest;
  }

  /** The scanner accepts exactly what the pattern describes. */
  lemma MatchAtIsPattern(text: string, p: nat, m: Match)
    ensures MatchAt(text, p) == Some(m) <==> MatchesHere(text, p, m)
  {
    if MatchAt(text, p) == Some(m) {
      MatchAtSound(text, p);
    }
    if MatchesHere(text, p, m) {
      if m.Block? {
        BlockComplete(text, p, m);
      } else {
        DollarComplete(text, p, m);
      }
    }
  }

  /** No match starts anywhere in `[a, b)`. */
  predicate NoMatchIn(text: string, a: nat, b: nat) {
    forall k :: a <= k < b ==> MatchAt(text, k).None?
  }

  /** `finditer` from position `p`: the next match is searched from the end of the
      previous one (every match is non-empty). */
  function MatchesFrom(text: string, p: nat): seq<Match>
    requires p <= |text|
    decreases |text| - p
  {
    if p == |text| then []
    else match MatchAt(text, p)
      case None => MatchesFrom(text, p + 1)
      case Some(m) => [m] + MatchesFrom(text, m.end)
  }

  /** Every element `finditer` yields is the pattern's match at its own start, at or after `p`. */
  lemma {:induction false} MatchesFromSound(text: string, p: nat)
    requires p <= |text|
    ensures forall i :: 0 <= i < |MatchesFrom(text, p)| ==>
      p <= MatchesFrom(text, p)[i].start && MatchAt(text, MatchesFrom(text, p)[i].start) == Some(MatchesFrom(text, p)[i])
    decreases |text| - p
  {
    if p < |text| {
      match MatchAt(text, p)
      case None =>
        MatchesFromSound(text, p + 1);
      case Some(m) =>
        MatchesFromSound(text, m.end);
    }
  }

  /** The matches come in order of occurrence and do not overlap. */
  lemma {:induction false} MatchesFromOrdered(text: string, p: nat)
    requires p <= |text|
    ensures forall i :: 0 <= i < |MatchesFrom(text, p)| - 1 ==>
      MatchesFrom(text, p)[i].end <= MatchesFrom(text, p)[i + 1].start
    decreases |text| - p
  {
    if p < |text| {
      match MatchAt(text, p)
      case None =>
        MatchesFromOrdered(text, p + 1);
      case Some(m) =>
        var rest := MatchesFrom(text, m.end);
        MatchesFromOrdered(text, m.end);
        if rest != [] {
          MatchesFromSound(text, m.end);
          assert m.end <= rest[0].start;
        }
        OrderedCons(m, rest);
    }
  }

  lemma OrderedCons(m: Match, rest: seq<Match>)
    requires forall i :: 0 <= i < |rest| - 1 ==> rest[i].end <= rest[i + 1].start
    requires rest != [] ==> m.end <= rest[0].start
    ensures var ms := [m] + rest;
      forall i :: 0 <= i < |ms| - 1 ==> ms[i].end <= ms[i + 1].start
  {
    var ms := [m] + rest;
    assert forall i :: 1 <= i < |ms| ==> ms[i] == rest[i - 1];
  }

  /** No match starts between `p` and the first match `finditer` yields (or the end of the text). */
  lemma {:induction false} MatchesFromFirst(text: string, p: nat)
    requires p <= |text|
    ensures NoMatchIn(text, p, if MatchesFrom(text, p) == [] then |text| else MatchesFrom(text, p)[0].start)
    decreases |text| - p
  {
    if p < |text| && MatchAt(text, p).None? {
      MatchesFromFirst(text, p + 1);
    }
  }

  /** No match starts between two consecutive matches of `ms`, nor after the last one. */
  predicate NoMatchBetween(text: string, ms: seq<Match>) {
    && (forall i :: 0 <= i < |ms| - 1 ==> NoMatchIn(text, ms[i].end, ms[i + 1].start))
    && (|ms| > 0 ==> NoMatchIn(text, ms[|ms| - 1].end, |text|))
  }

  lemma NoMatchBetweenCons(text: string, m: Match, rest: seq<Match>)
    requires NoMatchBetween(text, rest)
    requires NoMatchIn(text, m.end, if rest == [] then |text| else rest[0].start)
    ensures NoMatchBetween(text, [m] + rest)
  {
    var ms := [m] + rest;
    assert forall i :: 1 <= i < |ms| ==> ms[i] == rest[i - 1];
  }

  /** `finditer` skips no match: none starts between two consecutive matches or after the last. */
  lemma {:induction false} MatchesFromGaps(text: string, p: nat)
    requires p <= |text|
    ensures NoMatchBetween(text, MatchesFrom(text, p))
    decreases |text| - p
  {
    if p < |text| {
      match MatchAt(text, p)
      case None =>
        MatchesFromGaps(text, p + 1);
      case Some(m) =>
        MatchesFromGaps(text, m.end);
        MatchesFromFirst(text, m.end);
        NoMatchBetweenCons(text, m, MatchesFrom(text, m.end));
    }
  }

  // ------------------------------------------------------------ candidates

  /** A candidate taken from a fenced block. */
  predicate IsBlockCommand(c: string) {
    c != "" && IsStripped(c) && c[0] != '#'
  }

  /** The lines of a block kept as commands, in order: each one stripped, blank lines
      and lines starting with `#` dropped. */
  function KeepCommands(lines: seq<string>): (cmds: seq<string>)
    ensures |cmds| <= |lines|
    ensures forall i :: 0 <= i < |cmds| ==> IsBlockCommand(cmds[i])
    ensures forall i :: 0 <= i < |cmds| ==> exists j :: 0 <= j < |lines| && cmds[i] == Strip(lines[j])
    decreases |lines|
  {
    if |lines| == 0 then []
    else
      var line := Strip(lines[|lines| - 1]);
      var init := KeepCommands(lines[..|lines| - 1]);
      assert forall i :: 0 <= i < |init| ==> exists j :: 0 <= j < |lines| && init[i] == Strip(lines[j]) by {
        forall i | 0 <= i < |init| ensures exists j :: 0 <= j < |lines| && init[i] == Strip(lines[j]) {
          var j :| 0 <= j < |lines| - 1 && init[i] == Strip(lines[..|lines| - 1][j]);
          assert lines[..|lines| - 1][j] == lines[j];
        }
      }
      init + (if line != "" && line[0] != '#' then [line] else [])
  }

  /** The candidates one match contributes. A block's body and a `$ ` rest are never
      empty, so the `if code_block` / `elif dollar_cmd` tests always take the branch
      of the alternative that matched. */
  function MatchCommands(m: Match): seq<string> {
    match m
    case Block(_, body, _) => KeepCommands(Split(Strip(body), '\n'))
    case Dollar(_, rest, _) => [Strip(rest)]
  }

  function Commands(ms: seq<Match>): seq<string>
    decreases |ms|
  {
    if |ms| == 0 then [] else MatchCommands(ms[0]) + Commands(ms[1..])
  }

  /** What `extract_shell_commands` returns for `text`. */
  function Extracted(text: string): seq<string> {
    Commands(MatchesFrom(text, 0))
  }

  /** One step of `finditer`: what the matches from `p` contribute. */
  lemma CommandsStep(text: string, p: nat)
    requires p < |text|
    ensures MatchAt(text, p).None? ==> Commands(MatchesFrom(text, p)) == Commands(MatchesFrom(text, p + 1))
    ensures MatchAt(text, p).Some? ==>
      Commands(MatchesFrom(text, p)) == MatchCommands(MatchAt(text, p).value) + Commands(MatchesFrom(text, MatchAt(text, p).value.end))
  {
    if MatchAt(text, p).Some? {
      var m := MatchAt(text, p).value;
      var rest := MatchesFrom(text, m.end);
      assert MatchesFrom(text, p) == [m] + rest;
      assert ([m] + rest)[1..] == rest;
    }
  }

  /** The candidates one match contributes, as the body of the loop over matches in
      `extract_shell_commands` collects them. */
  method CandidatesOf(m: Match) returns (kept: seq<string>)
    ensures kept == MatchCommands(m)
  {
    if m.Dollar? {
      return [Strip(m.rest)];
    }
    var lines := Split(Strip(m.body), '\n');
    kept := [];
    for i := 0 to |lines|
      invariant kept == KeepCommands(lines[..i])
    {
      assert lines[..i + 1][..i] == lines[..i];
      var line := Strip(lines[i]);
      if line != "" && line[0] != '#' {
        kept := kept + [line];
      }
    }
    assert lines[..|lines|] == lines;
  }

  /** `extract_shell_commands`: one pass over the matches, appending candidates. */
  method ExtractShellCommands(text: string) returns (commands: seq<string>)
    ensures commands == Extracted(text)
  {
    commands := [];
    var p := 0;
    while p < |text|
      invariant p <= |text|
      invariant commands + Commands(MatchesFrom(text, p)) == Extracted(text)
      decreases |text| - p
    {
      var found := MatchAt(text, p);
      CommandsStep(text, p);
      if found.None? {
        p := p + 1;
      } else {
        var kept := CandidatesOf(found.value);
        commands := commands + kept;
        p := found.value.end;
      }
    }
    assert MatchesFrom(text, p) == [];
  }

  /** `is_shell_command`: some match exists (`search` succeeds). */
  predicate IsShellCommand(text: string) {
    exists p | 0 <= p < |text| :: MatchAt(text, p).Some?
  }

  // ------------------------------------------------------ extractor lemmas

  /** `search` succeeds exactly when `finditer` yields at least one match. */
  lemma IsShellCommandIffMatches(text: string)
    ensures IsShellCommand(text) <==> MatchesFrom(text, 0) != []
  {
    var ms := MatchesFrom(text, 0);
    MatchesFromSound(text, 0);
    MatchesFromFirst(text, 0);
    if ms != [] {
      assert MatchAt(text, ms[0].start).Some?;
    }
  }

  lemma {:induction false} CommandsNonEmpty(ms: seq<Match>)
    requires Commands(ms) != []
    ensures ms != []
  {
  }

  /** A non-empty extraction implies `is_shell_command`. */
  lemma ExtractedImpliesShellCommand(text: string)
    requires Extracted(text) != []
    ensures IsShellCommand(text)
  {
    CommandsNonEmpty(MatchesFrom(text, 0));
    IsShellCommandIffMatches(text);
  }

  /** The converse fails: a block holding only a comment matches but yields nothing. */
  lemma CommentOnlyBlock()
    ensures IsShellCommand("```\n#\n```")
    ensures Extracted("```\n#\n```") == []
  {
    var text := "```\n#\n```";
    var m := Block(0, "#", 9);
    assert text[0..4] == "```\n";
    assert text[4..5] == "#";
    assert text[5..9] == CloseFence;
    assert MatchesHere(text, 0, m);
    MatchAtIsPattern(text, 0, m);
    assert MatchesFrom(text, 0) == [m] + MatchesFrom(text, 9);
    assert Commands([m]) == MatchCommands(m) + Commands([]);
    StripKeepsStripped("#");
    assert "#"[1..] == "";
    assert Split("", '\n') == [""];
    assert "#"[0] == '#' && ['#'] + "" == "#";
    assert Split("#", '\n') == ["#"];
    assert KeepCommands(["#"]) == KeepCommands([]) + [];
  }

  /** Text with neither three backticks nor `$ ` yields nothing and is not a shell command. */
  lemma NoMarkers(text: string)
    requires !Contains(text, "```") && !Contains(text, "$ ")
    ensures Extracted(text) == []
    ensures !IsShellCommand(text)
  {
    forall p | 0 <= p < |text| ensures MatchAt(text, p).None? {
      if OpeningEnd(text, p).Some? {
        var q := OpeningEnd(text, p).value;
        var h := if q == p + 4 then "```\n" else if q == p + 6 then "```sh\n" else "```bash\n";
        assert OccursAt(text, h, p);
        assert text[p..p + 3] == text[p..p + |h|][..3];
        assert OccursAt(text, "```", p);
        assert false;
      }
      if OccursAt(text, "$ ", p) {
        assert false;
      }
    }
    IsShellCommandIffMatches(text);
  }

  lemma StripNoNewline(s: string)
    requires '\n' !in s
    ensures '\n' !in Strip(s)
  {
    var k := |s| - |TrimStart(s)|;
    StripInfix(s);
    forall j | 0 <= j < |Strip(s)| ensures Strip(s)[j] != '\n' {
      OccursAtChar(s, Strip(s), k, j);
    }
  }

  /** The candidates of one match are stripped and hold no newline; those of a block are
      also non-empty and never start with `#`. */
  lemma MatchCommandsShape(m: Match)
    requires m.Dollar? ==> '\n' !in m.rest
    ensures SingleLines(MatchCommands(m))
    ensures m.Block? ==> forall i :: 0 <= i < |MatchCommands(m)| ==> IsBlockCommand(MatchCommands(m)[i])
  {
    var cs := MatchCommands(m);
    if m.Block? {
      var lines := Split(Strip(m.body), '\n');
      forall i | 0 <= i < |cs| ensures '\n' !in cs[i] {
        var j :| 0 <= j < |lines| && cs[i] == Strip(lines[j]);
        StripNoNewline(lines[j]);
      }
    } else {
      StripNoNewline(m.rest);
    }
  }

  /** Every command is stripped and on one line. */
  predicate SingleLines(cs: seq<string>) {
    forall i :: 0 <= i < |cs| ==> IsStripped(cs[i]) && '\n' !in cs[i]
  }

  lemma SingleLinesConcat(a: seq<string>, b: seq<string>)
    requires SingleLines(a) && SingleLines(b)
    ensures SingleLines(a + b)
  {
    forall i | 0 <= i < |a + b| ensures IsStripped((a + b)[i]) && '\n' !in (a + b)[i] {
      if i >= |a| { assert (a + b)[i] == b[i - |a|]; }
    }
  }

  lemma {:induction false} CommandsShape(text: string, p: nat)
    requires p <= |text|
    ensures SingleLines(Commands(MatchesFrom(text, p)))
    decreases |text| - p
  {
    if p < |text| {
      CommandsStep(text, p);
      match MatchAt(text, p)
      case None =>
        CommandsShape(text, p + 1);
      case Some(m) =>
        MatchAtIsPattern(text, p, m);
        MatchCommandsShape(m);
        CommandsShape(text, m.end);
        SingleLinesConcat(MatchCommands(m), Commands(MatchesFrom(text, m.end)));
    }
  }

  /** No candidate has surrounding whitespace or contains a newline. */
  lemma ExtractedShape(text: string)
    ensures forall i :: 0 <= i < |Extracted(text)| ==> IsStripped(Extracted(text)[i]) && '\n' !in Extracted(text)[i]
  {
    CommandsShape(text, 0);
  }

  /** Positions holding neither a backtick nor `$` start no match, so `finditer` moves past them. */
  lemma {:induction false} SkipPlain(text: string, p: nat, b: nat)
    requires p <= b <= |text|
    requires forall k :: p <= k < b ==> text[k] != '`' && text[k] != '$'
    ensures MatchesFrom(text, p) == MatchesFrom(text, b)
    decreases b - p
  {
    if p < b {
      if OpeningEnd(text, p).Some? {
        var q := OpeningEnd(text, p).value;
        if q == p + 4 { OccursAtChar(text, "```\n", p, 0); }
        else if q == p + 6 { OccursAtChar(text, "```sh\n", p, 0); }
        else { OccursAtChar(text, "```bash\n", p, 0); }
      }
      if OccursAt(text, "$ ", p) { OccursAtChar(text, "$ ", p, 0); }
      assert MatchAt(text, p).None?;
      SkipPlain(text, p + 1, b);
    }
  }

  /** A `$ ` at `p` followed by a whole line: `finditer` yields that line's match next. */
  lemma DollarLineStep(text: string, p: nat, line: string)
    requires OccursAt(text, "$ ", p) && OccursAt(text, line, p + 2)
    requires |line| >= 1 && '\n' !in line
    requires p + 2 + |line| == |text| || text[p + 2 + |line|] == '\n'
    ensures MatchesFrom(text, p) == [Dollar(p, line, p + 2 + |line|)] + MatchesFrom(text, p + 2 + |line|)
  {
    var m := Dollar(p, line, p + 2 + |line|);
    assert MatchesHere(text, p, m);
    MatchAtIsPattern(text, p, m);
  }

  /** `$ ` is found in the middle of a line: any plain text may precede it. */
  lemma InlineAfterText(before: string, line: string)
    requires '`' !in before && '$' !in before
    requires |line| >= 1 && '\n' !in line
    ensures Extracted(before + "$ " + line) == [Strip(line)]
  {
    var text := before + "$ " + line;
    var p := |before|;
    assert forall k :: 0 <= k < p ==> text[k] == before[k];
    SkipPlain(text, 0, p);
    assert text[p..p + 2] == "$ ";
    assert text[p + 2..p + 2 + |line|] == line;
    DollarLineStep(text, p, line);
    var m := Dollar(p, line, |text|);
    assert Commands([m]) == MatchCommands(m) + Commands([]);
  }

  /** Where the pieces of `"$ " + a + "\n$ " + b` lie. */
  lemma TwoDollarText(a: string, b: string)
    ensures var text := "$ " + a + "\n$ " + b;
      && OccursAt(text, "$ ", 0) && OccursAt(text, a, 2) && text[2 + |a|] == '\n'
      && OccursAt(text, "$ ", 3 + |a|) && OccursAt(text, b, 5 + |a|) && |text| == 5 + |a| + |b|
  {
    var text := "$ " + a + "\n$ " + b;
    var p := 3 + |a|;
    assert text[0..2] == "$ " && text[2..2 + |a|] == a;
    assert text[p..p + 2] == "$ " && text[p + 2..p + 2 + |b|] == b;
  }

  lemma CommandsPair(m1: Match, m2: Match)
    ensures Commands([m1, m2]) == MatchCommands(m1) + MatchCommands(m2)
  {
    assert [m1, m2][1..] == [m2];
    assert Commands([m2]) == MatchCommands(m2) + Commands([]);
  }

  /** Two `$ ` lines give two candidates in order; equal lines are both kept. */
  lemma TwoDollarLines(a: string, b: string)
    requires |a| >= 1 && '\n' !in a
    requires |b| >= 1 && '\n' !in b
    ensures Extracted("$ " + a + "\n$ " + b) == [Strip(a), Strip(b)]
  {
    var text := "$ " + a + "\n$ " + b;
    var e := 2 + |a|;
    TwoDollarText(a, b);
    DollarLineStep(text, 0, a);
    SkipPlain(text, e, e + 1);
    DollarLineStep(text, e + 1, b);
    var m1, m2 := Dollar(0, a, e), Dollar(e + 1, b, |text|);
    assert MatchesFrom(text, 0) == [m1, m2];
    CommandsPair(m1, m2);
  }

  // --------------------------------------------------------------- cleaning

  const CleanPrefixes: seq<string> := ["$", "sudo ", "bash -c \"", "\""]

  /** `s` without the prefix `p` when it starts with it. */
  function DropPrefix(s: string, p: string): string
  {
    if StartsWith(s, p) then s[|p|..] else s
  }

  /** The prefixes `ps` removed in turn, each at most once. */
  function DropPrefixes(s: string, ps: seq<string>): string
    decreases |ps|
  {
    if |ps| == 0 then s
    else DropPrefix(DropPrefixes(s, ps[..|ps| - 1]), ps[|ps| - 1])
  }

  /** Removing prefixes leaves a suffix of the string. */
  lemma {:induction false} DropPrefixesSuffix(s: string, ps: seq<string>)
    ensures var r := DropPrefixes(s, ps); |r| <= |s| && r == s[|s| - |r|..]
    decreases |ps|
  {
    if |ps| > 0 {
      var t := DropPrefixes(s, ps[..|ps| - 1]);
      DropPrefixesSuffix(s, ps[..|ps| - 1]);
      var r := DropPrefix(t, ps[|ps| - 1]);
      assert r == t[|t| - |r|..];
      assert s[|s| - |t|..][|t| - |r|..] == s[|s| - |r|..];
    }
  }

  /** `s` without one trailing double quote, when it ends with one. */
  function DropQuote(s: string): string {
    if EndsWith(s, "\"") then s[..|s| - 1] else s
  }

  /** What `clean_command` returns. */
  function Cleaned(command: string): string {
    Strip(DropQuote(DropPrefixes(Strip(command), CleanPrefixes)))
  }

  /** `clean_command`. */
  method CleanCommand(command: string) returns (cleaned: string)
    ensures cleaned == Cleaned(command)
  {
    cleaned := Strip(command);
    for i := 0 to |CleanPrefixes|
      invariant cleaned == DropPrefixes(Strip(command), CleanPrefixes[..i])
    {
      assert CleanPrefixes[..i + 1][..i] == CleanPrefixes[..i];
      if StartsWith(cleaned, CleanPrefixes[i]) {
        cleaned := cleaned[|CleanPrefixes[i]|..];
      }
    }
    assert CleanPrefixes[..|CleanPrefixes|] == CleanPrefixes;
    if EndsWith(cleaned, "\"") {
      cleaned := cleaned[..|cleaned| - 1];
    }
    cleaned := Strip(cleaned);
  }

  /** The cleaned command has no surrounding whitespace and is a piece of the stripped input. */
  lemma CleanedIsStrippedInfix(command: string)
    ensures IsStripped(Cleaned(command))
    ensures Contains(Strip(command), Cleaned(command))
  {
    var s := Strip(command);
    var t := DropPrefixes(s, CleanPrefixes);
    var u := DropQuote(t);
    DropPrefixesSuffix(s, CleanPrefixes);
    assert u == t[..|u|];
    var a := |s| - |t|;
    assert u == s[a..a + |u|];
    var r := Strip(u);
    var k := |u| - |TrimStart(u)|;
    StripInfix(u);
    assert Contains(s[a..a + |u|], r);
    ContainsInfix(s, a, a + |u|, r);
  }

  lemma DropPrefixesSnoc(s: string, ps: seq<string>, p: string)
    ensures DropPrefixes(s, ps + [p]) == DropPrefix(DropPrefixes(s, ps), p)
  {
    assert (ps + [p])[..|ps|] == ps;
  }

  /** The four prefixes are tried once each, in list order. */
  lemma CleanPrefixOrder(s: string)
    ensures DropPrefixes(s, CleanPrefixes) ==
      DropPrefix(DropPrefix(DropPrefix(DropPrefix(s, "$"), "sudo "), "bash -c \""), "\"")
  {
    assert CleanPrefixes == [] + ["$"] + ["sudo "] + ["bash -c \""] + ["\""];
    DropPrefixesSnoc(s, [], "$");
    DropPrefixesSnoc(s, ["$"], "sudo ");
    assert ["$"] + ["sudo "] == ["$", "sudo "];
    DropPrefixesSnoc(s, ["$", "sudo "], "bash -c \"");
    assert ["$", "sudo "] + ["bash -c \""] == ["$", "sudo ", "bash -c \""];
    DropPrefixesSnoc(s, ["$", "sudo ", "bash -c \""], "\"");
  }

  /** A prefix that is there goes. */
  lemma DropPrefixHit(p: string, rest: string)
    ensures DropPrefix(p + rest, p) == rest
  {
    assert (p + rest)[..|p|] == p;
  }

  /** A prefix whose first character differs stays. */
  lemma DropPrefixMiss(s: string, p: string)
    requires |s| >= 1 && |p| >= 1 && s[0] != p[0]
    ensures DropPrefix(s, p) == s
  {
  }

  /** A trailing quote that is there goes. */
  lemma DropQuoteHit(s: string)
    ensures DropQuote(s + "\"") == s
  {
    assert (s + "\"")[|s|..] == "\"";
  }

  /** No trailing quote: nothing goes. */
  lemma DropQuoteMiss(s: string)
    requires |s| >= 1 && s[|s| - 1] != '"'
    ensures DropQuote(s) == s
  {
  }

  /** `$` goes first, so `sudo ` directly after it goes too. */
  lemma CleanDollarSudo()
    ensures Cleaned("$sudo ls") == "ls"
  {
    StripKeepsStripped("$sudo ls");
    CleanPrefixOrder("$sudo ls");
    assert "$sudo ls" == "$" + "sudo ls" && "sudo ls" == "sudo " + "ls";
    DropPrefixHit("$", "sudo ls");
    DropPrefixHit("sudo ", "ls");
    DropPrefixMiss("ls", "bash -c \"");
    DropPrefixMiss("ls", "\"");
    DropQuoteMiss("ls");
    StripKeepsStripped("ls");
  }

  /** `sudo ` is only removed right after `$`: a space in between keeps it. */
  lemma CleanDollarSpaceSudo()
    ensures Cleaned("$ sudo ls") == "sudo ls"
  {
    StripKeepsStripped("$ sudo ls");
    CleanPrefixOrder("$ sudo ls");
    assert "$ sudo ls" == "$" + " sudo ls";
    DropPrefixHit("$", " sudo ls");
    DropPrefixMiss(" sudo ls", "sudo ");
    DropPrefixMiss(" sudo ls", "bash -c \"");
    DropPrefixMiss(" sudo ls", "\"");
    DropQuoteMiss(" sudo ls");
    assert " sudo ls" == " " + "sudo ls";
    StripLeadingSpace("sudo ls");
  }

  /** Each prefix goes at most once. */
  lemma CleanDollarOnce()
    ensures Cleaned("$$ls") == "$ls"
  {
    StripKeepsStripped("$$ls");
    CleanPrefixOrder("$$ls");
    assert "$$ls" == "$" + "$ls";
    DropPrefixHit("$", "$ls");
    DropPrefixMiss("$ls", "sudo ");
    DropPrefixMiss("$ls", "bash -c \"");
    DropPrefixMiss("$ls", "\"");
    DropQuoteMiss("$ls");
    StripKeepsStripped("$ls");
  }

  /** `bash -c "…"` unwraps to its argument. */
  lemma CleanBashC()
    ensures Cleaned("bash -c \"ls -la\"") == "ls -la"
  {
    var s := "bash -c \"ls -la\"";
    StripKeepsStripped(s);
    CleanPrefixOrder(s);
    DropPrefixMiss(s, "$");
    DropPrefixMiss(s, "sudo ");
    assert s == "bash -c \"" + "ls -la\"";
    DropPrefixHit("bash -c \"", "ls -la\"");
    DropPrefixMiss("ls -la\"", "\"");
    assert "ls -la\"" == "ls -la" + "\"";
    DropQuoteHit("ls -la");
    StripKeepsStripped("ls -la");
  }

  /** At most one quote goes from each end. */
  lemma CleanQuoteOnce()
    ensures Cleaned("\"\"ls\"\"") == "\"ls\""
  {
    var w := "\"\"ls\"\"";
    StripKeepsStripped(w);
    CleanPrefixOrder(w);
    DropPrefixMiss(w, "$");
    DropPrefixMiss(w, "sudo ");
    DropPrefixMiss(w, "bash -c \"");
    assert w == "\"" + "\"ls\"\"";
    DropPrefixHit("\"", "\"ls\"\"");
    assert "\"ls\"\"" == "\"ls\"" + "\"";
    DropQuoteHit("\"ls\"");
    StripKeepsStripped("\"ls\"");
  }
}
