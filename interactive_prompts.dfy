/**
 * The three prompts that choose what goes into the context: the numbered file
 * selection, the 1-4 directory menu and the custom directory path. Each one is a
 * `while True` loop over the console's answers; each loop is specified by a
 * function that follows the same answers and says what the loop returns and
 * which answers it has consumed.
 */
module InteractivePrompts {
  import opened Wrappers
  import opened Strings
  import opened Terminal
  import FileHandler

  /** What a prompt loop returns, with the answers still unread afterwards. */
  datatype Run<R> = Run(result: Answer<R>, lines: seq<Answer<string>>, answers: seq<Answer<Option<bool>>>)

  // -------------------------------------------------------- file selection

  /** `int(x.strip())` for each token, `None` where it raises `ValueError` and, since
      `ParseInt` reads ASCII digits only, for a token of other Unicode digits. */
  function ParsedTokens(tokens: seq<string>): (ps: seq<Option<int>>)
    ensures |ps| == |tokens|
  {
    seq(|tokens|, k requires 0 <= k < |tokens| => ParseInt(Strip(tokens[k])))
  }

  /** The numbers less one, or `None` as soon as one token failed: the comprehension
      either completes or raises. */
  function Decremented(ps: seq<Option<int>>): (r: Option<seq<int>>)
    ensures r.Some? ==> |r.value| == |ps|
    decreases |ps|
  {
    if |ps| == 0 then Some([])
    else
      match Decremented(ps[..|ps| - 1])
      case None => None
      case Some(idx) =>
        match ps[|ps| - 1]
        case None => None
        case Some(n) => Some(idx + [n - 1])
  }

  /** `[int(x.strip()) - 1 for x in tokens]`, or `None` when it raises. */
  function Indices(tokens: seq<string>): Option<seq<int>> {
    Decremented(ParsedTokens(tokens))
  }

  /** One token that is not an integer rejects the whole selection; when every token is
      one, the indices are the numbers less one, in token order. */
  lemma {:induction false} DecrementedMeaning(ps: seq<Option<int>>)
    ensures Decremented(ps).None? <==> exists k :: 0 <= k < |ps| && ps[k].None?
    ensures Decremented(ps).Some? ==> forall k :: 0 <= k < |ps| ==> ps[k] == Some(Decremented(ps).value[k] + 1)
    decreases |ps|
  {
    if |ps| > 0 {
      var init := ps[..|ps| - 1];
      DecrementedMeaning(init);
      assert forall k :: 0 <= k < |init| ==> init[k] == ps[k];
    }
  }

  /** `[files[i] for i in indices if 0 <= i < len(files)]`. */
  function Pick<T>(files: seq<T>, indices: seq<int>): (r: seq<T>)
    ensures |r| <= |indices|
    ensures forall k :: 0 <= k < |r| ==> r[k] in files
    decreases |indices|
  {
    if |indices| == 0 then []
    else
      var i := indices[|indices| - 1];
      Pick(files, indices[..|indices| - 1]) + (if 0 <= i < |files| then [files[i]] else [])
  }

  /** The selection keeps the order of the numbers and keeps repeats: picking from a
      concatenation is the concatenation of the picks. */
  lemma {:induction false} PickConcat<T>(files: seq<T>, a: seq<int>, b: seq<int>)
    ensures Pick(files, a + b) == Pick(files, a) + Pick(files, b)
    decreases |b|
  {
    if |b| == 0 {
      assert a + b == a;
    } else {
      assert (a + b)[..|a + b| - 1] == a + b[..|b| - 1];
      PickConcat(files, a, b[..|b| - 1]);
    }
  }

  /** One number picks its file when it is in range and nothing otherwise. */
  lemma PickOne<T>(files: seq<T>, i: int)
    ensures Pick(files, [i]) == if 0 <= i < |files| then [files[i]] else []
  {
    assert [i][..0] == [];
  }

  /** Some index of `indices` is in range for `n` files. */
  predicate SomeInRange(indices: seq<int>, n: nat) {
    exists k :: 0 <= k < |indices| && 0 <= indices[k] < n
  }

  /** Nothing is picked exactly when no index is in range. */
  lemma {:induction false} PickEmpty<T>(files: seq<T>, indices: seq<int>)
    ensures Pick(files, indices) == [] <==> !SomeInRange(indices, |files|)
    decreases |indices|
  {
    if |indices| > 0 {
      var init := indices[..|indices| - 1];
      PickEmpty(files, init);
      assert forall k :: 0 <= k < |init| ==> init[k] == indices[k];
      if SomeInRange(init, |files|) {
        var k :| 0 <= k < |init| && 0 <= init[k] < |files|;
        assert indices[k] == init[k];
      }
    }
  }

  /** What one answer to "File selection" leads to. */
  datatype Turn<T> = Cancel | Accept(files: seq<T>) | Retry

  /** One pass through the body of the selection loop: `none` and `all` in any case,
      otherwise the comma-separated numbers; a bad number or an empty pick asks
      "Try again?". */
  function SelectionTurn<T>(selection: string, files: seq<T>): Turn<T> {
    if Lower(selection) == "none" then Cancel
    else if Lower(selection) == "all" then Accept(files)
    else match Indices(Split(selection, ','))
      case None => Retry
      case Some(idx) =>
        var picked := Pick(files, idx);
        if picked == [] then Retry else Accept(picked)
  }

  /** A list of numbers is accepted exactly when every token is an integer and one of
      them is in range, and then the files picked are those numbers' files in order. */
  lemma SelectionTurnNumbers<T>(selection: string, files: seq<T>)
    requires Lower(selection) != "none" && Lower(selection) != "all"
    ensures var idx := Indices(Split(selection, ','));
      && (SelectionTurn(selection, files).Accept? <==> idx.Some? && SomeInRange(idx.value, |files|))
      && (SelectionTurn(selection, files).Accept? ==> SelectionTurn(selection, files).files == Pick(files, idx.value))
  {
    var idx := Indices(Split(selection, ','));
    if idx.Some? {
      PickEmpty(files, idx.value);
    }
  }

  /** The loop of `prompt_for_file_selection`: ask (default `all`), act on the answer,
      and on a rejected answer ask "Try again?" (default yes). */
  function SelectionLoop<T>(files: seq<T>, lines: seq<Answer<string>>, answers: seq<Answer<Option<bool>>>): Run<Option<seq<T>>>
    decreases |lines|
  {
    match AskResult(lines, "all")
    case Interrupted => Run(Interrupted, Rest(lines), answers)
    case Given(selection) =>
      match SelectionTurn(selection, files)
      case Cancel => Run(Given(None), Rest(lines), answers)
      case Accept(picked) => Run(Given(Some(picked)), Rest(lines), answers)
      case Retry =>
        match ConfirmResult(answers, true)
        case Interrupted => Run(Interrupted, Rest(lines), Rest(answers))
        case Given(again) =>
          if again then SelectionLoop(files, Rest(lines), Rest(answers))
          else Run(Given(None), Rest(lines), Rest(answers))
  }

  /** A selection the loop returns is never empty and holds only listed files. */
  lemma {:induction false} SelectionLoopSound<T>(files: seq<T>, lines: seq<Answer<string>>, answers: seq<Answer<Option<bool>>>)
    requires files != []
    ensures var r := SelectionLoop(files, lines, answers).result;
      r.Given? && r.value.Some? ==> r.value.value != [] && forall k :: 0 <= k < |r.value.value| ==> r.value.value[k] in files
    decreases |lines|
  {
    var a := AskResult(lines, "all");
    if a.Given? && SelectionTurn(a.value, files).Retry? {
      var c := ConfirmResult(answers, true);
      if c.Given? && c.value {
        SelectionLoopSound(files, Rest(lines), Rest(answers));
      }
    }
  }

  /** Enter, or `all` in any case and with any padding, selects every file; `none` in any
      case and with any padding selects nothing. */
  lemma SelectionKeywords<T>(files: seq<T>, selection: string, rest: seq<Answer<string>>, answers: seq<Answer<Option<bool>>>)
    ensures Lower(Strip(selection)) == "all" || selection == "" ==>
      SelectionLoop(files, [Given(selection)] + rest, answers).result == Given(Some(files))
    ensures Lower(Strip(selection)) == "none" ==>
      SelectionLoop(files, [Given(selection)] + rest, answers).result == Given(None)
  {
    assert Lower("all") == "all";
  }

  /** A rejected answer followed by "no" ends the prompt with nothing selected. */
  lemma DeclineRetry<T>(files: seq<T>, selection: string, rest: seq<Answer<string>>, answers: seq<Answer<Option<bool>>>)
    requires selection != "" && SelectionTurn(Strip(selection), files).Retry?
    requires |answers| > 0 && answers[0] == Given(Some(false))
    ensures SelectionLoop(files, [Given(selection)] + rest, answers).result == Given(None)
  {
  }

  /** `prompt_for_file_selection` after the list of text files has been gathered: nothing
      to choose from returns `None` at once, otherwise the selection loop runs. */
  method PromptForFileSelection(console: Console, textFiles: seq<string>) returns (r: Answer<Option<seq<string>>>)
    modifies console
    ensures textFiles == [] ==> r == Given(None) && console.lines == old(console.lines) && console.answers == old(console.answers)
    ensures textFiles != [] ==>
      var run := SelectionLoop(textFiles, old(console.lines), old(console.answers));
      r == run.result && console.lines == run.lines && console.answers == run.answers
  {
    if textFiles == [] {
      return Given(None);
    }
    while true
      invariant SelectionLoop(textFiles, console.lines, console.answers) == SelectionLoop(textFiles, old(console.lines), old(console.answers))
      decreases |console.lines|
    {
      ghost var lines0, answers0 := console.lines, console.answers;
      var selection := console.Ask("all");
      if selection.Interrupted? {
        return Interrupted;
      }
      var turn := SelectionTurn(selection.value, textFiles);
      if turn.Cancel? {
        return Given(None);
      } else if turn.Accept? {
        return Given(Some(turn.files));
      }
      var again := console.Confirm(true);
      if again.Interrupted? {
        return Interrupted;
      }
      if !again.value {
        return Given(None);
      }
      assert |lines0| > 0;
    }
  }

  // ------------------------------------------------------- custom directory

  predicate IsAbsolute(p: string) {
    |p| > 0 && p[0] == '/'
  }

  /** `Path.cwd() / Path(p)` for a relative `p`; an absolute `p` stays as it is. */
  function Resolve(cwd: string, p: string): (r: string)
    ensures EndsWith(r, p)
    ensures IsAbsolute(p) ==> r == p
    ensures IsAbsolute(cwd) && cwd != "." ==> IsAbsolute(r)
  {
    if IsAbsolute(p) then p
    else
      var r := FileHandler.JoinPath(cwd, p);
      assert r[|r| - |p|..] == p;
      r
  }

  predicate IsDirectory(fs: FileHandler.FileSystem, p: string) {
    fs(p).Some? && fs(p).value.Dir?
  }

  /** The loop of `prompt_for_custom_directory`. An empty answer asks "Cancel directory
      selection?" (default yes); a path that does not exist or is not a directory asks
      "Try again?" (default yes); an existing directory is returned. */
  function CustomLoop(cwd: string, fs: FileHandler.FileSystem, lines: seq<Answer<string>>, answers: seq<Answer<Option<bool>>>)
    : Run<Option<string>>
    decreases |lines|
  {
    match AskResult(lines, "")
    case Interrupted => Run(Interrupted, Rest(lines), answers)
    case Given(input) =>
      if input == "" then
        match ConfirmResult(answers, true)
        case Interrupted => Run(Interrupted, Rest(lines), Rest(answers))
        case Given(cancel) =>
          if cancel then Run(Given(None), Rest(lines), Rest(answers))
          else CustomLoop(cwd, fs, Rest(lines), Rest(answers))
      else
        var p := Resolve(cwd, input);
        // A missing path and a path that is not a directory ask the same question.
        if IsDirectory(fs, p) then Run(Given(Some(p)), Rest(lines), answers)
        else match ConfirmResult(answers, true)
          case Interrupted => Run(Interrupted, Rest(lines), Rest(answers))
          case Given(again) =>
            if again then CustomLoop(cwd, fs, Rest(lines), Rest(answers))
            else Run(Given(None), Rest(lines), Rest(answers))
  }

  /** A path the loop returns is an existing directory, the resolution of one of the
      answers typed. */
  lemma {:induction false} CustomLoopSound(cwd: string, fs: FileHandler.FileSystem, lines: seq<Answer<string>>,
                                           answers: seq<Answer<Option<bool>>>)
    ensures var r := CustomLoop(cwd, fs, lines, answers).result;
      r.Given? && r.value.Some? ==>
        && IsDirectory(fs, r.value.value)
        && exists i :: 0 <= i < |lines| && lines[i].Given? && Strip(lines[i].value) != "" && r.value.value == Resolve(cwd, Strip(lines[i].value))
    decreases |lines|
  {
    var r := CustomLoop(cwd, fs, lines, answers).result;
    var a := AskResult(lines, "");
    if a.Given? {
      var c := ConfirmResult(answers, true);
      if a.value != "" && IsDirectory(fs, Resolve(cwd, a.value)) {
        assert lines[0].Given? && Strip(lines[0].value) == a.value;
      } else if c.Given? && c.value == (a.value != "") {
        CustomLoopSound(cwd, fs, Rest(lines), Rest(answers));
        if r.Given? && r.value.Some? {
          var i :| 0 <= i < |Rest(lines)| && Rest(lines)[i].Given? && Strip(Rest(lines)[i].value) != ""
            && r.value.value == Resolve(cwd, Strip(Rest(lines)[i].value));
          assert Rest(lines)[i] == lines[i + 1];
        }
      }
    }
  }

  /** An empty or all-blank answer confirmed with Enter or "y" cancels: the result is `None`. */
  lemma EmptyInputCancels(cwd: string, fs: FileHandler.FileSystem, blank: string, rest: seq<Answer<string>>,
                          confirm: Option<bool>, answers: seq<Answer<Option<bool>>>)
    requires Strip(blank) == "" && confirm != Some(false)
    ensures CustomLoop(cwd, fs, [Given(blank)] + rest, [Given(confirm)] + answers).result == Given(None)
  {
  }

  /** A relative answer naming a directory under the working directory selects it there. */
  lemma RelativeDirectorySelected(cwd: string, fs: FileHandler.FileSystem, input: string, rest: seq<Answer<string>>,
                                  answers: seq<Answer<Option<bool>>>)
    requires Strip(input) != "" && !IsAbsolute(Strip(input)) && IsDirectory(fs, FileHandler.JoinPath(cwd, Strip(input)))
    ensures CustomLoop(cwd, fs, [Given(input)] + rest, answers).result == Given(Some(FileHandler.JoinPath(cwd, Strip(input))))
  {
  }

  /** `prompt_for_custom_directory`. */
  method PromptForCustomDirectory(console: Console, cwd: string, fs: FileHandler.FileSystem) returns (r: Answer<Option<string>>)
    modifies console
    ensures var run := CustomLoop(cwd, fs, old(console.lines), old(console.answers));
      r == run.result && console.lines == run.lines && console.answers == run.answers
  {
    while true
      invariant CustomLoop(cwd, fs, console.lines, console.answers) == CustomLoop(cwd, fs, old(console.lines), old(console.answers))
      decreases |console.lines|
    {
      ghost var lines0 := console.lines;
      var pathInput := console.Ask("");
      if pathInput.Interrupted? {
        return Interrupted;
      }
      if pathInput.value == "" {
        var cancel := console.Confirm(true);
        if cancel.Interrupted? {
          return Interrupted;
        }
        if cancel.value {
          return Given(None);
        }
        assert |lines0| > 0;
        continue;
      }
      var customPath := pathInput.value;
      if !IsAbsolute(customPath) {
        customPath := FileHandler.JoinPath(cwd, customPath);
      }
      if fs(customPath).None? || !fs(customPath).value.Dir? {
        var again := console.Confirm(true);
        if again.Interrupted? {
          return Interrupted;
        }
        if !again.value {
          return Given(None);
        }
        assert |lines0| > 0;
        continue;
      }
      return Given(Some(customPath));
    }
  }

  // --------------------------------------------------------- directory menu

  /** What `prompt_for_directory_selection` returns: a directory, `None` for an empty
      context, or `"EXIT"`. */
  datatype DirectoryChoice = UseDirectory(path: string) | EmptyContext | Exit

  /** The menu loop: `1` (also the default) uses the current directory, `2` starts with an
      empty context, `3` hands over to the custom path prompt, `4` exits; anything else
      asks again. */
  function MenuLoop(currentDir: string, cwd: string, fs: FileHandler.FileSystem, lines: seq<Answer<string>>,
                    answers: seq<Answer<Option<bool>>>): Run<DirectoryChoice>
    decreases |lines|
  {
    match AskResult(lines, "1")
    case Interrupted => Run(Interrupted, Rest(lines), answers)
    case Given(choice) =>
      if choice == "1" then Run(Given(UseDirectory(currentDir)), Rest(lines), answers)
      else if choice == "2" then Run(Given(EmptyContext), Rest(lines), answers)
      else if choice == "3" then
        var custom := CustomLoop(cwd, fs, Rest(lines), answers);
        var result := match custom.result
          case Interrupted => Interrupted
          case Given(None) => Given(EmptyContext)
          case Given(Some(p)) => Given(UseDirectory(p));
        Run(result, custom.lines, custom.answers)
      else if choice == "4" then Run(Given(Exit), Rest(lines), answers)
      else MenuLoop(currentDir, cwd, fs, Rest(lines), answers)
  }

  /** The first valid choice decides, padding ignored: `1` or Enter gives the current
      directory, `2` an empty context, `4` exit, and `3` whatever the custom prompt returns;
      anything else, a line of spaces included, asks again. */
  lemma MenuChoices(currentDir: string, cwd: string, fs: FileHandler.FileSystem, choice: string,
                    rest: seq<Answer<string>>, answers: seq<Answer<Option<bool>>>)
    ensures var r := MenuLoop(currentDir, cwd, fs, [Given(choice)] + rest, answers).result;
      var c := Strip(choice);
      && (c == "1" || choice == "" ==> r == Given(UseDirectory(currentDir)))
      && (c == "2" ==> r == Given(EmptyContext))
      && (c == "4" ==> r == Given(Exit))
      && (c == "3" ==>
            var custom := CustomLoop(cwd, fs, rest, answers).result;
            && (custom == Given(None) <==> r == Given(EmptyContext))
            && (forall p :: custom == Given(Some(p)) <==> r == Given(UseDirectory(p))))
      && (choice != "" && c !in {"1", "2", "3", "4"} ==> r == MenuLoop(currentDir, cwd, fs, rest, answers).result)
  {
    var lines := [Given(choice)] + rest;
    assert lines[1..] == rest;
    var a := if choice == "" then "1" else Strip(choice);
    assert AskResult(lines, "1") == Given(a);
    MenuAnswer(currentDir, cwd, fs, lines, answers, a);
  }

  /** One menu turn, given the answer `Prompt.ask` returned. */
  lemma MenuAnswer(currentDir: string, cwd: string, fs: FileHandler.FileSystem, lines: seq<Answer<string>>,
                   answers: seq<Answer<Option<bool>>>, a: string)
    requires AskResult(lines, "1") == Given(a)
    ensures var r := MenuLoop(currentDir, cwd, fs, lines, answers).result;
      && (a == "1" ==> r == Given(UseDirectory(currentDir)))
      && (a == "2" ==> r == Given(EmptyContext))
      && (a == "4" ==> r == Given(Exit))
      && (a == "3" ==>
            var custom := CustomLoop(cwd, fs, lines[1..], answers).result;
            && (custom == Given(None) <==> r == Given(EmptyContext))
            && (forall p :: custom == Given(Some(p)) <==> r == Given(UseDirectory(p))))
      && (a !in {"1", "2", "3", "4"} ==> r == MenuLoop(currentDir, cwd, fs, lines[1..], answers).result)
  {
    assert Rest(lines) == lines[1..];
    var run := MenuLoop(currentDir, cwd, fs, lines, answers);
    if a == "3" {
      var custom := CustomLoop(cwd, fs, lines[1..], answers);
      assert run.result == match custom.result
        case Interrupted => Interrupted
        case Given(None) => Given(EmptyContext)
        case Given(Some(p)) => Given(UseDirectory(p));
    } else if a !in {"1", "2", "4"} {
      assert run == MenuLoop(currentDir, cwd, fs, lines[1..], answers);
    }
  }

  /** A directory the menu returns is the current one or an existing directory chosen
      through the custom prompt. */
  lemma {:induction false} MenuLoopSound(currentDir: string, cwd: string, fs: FileHandler.FileSystem,
                                         lines: seq<Answer<string>>, answers: seq<Answer<Option<bool>>>)
    ensures var r := MenuLoop(currentDir, cwd, fs, lines, answers).result;
      r.Given? && r.value.UseDirectory? ==> r.value.path == currentDir || IsDirectory(fs, r.value.path)
    decreases |lines|
  {
    var a := AskResult(lines, "1");
    if a.Given? {
      if a.value == "3" {
        CustomLoopSound(cwd, fs, Rest(lines), answers);
      } else if a.value !in {"1", "2", "4"} {
        MenuLoopSound(currentDir, cwd, fs, Rest(lines), answers);
      }
    }
  }

  /** `prompt_for_directory_selection`. */
  method PromptForDirectorySelection(console: Console, currentDir: string, cwd: string, fs: FileHandler.FileSystem)
    returns (r: Answer<DirectoryChoice>)
    modifies console
    ensures var run := MenuLoop(currentDir, cwd, fs, old(console.lines), old(console.answers));
      r == run.result && console.lines == run.lines && console.answers == run.answers
  {
    while true
      invariant MenuLoop(currentDir, cwd, fs, console.lines, console.answers)
             == MenuLoop(currentDir, cwd, fs, old(console.lines), old(console.answers))
      decreases |console.lines|
    {
      ghost var lines0 := console.lines;
      var choice := console.Ask("1");
      if choice.Interrupted? {
        return Interrupted;
      }
      if choice.value == "1" {
        return Given(UseDirectory(currentDir));
      } else if choice.value == "2" {
        return Given(EmptyContext);
      } else if choice.value == "3" {
        var custom := PromptForCustomDirectory(console, cwd, fs);
        match custom
        case Interrupted => return Interrupted;
        case Given(None) => return Given(EmptyContext);
        case Given(Some(p)) => return Given(UseDirectory(p));
      } else if choice.value == "4" {
        return Given(Exit);
      }
      assert |lines0| > 0;
    }
  }
}
