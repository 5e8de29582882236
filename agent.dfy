/**
 * The agent that runs an interactive session: it gathers the context the user
 * names (or the current directory), hands it to the API client, then reads the
 * user's messages, forwards them to Grok and offers to run every shell command
 * Grok's answer suggests, one confirmation each.
 *
 * The terminal is a `Console` of queued answers, the shell a `Shell` that logs
 * what it runs, the file system a `FileSystem` value.
 */
module Agent {
  import opened Wrappers
  import opened Strings
  import opened Terminal
  import CommandParser
  import CommandExecutor
  import ApiClient
  import FileHandler

  // ------------------------------------------------------------ leaving the session

  /** `_should_exit`: the stripped, lower-cased input is `exit` or `quit`. */
  predicate ShouldExit(input: string) {
    Lower(Strip(input)) in {"exit", "quit"}
  }

  /** Surrounding whitespace does not matter to the exit check. */
  lemma ShouldExitIgnoresPadding(input: string)
    ensures ShouldExit(input) == ShouldExit(Strip(input))
  {
    StripIdempotent(input);
  }

  /** An exit word is never blank, so the exit check and the blank-line skip of the
      chat loop never both apply. */
  lemma ExitWordsAreNotBlank(input: string)
    ensures ShouldExit(input) ==> Strip(input) != ""
  {
  }

  /** Case does not matter, but the word must stand alone. */
  lemma ShouldExitExamples()
    ensures ShouldExit("QUIT") && ShouldExit("exit")
    ensures !ShouldExit("exit now")
  {
    StripKeepsStripped("QUIT");
    StripKeepsStripped("exit");
    StripKeepsStripped("exit now");
    assert Lower("QUIT") == "quit";
    assert Lower("exit") == "exit";
  }

  /** A line the chat loop forwards to Grok. */
  predicate Sendable(input: string) {
    !ShouldExit(input) && Strip(input) != ""
  }

  // ------------------------------------------------------------ context

  /** The characters `_display_context_preview` shows before eliding the rest. */
  const PreviewLength: nat := 500

  /** `_display_context_preview`: a short context is shown whole, a long one as its
      first 500 characters followed by `...`. */
  function ContextPreview(context: string): (preview: string)
    ensures |context| <= PreviewLength ==> preview == context
    ensures |context| > PreviewLength ==>
      |preview| == PreviewLength + 3 && StartsWith(context, preview[..PreviewLength]) && EndsWith(preview, "...")
  {
    if |context| > PreviewLength then context[..PreviewLength] + "..." else context
  }

  function FileContext(fs: FileHandler.FileSystem, files: seq<string>): string {
    Join("\n", FileHandler.FileParts(fs, files))
  }

  function DirectoryContext(fs: FileHandler.FileSystem, dirs: seq<string>): string {
    Join("\n", FileHandler.DirectoryParts(fs, dirs))
  }

  /** The text `_build_and_set_context` assembles: the file context and then the
      directory context, each followed by a newline, each only when its list is
      non-empty. It is empty exactly when both lists are. */
  function TotalContext(fs: FileHandler.FileSystem, files: seq<string>, dirs: seq<string>): (total: string)
    ensures total == "" <==> files == [] && dirs == []
  {
    (if files != [] then FileContext(fs, files) + "\n" else "")
    + (if dirs != [] then DirectoryContext(fs, dirs) + "\n" else "")
  }

  /** The text `_build_and_set_context` accumulates, file part first and directory part
      second, is the assembled context. */
  lemma ContextAccumulated(fs: FileHandler.FileSystem, files: seq<string>, dirs: seq<string>, afterFiles: string, total: string)
    requires afterFiles == if files != [] then "" + FileContext(fs, files) + "\n" else ""
    requires total == if dirs != [] then afterFiles + DirectoryContext(fs, dirs) + "\n" else afterFiles
    ensures total == TotalContext(fs, files, dirs)
  {
    AppendSteps(files != [], dirs != [], FileContext(fs, files), DirectoryContext(fs, dirs), afterFiles, total);
  }

  lemma AppendSteps(hasFiles: bool, hasDirs: bool, fileText: string, dirText: string, afterFiles: string, total: string)
    requires afterFiles == if hasFiles then "" + fileText + "\n" else ""
    requires total == if hasDirs then afterFiles + dirText + "\n" else afterFiles
    ensures total == (if hasFiles then fileText + "\n" else "") + (if hasDirs then dirText + "\n" else "")
  {
    assert "" + fileText + "\n" == fileText + "\n";
    assert afterFiles + dirText + "\n" == afterFiles + (dirText + "\n");
  }

  /** Every readable, non-empty file of the list appears in the assembled context under
      its own header. */
  lemma FileTextInContext(fs: FileHandler.FileSystem, files: seq<string>, dirs: seq<string>, p: string, c: string)
    requires p in files && FileHandler.ReadFileContents(fs, p) == Some(c) && c != ""
    ensures Contains(TotalContext(fs, files, dirs), FileHandler.FilePart(p, c))
  {
    var part := FileHandler.FilePart(p, c);
    var parts := FileHandler.FileParts(fs, files);
    FilePartListed(fs, files, p, c);
    var k :| 0 <= k < |parts| && parts[k] == part;
    JoinContains("\n", parts, k);
    var fc := FileContext(fs, files);
    var total := TotalContext(fs, files, dirs);
    assert total[0..|fc|] == fc;
    ContainsInfix(total, 0, |fc|, part);
  }

  /** A readable, non-empty file of the list has its part among the file parts. */
  lemma FilePartListed(fs: FileHandler.FileSystem, files: seq<string>, p: string, c: string)
    requires p in files && FileHandler.ReadFileContents(fs, p) == Some(c) && c != ""
    ensures FileHandler.FilePart(p, c) in FileHandler.FileParts(fs, files)
  {
    var i :| 0 <= i < |files| && files[i] == p;
    assert files == files[..i] + [p] + files[i + 1..];
    FileHandler.FilePartsConcat(fs, files[..i] + [p], files[i + 1..]);
    FileHandler.FilePartsConcat(fs, files[..i], [p]);
    assert [p][..0] == [];
    assert FileHandler.FileParts(fs, [p]) == [FileHandler.FilePart(p, c)];
  }

  /** Any part of a join is contained in it. */
  lemma {:induction false} JoinContains(sep: string, parts: seq<string>, k: nat)
    requires k < |parts|
    ensures Contains(Join(sep, parts), parts[k])
    decreases |parts|
  {
    var s := Join(sep, parts);
    if |parts| == 1 {
      assert OccursAt(s, parts[0], 0);
    } else if k == 0 {
      assert s[0..|parts[0]|] == parts[0];
      assert OccursAt(s, parts[0], 0);
    } else {
      JoinContains(sep, parts[1..], k - 1);
      var t := Join(sep, parts[1..]);
      assert s == parts[0] + sep + t;
      assert s[|parts[0] + sep|..|s|] == t;
      ContainsInfix(s, |parts[0] + sep|, |s|, parts[k]);
    }
  }

  /** When files were found but none could be read, the context is still set, to a
      single newline: the "no context found" branch is never taken once a valid path
      exists. */
  lemma UnreadableFilesStillSetContext(fs: FileHandler.FileSystem, files: seq<string>)
    requires files != []
    requires forall p | p in files :: FileHandler.ReadFileContents(fs, p).None? || FileHandler.ReadFileContents(fs, p).value == ""
    ensures TotalContext(fs, files, []) == "\n"
  {
    FileHandler.FileContextEmpty(fs, files);
  }

  /** The context after `_process_context` on `paths`, given the one set before: untouched
      when no path is a valid file or directory, otherwise the assembled text. */
  function ProcessedContext(fs: FileHandler.FileSystem, paths: seq<string>, current: string): string {
    var v := FileHandler.Validated(fs, paths);
    if v.files == [] && v.dirs == [] then current else TotalContext(fs, v.files, v.dirs)
  }

  /** The context is replaced, and by non-empty text, exactly when some path is a text
      file or a directory. */
  lemma ProcessedContextCases(fs: FileHandler.FileSystem, paths: seq<string>, current: string)
    ensures (forall p | p in paths :: !FileHandler.IsValidFile(fs, p) && !FileHandler.IsValidDir(fs, p)) ==>
      ProcessedContext(fs, paths, current) == current
    ensures (exists p | p in paths :: FileHandler.IsValidFile(fs, p) || FileHandler.IsValidDir(fs, p)) ==>
      var v := FileHandler.Validated(fs, paths);
      ProcessedContext(fs, paths, current) == TotalContext(fs, v.files, v.dirs) != ""
  {
    FileHandler.ValidatedMembers(fs, paths);
    var v := FileHandler.Validated(fs, paths);
    if v.files != [] {
      assert v.files[0] in v.files;
    } else if v.dirs != [] {
      assert v.dirs[0] in v.dirs;
    }
  }

  /** The context after `_setup_context`: the current directory `.` when no path is given;
      a given path that does not exist leaves the context as it was. */
  function ContextAfterSetup(fs: FileHandler.FileSystem, contextPath: Option<string>, current: string): string {
    match contextPath
    case None => ProcessedContext(fs, ["."], current)
    case Some(p) => if fs(p).None? then current else ProcessedContext(fs, [p], current)
  }

  /** A readable text file given as the context path becomes the whole context: its
      header, its text and the trailing newline. */
  lemma SpecificTextFileContext(fs: FileHandler.FileSystem, p: string, c: string, current: string)
    requires FileHandler.IsValidFile(fs, p) && FileHandler.ReadFileContents(fs, p) == Some(c) && c != ""
    ensures ContextAfterSetup(fs, Some(p), current) == FileHandler.FilePart(p, c) + "\n"
  {
    ValidatedSingleFile(fs, p);
    SingleFileContext(fs, p, c);
  }

  lemma ValidatedSingleFile(fs: FileHandler.FileSystem, p: string)
    requires FileHandler.IsValidFile(fs, p)
    ensures FileHandler.Validated(fs, [p]) == FileHandler.ValidPaths([p], [])
  {
    assert [p][..0] == [];
    assert FileHandler.Validated(fs, []) == FileHandler.ValidPaths([], []);
  }

  lemma SingleFileContext(fs: FileHandler.FileSystem, p: string, c: string)
    requires FileHandler.ReadFileContents(fs, p) == Some(c) && c != ""
    ensures TotalContext(fs, [p], []) == FileHandler.FilePart(p, c) + "\n"
  {
    assert [p][..0] == [];
    assert FileHandler.FileParts(fs, []) == [];
    assert FileHandler.FileParts(fs, [p]) == [FileHandler.FilePart(p, c)];
  }

  /** A missing context path, or one that is neither a text file nor a directory, leaves
      the context as it was. */
  lemma UnusablePathKeepsContext(fs: FileHandler.FileSystem, p: string, current: string)
    requires !FileHandler.IsValidFile(fs, p) && !FileHandler.IsValidDir(fs, p)
    ensures ContextAfterSetup(fs, Some(p), current) == current
  {
    ProcessedContextCases(fs, [p], current);
  }

  // ------------------------------------------------------------ suggested commands

  /** How answering the confirmations for a list of suggested commands ends: the commands
      run, whether an interrupt ended the round, and the answers left. */
  datatype Handling = Handling(ran: seq<string>, interrupted: bool, answers: seq<Answer<Option<bool>>>)

  /** The loop of `_handle_shell_commands`: each command is offered with `Confirm.ask`
      defaulting to no, run on yes, skipped on no; Ctrl-C at the question or while the
      command runs ends the round. `n` is the number of commands the shell ran before. */
  function HandleCommands(cmds: seq<string>, answers: seq<Answer<Option<bool>>>,
                          outcomeOf: (nat, string) -> CommandExecutor.ProcessOutcome, n: nat): (h: Handling)
    ensures |h.ran| <= |cmds|
    decreases |cmds|
  {
    if |cmds| == 0 then Handling([], false, answers)
    else match ConfirmResult(answers, false)
      case Interrupted => Handling([], true, Rest(answers))
      case Given(yes) =>
        if !yes then HandleCommands(cmds[1..], Rest(answers), outcomeOf, n)
        else if CommandExecutor.CapturedReturnCode(outcomeOf(n, cmds[0])).None? then Handling([cmds[0]], true, Rest(answers))
        else
          var h := HandleCommands(cmds[1..], Rest(answers), outcomeOf, n + 1);
          h.(ran := [cmds[0]] + h.ran)
  }

  /** `a` is `b` with some elements left out, the rest in their order. */
  predicate Subsequence(a: seq<string>, b: seq<string>)
    decreases |b|
  {
    if |a| == 0 then true
    else if |b| == 0 then false
    else if a[0] == b[0] then Subsequence(a[1..], b[1..])
    else Subsequence(a, b[1..])
  }

  lemma {:induction false} SubsequenceMembers(a: seq<string>, b: seq<string>)
    requires Subsequence(a, b)
    ensures forall x | x in a :: x in b
    decreases |b|
  {
    if |a| > 0 && |b| > 0 {
      if a[0] == b[0] {
        SubsequenceMembers(a[1..], b[1..]);
        forall x | x in a ensures x in b {
          if x != a[0] {
            assert x in a[1..];
          }
        }
      } else {
        SubsequenceMembers(a, b[1..]);
      }
    }
  }

  /** Only suggested commands run, each at most once and in the order suggested. */
  lemma {:induction false} HandleRunsSubsequence(cmds: seq<string>, answers: seq<Answer<Option<bool>>>,
                                                 outcomeOf: (nat, string) -> CommandExecutor.ProcessOutcome, n: nat)
    ensures Subsequence(HandleCommands(cmds, answers, outcomeOf, n).ran, cmds)
    decreases |cmds|
  {
    if |cmds| > 0 {
      match ConfirmResult(answers, false)
      case Interrupted =>
      case Given(yes) =>
        if !yes {
          HandleRunsSubsequence(cmds[1..], Rest(answers), outcomeOf, n);
          SkipFirst(HandleCommands(cmds[1..], Rest(answers), outcomeOf, n).ran, cmds);
        } else if CommandExecutor.CapturedReturnCode(outcomeOf(n, cmds[0])).None? {
        } else {
          HandleRunsSubsequence(cmds[1..], Rest(answers), outcomeOf, n + 1);
          var h := HandleCommands(cmds[1..], Rest(answers), outcomeOf, n + 1);
          assert ([cmds[0]] + h.ran)[1..] == h.ran;
        }
    }
  }

  /** A subsequence of the tail is a subsequence of the whole. */
  lemma {:induction false} SkipFirst(a: seq<string>, b: seq<string>)
    requires |b| > 0 && Subsequence(a, b[1..])
    ensures Subsequence(a, b)
    decreases |b|, 0
  {
    if |a| > 0 && a[0] == b[0] {
      SubsequenceDrop(a, b[1..]);
    }
  }

  /** Dropping the first element keeps a subsequence a subsequence. */
  lemma {:induction false} SubsequenceDrop(a: seq<string>, b: seq<string>)
    requires |a| > 0 && Subsequence(a, b)
    ensures Subsequence(a[1..], b)
    decreases |b|, 1
  {
    if a[0] == b[0] {
      SkipFirst(a[1..], b);
    } else {
      SubsequenceDrop(a, b[1..]);
      SkipFirst(a[1..], b);
    }
  }

  /** A question answered with anything but an explicit yes (a bare Enter included, the
      default being no) never runs its command: when no answer is a yes, nothing runs. */
  lemma {:induction false} HandleAllDeclined(cmds: seq<string>, answers: seq<Answer<Option<bool>>>,
                                             outcomeOf: (nat, string) -> CommandExecutor.ProcessOutcome, n: nat)
    requires forall k | 0 <= k < |answers| :: answers[k] != Given(Some(true))
    ensures HandleCommands(cmds, answers, outcomeOf, n).ran == []
    decreases |cmds|
  {
    if |cmds| > 0 && |answers| > 0 && answers[0].Given? {
      HandleAllDeclined(cmds[1..], answers[1..], outcomeOf, n);
    }
  }

  /** When every question is answered yes and no command is interrupted, all suggested
      commands run, in order, and one answer is used per command. */
  lemma {:induction false} HandleAllAccepted(cmds: seq<string>, answers: seq<Answer<Option<bool>>>,
                                             outcomeOf: (nat, string) -> CommandExecutor.ProcessOutcome, n: nat)
    requires |answers| >= |cmds|
    requires forall k | 0 <= k < |cmds| :: answers[k] == Given(Some(true))
    requires forall k | 0 <= k < |cmds| :: CommandExecutor.CapturedReturnCode(outcomeOf(n + k, cmds[k])).Some?
    ensures HandleCommands(cmds, answers, outcomeOf, n) == Handling(cmds, false, answers[|cmds|..])
    decreases |cmds|
  {
    if |cmds| > 0 {
      assert answers[0] == Given(Some(true));
      assert CommandExecutor.CapturedReturnCode(outcomeOf(n + 0, cmds[0])).Some?;
      forall k | 0 <= k < |cmds| - 1
        ensures CommandExecutor.CapturedReturnCode(outcomeOf(n + 1 + k, cmds[1..][k])).Some?
      {
        assert cmds[1..][k] == cmds[k + 1];
      }
      HandleAllAccepted(cmds[1..], answers[1..], outcomeOf, n + 1);
      assert [cmds[0]] + cmds[1..] == cmds;
      assert answers[1..][|cmds| - 1..] == answers[|cmds|..];
    }
  }

  /** A question answered no moves on to the next command. */
  lemma HandleDeclinedStep(cmds: seq<string>, answers: seq<Answer<Option<bool>>>,
                           outcomeOf: (nat, string) -> CommandExecutor.ProcessOutcome, n: nat)
    requires |cmds| > 0 && ConfirmResult(answers, false) == Given(false)
    ensures HandleCommands(cmds, answers, outcomeOf, n) == HandleCommands(cmds[1..], Rest(answers), outcomeOf, n)
  {
  }

  /** A command run to its end is followed by the next one. */
  lemma HandleRanStep(cmds: seq<string>, answers: seq<Answer<Option<bool>>>,
                      outcomeOf: (nat, string) -> CommandExecutor.ProcessOutcome, n: nat)
    requires |cmds| > 0 && ConfirmResult(answers, false) == Given(true)
    requires CommandExecutor.CapturedReturnCode(outcomeOf(n, cmds[0])).Some?
    ensures HandleCommands(cmds, answers, outcomeOf, n) == After([cmds[0]], HandleCommands(cmds[1..], Rest(answers), outcomeOf, n + 1))
  {
  }

  /** `h` with `ran` in front of the commands it ran. */
  function After(ran: seq<string>, h: Handling): Handling {
    h.(ran := ran + h.ran)
  }

  // ------------------------------------------------------------ the chat loop, as a specification

  /** The lines the chat loop forwards to Grok, read until an exit word or the end of
      input, skipping blank lines: what is sent when no request and no command is cut
      short by Ctrl-C. `Prompt.ask` hands each typed line over stripped. */
  function Inputs(lines: seq<Answer<string>>): seq<string>
    decreases |lines|
  {
    if |lines| == 0 then []
    else match lines[0]
      case Interrupted => []
      case Given(s) =>
        var input := Strip(s);
        if ShouldExit(input) then []
        else if Strip(input) == "" then Inputs(lines[1..])
        else [input] + Inputs(lines[1..])
  }

  /** Every forwarded line is sendable, carries no padding, and is a typed line stripped. */
  lemma {:induction false} InputsSound(lines: seq<Answer<string>>)
    ensures forall k | 0 <= k < |Inputs(lines)| ::
      && Sendable(Inputs(lines)[k]) && IsStripped(Inputs(lines)[k])
      && exists j | 0 <= j < |lines| :: lines[j].Given? && Strip(lines[j].value) == Inputs(lines)[k]
    decreases |lines|
  {
    if |lines| > 0 && lines[0].Given? && !ShouldExit(Strip(lines[0].value)) {
      InputsSound(lines[1..]);
      var rest := Inputs(lines[1..]);
      forall k | 0 <= k < |rest|
        ensures exists j | 0 <= j < |lines| :: lines[j].Given? && Strip(lines[j].value) == rest[k]
      {
        var j :| 0 <= j < |lines[1..]| && lines[1..][j].Given? && Strip(lines[1..][j].value) == rest[k];
        assert lines[j + 1] == lines[1..][j];
      }
    }
  }

  /** Nothing typed after an exit word is sent, whatever padding surrounds the word. */
  lemma {:induction false} InputsStopAtExit(before: seq<Answer<string>>, word: string, after: seq<Answer<string>>)
    requires ShouldExit(word)
    ensures Inputs(before + [Given(word)] + after) == Inputs(before)
    decreases |before|
  {
    var lines := before + [Given(word)] + after;
    if |before| == 0 {
      assert lines[0] == Given(word);
      ShouldExitIgnoresPadding(word);
    } else {
      assert lines[0] == before[0];
      assert lines[1..] == before[1..] + [Given(word)] + after;
      InputsStopAtExit(before[1..], word, after);
    }
  }

  /** The contents of the user's messages, in order. */
  function UserTurns(ms: seq<ApiClient.Message>): (turns: seq<string>)
    ensures |turns| <= |ms|
    decreases |ms|
  {
    if |ms| == 0 then []
    else UserTurns(ms[..|ms| - 1]) + (if ms[|ms| - 1].role == "user" then [ms[|ms| - 1].content] else [])
  }

  /** Appending a user message, possibly followed by a reply, adds one user turn. */
  lemma UserTurnsStep(ms: seq<ApiClient.Message>, tail: seq<ApiClient.Message>, input: string)
    requires |tail| == 1 || (|tail| == 2 && tail[1].role == "assistant")
    requires tail[0] == ApiClient.Message("user", input)
    ensures UserTurns(ms + tail) == UserTurns(ms) + [input]
  {
    var u := ms + [tail[0]];
    assert u[..|u| - 1] == ms;
    if |tail| == 2 {
      assert (ms + tail)[..|ms + tail| - 1] == u;
    } else {
      assert ms + tail == u;
    }
  }

  /** The commands Grok's replies among `ms` suggest, reply by reply, where `extract`
      reads the commands out of one reply (`CommandParser.Extracted` in the agent; the
      facts about the session hold whatever it is). */
  function SuggestedCommands(ms: seq<ApiClient.Message>, extract: string -> seq<string>): seq<string>
    decreases |ms|
  {
    if |ms| == 0 then []
    else
      var last := ms[|ms| - 1];
      SuggestedCommands(ms[..|ms| - 1], extract) + (if last.role == "assistant" then extract(last.content) else [])
  }

  /** The suggestions of a history are those of its parts. */
  lemma {:induction false} SuggestedCommandsConcat(a: seq<ApiClient.Message>, b: seq<ApiClient.Message>, extract: string -> seq<string>)
    ensures SuggestedCommands(a + b, extract) == SuggestedCommands(a, extract) + SuggestedCommands(b, extract)
    decreases |b|
  {
    if |b| == 0 {
      assert a + b == a;
    } else {
      assert (a + b)[..|a + b| - 1] == a + b[..|b| - 1];
      SuggestedCommandsConcat(a, b[..|b| - 1], extract);
    }
  }

  /** A user message and its reply suggest the commands of the reply. */
  lemma ReplySuggests(u: ApiClient.Message, reply: string, extract: string -> seq<string>)
    requires u.role == "user"
    ensures SuggestedCommands([u, ApiClient.Message("assistant", reply)], extract) == extract(reply)
  {
    var ms := [u, ApiClient.Message("assistant", reply)];
    assert ms[..1] == [u];
    assert [u][..0] == [];
    assert SuggestedCommands([u], extract) == [];
  }

  /** Subsequences of two parts make a subsequence of the joined parts. */
  lemma {:induction false} SubsequenceConcat(a1: seq<string>, b1: seq<string>, a2: seq<string>, b2: seq<string>)
    requires Subsequence(a1, b1) && Subsequence(a2, b2)
    ensures Subsequence(a1 + a2, b1 + b2)
    decreases |b1|
  {
    if |a1| == 0 {
      assert a1 + a2 == a2;
      SubsequencePrepend(a2, b1, b2);
    } else {
      assert (b1 + b2)[1..] == b1[1..] + b2;
      if a1[0] == b1[0] {
        SubsequenceConcat(a1[1..], b1[1..], a2, b2);
        assert (a1 + a2)[1..] == a1[1..] + a2;
      } else {
        SubsequenceConcat(a1, b1[1..], a2, b2);
      }
    }
  }

  /** Elements in front keep a subsequence a subsequence. */
  lemma {:induction false} SubsequencePrepend(a: seq<string>, pre: seq<string>, b: seq<string>)
    requires Subsequence(a, b)
    ensures Subsequence(a, pre + b)
    decreases |pre|
  {
    if |pre| > 0 {
      SubsequencePrepend(a, pre[1..], b);
      assert (pre + b)[1..] == pre[1..] + b;
      SkipFirst(a, pre + b);
    } else {
      assert pre + b == b;
    }
  }

  // ------------------------------------------------------------ the agent

  class GrokAgent {
    const apiClient: ApiClient.GrokApiClient
    var isRunning: bool

    /** `GrokAgent.__init__`. */
    constructor(apiClient: ApiClient.GrokApiClient)
      ensures this.apiClient == apiClient && !isRunning
    {
      this.apiClient := apiClient;
      isRunning := false;
    }

    /** `_build_and_set_context`: the assembled text becomes the client's context when it
        is non-empty; the history is untouched. */
    method BuildAndSetContext(fs: FileHandler.FileSystem, validFiles: seq<string>, validDirs: seq<string>)
      modifies apiClient.conversation
      ensures var total := TotalContext(fs, validFiles, validDirs);
        apiClient.conversation.context == (if total != "" then total else old(apiClient.conversation.context))
      ensures apiClient.conversation.messages == old(apiClient.conversation.messages)
    {
      var totalContext := "";
      if validFiles != [] {
        var fileContext := FileHandler.GetFileContext(fs, validFiles);
        totalContext := totalContext + fileContext + "\n";
      }
      ghost var afterFiles := totalContext;
      if validDirs != [] {
        var directoryContext := FileHandler.GetDirectoryContext(fs, validDirs);
        totalContext := totalContext + directoryContext + "\n";
      }
      ContextAccumulated(fs, validFiles, validDirs, afterFiles, totalContext);
      if totalContext != "" {
        apiClient.SetContext(totalContext);
      }
    }

    /** `_process_context`: the paths are validated and, unless none survives, the
        context is built from the survivors. */
    method ProcessContext(fs: FileHandler.FileSystem, contextPaths: seq<string>)
      modifies apiClient.conversation
      ensures apiClient.conversation.context == ProcessedContext(fs, contextPaths, old(apiClient.conversation.context))
      ensures apiClient.conversation.messages == old(apiClient.conversation.messages)
    {
      var validFiles, validDirs := FileHandler.ValidatePaths(fs, contextPaths);
      if validFiles == [] && validDirs == [] {
        return;
      }
      BuildAndSetContext(fs, validFiles, validDirs);
    }

    /** `_setup_context`, with `_setup_specific_context` and
        `_setup_current_directory_context`. */
    method SetupContext(fs: FileHandler.FileSystem, contextPath: Option<string>)
      modifies apiClient.conversation
      ensures apiClient.conversation.context == ContextAfterSetup(fs, contextPath, old(apiClient.conversation.context))
      ensures apiClient.conversation.messages == old(apiClient.conversation.messages)
    {
      if contextPath.Some? {
        if fs(contextPath.value).None? {
          return;
        }
        ProcessContext(fs, [contextPath.value]);
      } else {
        ProcessContext(fs, ["."]);
      }
    }

    /** `_handle_shell_commands`: the commands extracted from the reply are offered one by
        one; the result tells whether Ctrl-C cut the round short. */
    method HandleShellCommands(response: string, console: Console, shell: CommandExecutor.Shell) returns (interrupted: bool)
      modifies console, shell
      ensures var h := HandleCommands(CommandParser.Extracted(response), old(console.answers), shell.outcomeOf, |old(shell.executed)|);
        && shell.executed == old(shell.executed) + h.ran
        && console.answers == h.answers
        && interrupted == h.interrupted
      ensures console.lines == old(console.lines)
    {
      var commands := CommandParser.ExtractShellCommands(response);
      interrupted := OfferCommands(commands, console, shell);
    }

    /** The loop of `_handle_shell_commands` over the extracted commands. */
    method OfferCommands(commands: seq<string>, console: Console, shell: CommandExecutor.Shell) returns (interrupted: bool)
      modifies console, shell
      ensures var h := HandleCommands(commands, old(console.answers), shell.outcomeOf, |old(shell.executed)|);
        && shell.executed == old(shell.executed) + h.ran
        && console.answers == h.answers
        && interrupted == h.interrupted
      ensures console.lines == old(console.lines)
    {
      ghost var e0 := shell.executed;
      ghost var whole := HandleCommands(commands, console.answers, shell.outcomeOf, |e0|);
      var rest := commands;
      while rest != []
        invariant console.lines == old(console.lines)
        invariant |e0| <= |shell.executed| && shell.executed[..|e0|] == e0
        invariant whole == After(shell.executed[|e0|..], HandleCommands(rest, console.answers, shell.outcomeOf, |shell.executed|))
        decreases |rest|
      {
        ghost var before := shell.executed;
        ghost var h1 := HandleCommands(rest, console.answers, shell.outcomeOf, |before|);
        var stop := OfferCommand(rest, console, shell);
        ghost var executed := shell.executed;
        if stop {
          ComposeStop(whole, e0, before, executed, h1, console.answers);
          return true;
        }
        ComposeStep(whole, e0, before, executed, h1, HandleCommands(rest[1..], console.answers, shell.outcomeOf, |executed|));
        rest := rest[1..];
      }
      ComposeEnd(whole, e0, shell.executed, console.answers, shell.outcomeOf);
      return false;
    }

    /** One turn of the loop of `_handle_shell_commands`: the first of the remaining
        commands is offered, and run on yes. Either the round stops here, or it goes on
        with the next command. */
    method OfferCommand(commands: seq<string>, console: Console, shell: CommandExecutor.Shell) returns (stop: bool)
      requires commands != []
      modifies console, shell
      ensures console.lines == old(console.lines)
      ensures |old(shell.executed)| <= |shell.executed| && shell.executed[..|old(shell.executed)|] == old(shell.executed)
      ensures var h := HandleCommands(commands, old(console.answers), shell.outcomeOf, |old(shell.executed)|);
        var now := shell.executed[|old(shell.executed)|..];
        if stop then h == Handling(now, true, console.answers)
        else h == After(now, HandleCommands(commands[1..], console.answers, shell.outcomeOf, |shell.executed|))
    {
      ghost var a := console.answers;
      ghost var n := |shell.executed|;
      var yes := console.Confirm(false);
      if yes.Interrupted? {
        return true;
      }
      if yes.value {
        var code := shell.RunShellCommand(commands[0]);
        if code.None? {
          return true;
        }
        HandleRanStep(commands, a, shell.outcomeOf, n);
      } else {
        HandleDeclinedStep(commands, a, shell.outcomeOf, n);
      }
      return false;
    }

    /** `_process_user_input`: the message is sent; a non-empty reply has its commands
        offered. The history gains the user's message and, when Grok answered, the reply;
        every command run comes from that reply. */
    method ProcessUserInput(userInput: string, console: Console, shell: CommandExecutor.Shell) returns (interrupted: bool)
      modifies apiClient.conversation, console, shell
      ensures var m0 := old(apiClient.conversation.messages);
        var ms := apiClient.conversation.messages;
        && (|ms| == |m0| + 1 || (|ms| == |m0| + 2 && ms[|m0| + 1].role == "assistant"))
        && ms[..|m0| + 1] == m0 + [ApiClient.Message("user", userInput)]
      ensures var m0 := old(apiClient.conversation.messages);
        var ms := apiClient.conversation.messages;
        var request := ApiClient.ChatRequest(apiClient.baseUrl, apiClient.model, m0 + [ApiClient.Message("user", userInput)],
                                             old(apiClient.conversation.context));
        |ms| == |m0| + 1 ==>
          shell.executed == old(shell.executed) && console.answers == old(console.answers)
          && (interrupted <==> apiClient.server(request).Interrupted?)
      ensures var m0 := old(apiClient.conversation.messages);
        var ms := apiClient.conversation.messages;
        |ms| == |m0| + 2 ==>
          var reply := ms[|m0| + 1].content;
          var h := HandleCommands(CommandParser.Extracted(reply), old(console.answers), shell.outcomeOf, |old(shell.executed)|);
          if reply == "" then shell.executed == old(shell.executed) && console.answers == old(console.answers) && !interrupted
          else shell.executed == old(shell.executed) + h.ran && console.answers == h.answers && interrupted == h.interrupted
      ensures LogSuggested(old(shell.executed), shell.executed, apiClient.conversation.messages[|old(apiClient.conversation.messages)|..], CommandParser.Extracted)
      ensures apiClient.conversation.context == old(apiClient.conversation.context)
      ensures console.lines == old(console.lines)
    {
      ghost var m0 := apiClient.conversation.messages;
      ghost var e0 := shell.executed;
      var response, cut := apiClient.SendMessage(userInput);
      if cut {
        return true;
      }
      interrupted := false;
      if response.Some? && response.value != "" {
        interrupted := HandleShellCommands(response.value, console, shell);
        ghost var ms := apiClient.conversation.messages;
        ghost var h := HandleCommands(CommandParser.Extracted(response.value), old(console.answers), shell.outcomeOf, |e0|);
        HandleRunsSubsequence(CommandParser.Extracted(response.value), old(console.answers), shell.outcomeOf, |e0|);
        assert ms[|m0|..] == [ApiClient.Message("user", userInput), ApiClient.Message("assistant", response.value)];
        ReplySuggests(ApiClient.Message("user", userInput), response.value, CommandParser.Extracted);
        assert shell.executed[|e0|..] == h.ran;
      } else {
        assert shell.executed[|e0|..] == [];
      }
      assert shell.executed[..|e0|] == e0;
    }

    /** `_run_interactive_loop` with `_end_session`: lines are read until an exit word, the
        end of input or Ctrl-C; blank lines are skipped, the others sent. The messages sent
        are the lines `Inputs` selects, all of them unless a request or a command was cut
        short (`cutShort`); every command run was suggested by a reply of this session. */
    method RunInteractiveLoop(console: Console, shell: CommandExecutor.Shell) returns (ghost cutShort: bool)
      modifies this, apiClient.conversation, console, shell
      ensures !isRunning
      ensures SessionEnded(old(apiClient.conversation.messages), old(shell.executed), old(console.lines),
                           apiClient.conversation.messages, shell.executed, cutShort, CommandParser.Extracted)
      ensures apiClient.conversation.context == old(apiClient.conversation.context)
    {
      ghost var m0 := apiClient.conversation.messages;
      ghost var e0 := shell.executed;
      ghost var lines0 := console.lines;
      cutShort := false;
      isRunning := true;
      assert m0[|m0|..] == [] && e0[|e0|..] == [];
      while isRunning
        invariant isRunning
        invariant SessionSoFar(m0, e0, lines0, apiClient.conversation.messages, shell.executed, console.lines, CommandParser.Extracted)
        invariant apiClient.conversation.context == old(apiClient.conversation.context)
        decreases |console.lines|
      {
        ghost var before := apiClient.conversation.messages;
        ghost var executedBefore := shell.executed;
        ghost var lines := console.lines;
        var stop;
        ghost var cut;
        stop, cut := ChatTurn(console, shell);
        SessionAdvance(m0, e0, lines0, before, executedBefore, lines,
                       apiClient.conversation.messages, shell.executed, console.lines, stop, cut, CommandParser.Extracted);
        if stop {
          cutShort := cut;
          break;
        }
      }
      isRunning := false;
    }

    /** One turn of `_run_interactive_loop`: a line is read; end of input, Ctrl-C or an
        exit word stops the loop, a blank line is skipped, any other line is sent. The
        user turns added are what `Inputs` selects from the lines read, all of them
        unless the turn was cut short. */
    method ChatTurn(console: Console, shell: CommandExecutor.Shell) returns (stop: bool, ghost cut: bool)
      modifies apiClient.conversation, console, shell
      ensures var m0 := old(apiClient.conversation.messages);
        |m0| <= |apiClient.conversation.messages| && apiClient.conversation.messages[..|m0|] == m0
      ensures LogSuggested(old(shell.executed), shell.executed, apiClient.conversation.messages[|old(apiClient.conversation.messages)|..], CommandParser.Extracted)
      ensures apiClient.conversation.context == old(apiClient.conversation.context)
      ensures !stop ==> |console.lines| < |old(console.lines)|
      ensures var turns := UserTurns(apiClient.conversation.messages[|old(apiClient.conversation.messages)|..]);
        && (!stop ==> turns + Inputs(console.lines) == Inputs(old(console.lines)))
        && (stop && !cut ==> turns == Inputs(old(console.lines)))
        && (cut ==> stop && turns <= Inputs(old(console.lines)))
    {
      ghost var m0 := apiClient.conversation.messages;
      ghost var lines := console.lines;
      assert m0[|m0|..] == [];
      var answer := console.Ask("");
      if answer.Interrupted? {
        return true, false;
      }
      var userInput := answer.value;
      assert lines[0].Given? && userInput == Strip(lines[0].value);
      if ShouldExit(userInput) {
        return true, false;
      }
      if Strip(userInput) == "" {
        return false, false;
      }
      var interrupted := ProcessUserInput(userInput, console, shell);
      SentTurn(m0, apiClient.conversation.messages, userInput);
      return interrupted, interrupted;
    }

    /** `start_session`: the context is set up, then the chat loop runs. */
    method StartSession(fs: FileHandler.FileSystem, contextPath: Option<string>, console: Console, shell: CommandExecutor.Shell)
      returns (ghost cutShort: bool)
      modifies this, apiClient.conversation, console, shell
      ensures !isRunning
      ensures apiClient.conversation.context == ContextAfterSetup(fs, contextPath, old(apiClient.conversation.context))
      ensures SessionEnded(old(apiClient.conversation.messages), old(shell.executed), old(console.lines),
                           apiClient.conversation.messages, shell.executed, cutShort, CommandParser.Extracted)
    {
      SetupContext(fs, contextPath);
      cutShort := RunInteractiveLoop(console, shell);
    }
  }

  /** A forwarded line adds exactly one user turn, that line. */
  lemma SentTurn(m0: seq<ApiClient.Message>, after: seq<ApiClient.Message>, input: string)
    requires |after| == |m0| + 1 || (|after| == |m0| + 2 && after[|m0| + 1].role == "assistant")
    requires after[..|m0| + 1] == m0 + [ApiClient.Message("user", input)]
    ensures after[..|m0|] == m0
    ensures UserTurns(after[|m0|..]) == [input]
  {
    var tail := after[|m0|..];
    assert after[..|m0|] == after[..|m0| + 1][..|m0|];
    assert tail[0] == (m0 + [ApiClient.Message("user", input)])[|m0|];
    UserTurnsStep([], tail, input);
    assert [] + tail == tail;
    assert UserTurns([]) == [];
  }

  /** The log of commands run grows from `e0`, and the commands added are suggestions
      among `ms`, in the order suggested, each suggestion run at most once. */
  predicate LogSuggested(e0: seq<string>, executed: seq<string>, ms: seq<ApiClient.Message>, extract: string -> seq<string>) {
    && |e0| <= |executed| && executed[..|e0|] == e0
    && Subsequence(executed[|e0|..], SuggestedCommands(ms, extract))
  }

  /** The user turns of a history are those of its parts. */
  lemma {:induction false} UserTurnsConcat(a: seq<ApiClient.Message>, b: seq<ApiClient.Message>)
    ensures UserTurns(a + b) == UserTurns(a) + UserTurns(b)
    decreases |b|
  {
    if |b| == 0 {
      assert a + b == a;
    } else {
      assert (a + b)[..|a + b| - 1] == a + b[..|b| - 1];
      UserTurnsConcat(a, b[..|b| - 1]);
    }
  }

  /** One turn of the chat loop composes with the session so far: the history and the
      log keep growing, and the user turns of the session are those before the turn
      followed by those of the turn. */
  lemma SessionStep(m0: seq<ApiClient.Message>, before: seq<ApiClient.Message>, after: seq<ApiClient.Message>,
                    e0: seq<string>, executedBefore: seq<string>, executed: seq<string>, extract: string -> seq<string>)
    requires |m0| <= |before| && before[..|m0|] == m0
    requires |before| <= |after| && after[..|before|] == before
    requires LogSuggested(e0, executedBefore, before[|m0|..], extract)
    requires LogSuggested(executedBefore, executed, after[|before|..], extract)
    ensures |m0| <= |after| && after[..|m0|] == m0
    ensures LogSuggested(e0, executed, after[|m0|..], extract)
    ensures UserTurns(after[|m0|..]) == UserTurns(before[|m0|..]) + UserTurns(after[|before|..])
  {
    HistoryStep(m0, before, after);
    UserTurnsConcat(before[|m0|..], after[|before|..]);
    SuggestedCommandsConcat(before[|m0|..], after[|before|..], extract);
    LogStep(e0, executedBefore, executed);
    SubsequenceConcat(executedBefore[|e0|..], SuggestedCommands(before[|m0|..], extract),
                      executed[|executedBefore|..], SuggestedCommands(after[|before|..], extract));
  }

  lemma HistoryStep(m0: seq<ApiClient.Message>, before: seq<ApiClient.Message>, after: seq<ApiClient.Message>)
    requires |m0| <= |before| && before[..|m0|] == m0
    requires |before| <= |after| && after[..|before|] == before
    ensures after[..|m0|] == m0
    ensures after[|m0|..] == before[|m0|..] + after[|before|..]
  {
    assert after[..|m0|] == after[..|before|][..|m0|];
  }

  /** The chat loop so far, from history `m0`, log `e0` and lines `lines0`: the history
      and the log only grew, every command run was suggested in this session, and the
      lines sent followed by those the remaining lines will send are what `lines0` calls
      for. */
  predicate SessionSoFar(m0: seq<ApiClient.Message>, e0: seq<string>, lines0: seq<Answer<string>>,
                         ms: seq<ApiClient.Message>, executed: seq<string>, lines: seq<Answer<string>>,
                         extract: string -> seq<string>) {
    && |m0| <= |ms| && ms[..|m0|] == m0
    && LogSuggested(e0, executed, ms[|m0|..], extract)
    && UserTurns(ms[|m0|..]) + Inputs(lines) == Inputs(lines0)
  }

  /** The chat loop has ended: the lines sent are a prefix of what `lines0` calls for, all
      of it unless the session was cut short. */
  predicate SessionEnded(m0: seq<ApiClient.Message>, e0: seq<string>, lines0: seq<Answer<string>>,
                         ms: seq<ApiClient.Message>, executed: seq<string>, cut: bool,
                         extract: string -> seq<string>) {
    && |m0| <= |ms| && ms[..|m0|] == m0
    && LogSuggested(e0, executed, ms[|m0|..], extract)
    && UserTurns(ms[|m0|..]) <= Inputs(lines0)
    && (!cut ==> UserTurns(ms[|m0|..]) == Inputs(lines0))
  }

  /** One turn of the chat loop either keeps the session going or ends it. */
  lemma SessionAdvance(m0: seq<ApiClient.Message>, e0: seq<string>, lines0: seq<Answer<string>>,
                       before: seq<ApiClient.Message>, executedBefore: seq<string>, linesBefore: seq<Answer<string>>,
                       after: seq<ApiClient.Message>, executed: seq<string>, lines: seq<Answer<string>>,
                       stop: bool, cut: bool, extract: string -> seq<string>)
    requires SessionSoFar(m0, e0, lines0, before, executedBefore, linesBefore, extract)
    requires |before| <= |after| && after[..|before|] == before
    requires LogSuggested(executedBefore, executed, after[|before|..], extract)
    requires var turns := UserTurns(after[|before|..]);
      && (!stop ==> turns + Inputs(lines) == Inputs(linesBefore))
      && (stop && !cut ==> turns == Inputs(linesBefore))
      && (cut ==> stop && turns <= Inputs(linesBefore))
    ensures !stop ==> SessionSoFar(m0, e0, lines0, after, executed, lines, extract)
    ensures stop ==> SessionEnded(m0, e0, lines0, after, executed, cut, extract)
  {
    SessionStep(m0, before, after, e0, executedBefore, executed, extract);
    TurnsAdvance(UserTurns(before[|m0|..]), UserTurns(after[|before|..]), Inputs(lines), Inputs(linesBefore), Inputs(lines0), stop, cut);
  }

  /** The bookkeeping of `SessionAdvance` on the sent lines alone. */
  lemma TurnsAdvance(done: seq<string>, turns: seq<string>, rest: seq<string>, restBefore: seq<string>, total: seq<string>,
                     stop: bool, cut: bool)
    requires done + restBefore == total
    requires !stop ==> turns + rest == restBefore
    requires stop && !cut ==> turns == restBefore
    requires cut ==> stop && turns <= restBefore
    ensures !stop ==> (done + turns) + rest == total
    ensures stop ==> done + turns <= total && (!cut ==> done + turns == total)
  {
    if cut {
      assert turns == restBefore[..|turns|];
      assert done + turns == total[..|done + turns|];
    }
  }

  /** One more command offered and not the last: the accounts of the round compose. */
  lemma ComposeStep(whole: Handling, e0: seq<string>, before: seq<string>, executed: seq<string>, h1: Handling, h2: Handling)
    requires |e0| <= |before| && before[..|e0|] == e0
    requires |before| <= |executed| && executed[..|before|] == before
    requires whole == After(before[|e0|..], h1)
    requires h1 == After(executed[|before|..], h2)
    ensures |e0| <= |executed| && executed[..|e0|] == e0
    ensures whole == After(executed[|e0|..], h2)
  {
    LogStep(e0, before, executed);
  }

  /** The round stopped at this command: the log is the round's list of commands run. */
  lemma ComposeStop(whole: Handling, e0: seq<string>, before: seq<string>, executed: seq<string>, h1: Handling, answers: seq<Answer<Option<bool>>>)
    requires |e0| <= |before| && before[..|e0|] == e0
    requires |before| <= |executed| && executed[..|before|] == before
    requires whole == After(before[|e0|..], h1)
    requires h1 == Handling(executed[|before|..], true, answers)
    ensures executed == e0 + whole.ran && whole.answers == answers && whole.interrupted
  {
    LogStep(e0, before, executed);
    PrefixSplit(executed, e0);
  }

  /** Every command offered: the log is the round's list of commands run. */
  lemma ComposeEnd(whole: Handling, e0: seq<string>, executed: seq<string>, answers: seq<Answer<Option<bool>>>,
                   outcomeOf: (nat, string) -> CommandExecutor.ProcessOutcome)
    requires |e0| <= |executed| && executed[..|e0|] == e0
    requires whole == After(executed[|e0|..], HandleCommands([], answers, outcomeOf, |executed|))
    ensures executed == e0 + whole.ran && whole.answers == answers && !whole.interrupted
  {
    PrefixSplit(executed, e0);
  }

  /** A log that grew from `e0` to `before` and then to `executed` grew from `e0` by
      both additions. */
  lemma LogStep(e0: seq<string>, before: seq<string>, executed: seq<string>)
    requires |e0| <= |before| && before[..|e0|] == e0
    requires |before| <= |executed| && executed[..|before|] == before
    ensures executed[..|e0|] == e0
    ensures executed[|e0|..] == before[|e0|..] + executed[|before|..]
  {
    assert executed[..|e0|] == executed[..|before|][..|e0|];
  }

  /** A sequence that starts with `p` is `p` followed by the rest. */
  lemma PrefixSplit(s: seq<string>, p: seq<string>)
    requires |p| <= |s| && s[..|p|] == p
    ensures s == p + s[|p|..]
  {
  }
}
