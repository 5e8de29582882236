# grok-cli, modelled in Dafny

grok-cli is a terminal chat client for xAI's Grok. This project models its core:

- **The agent session** (`Agent`, `core/agent.py`):
  - the context is set up from a path or the current directory;
  - the chat loop reads lines, stops at `exit`/`quit`, end of input or Ctrl-C, skips blank lines and sends the rest to Grok;
  - each shell command found in a reply is offered for confirmation and run only on an explicit yes.
- **The API client** (`ApiClient`, `api/client.py`): the conversation history and its API payload, the summary, `send_message`'s history updates, and model discovery.
- **The command extractor** (`CommandParser`, `utils/command_parser.py`): the regular expression that finds fenced blocks and `$ ` lines is written as an explicit scanner, proved equal to a declarative description of the pattern. Also `is_shell_command` and `clean_command`.
- **The command executor** (`CommandExecutor`, `utils/command_executor.py`): the safety verdict, the preview, and the exit codes the two runners report for each way a child process can end.
- **The file handler** (`FileHandler`, `utils/file_handler.py`): the text-file and skip-directory tests, `scan_directory` over a tree of entries, the tree formatter, the file and directory context builders, and path validation.
- **The interactive prompts** (`InteractivePrompts`, `utils/interactive_prompts.py`): the file-selection, custom-directory and directory-menu loops.
- **The emoji table** (`Ui`, `utils/ui.py`): `get_file_emoji`.

Outside input enters as parameters:

- **The file system** is a function `FileSystem` from a path to an entry: a file with a size and readable text or none, a directory with entries that can or cannot be listed, or some other object.
- **The user** is a `Terminal.Console` holding the lines still to be typed and the yes/no answers still to be given. `Interrupted` stands for Ctrl-C or end of input.
- **Each shell command's outcome** (exit status, timeout, failure to start, Ctrl-C) is given by `Shell.outcomeOf`.
- **The HTTP server's reply** to each request is given by `GrokApiClient.server`.
- **`is_dangerous_command` and `get_command_description`** are imported from `utils/command_parser.py`, which does not define them, so they are parameters too.

Python's string operations (`strip`, `lower`, `split`, `join`, `int`) are written out in `Strings`. Python's `KeyboardInterrupt` is not an `Exception`, so it escapes `except Exception`. The model keeps that: a Ctrl-C during a request or a command ends the chat loop.

## Model

| member | source | states |
|---|---|---|
| CommandParser.OpeningEnd | src/grok_cli/utils/command_parser.py:7-9 | a fence opens with three backticks followed directly by a newline, `bash` plus newline or `sh` plus newline; the body start found is the only one possible |
| CommandParser.FindClose | src/grok_cli/utils/command_parser.py:8 | the lazy `.*?` stops at the first newline-and-fence at or after the body start; none is found only when none follows |
| CommandParser.LineEnd | src/grok_cli/utils/command_parser.py:8 | `[^\n]+` runs to the first newline after the start, or to the end of the text |
| CommandParser.MatchAt | src/grok_cli/utils/command_parser.py:7-9 | a match found at a position starts there, is non-empty and lies within the text |
| CommandParser.MatchAtSound | src/grok_cli/utils/command_parser.py:7-9 | what the scanner finds at a position is a match of the pattern there |
| CommandParser.BlockComplete | src/grok_cli/utils/command_parser.py:7-9 | a fenced block the pattern matches is exactly the one the scanner finds: the shortest non-empty body before the next newline-and-fence |
| CommandParser.DollarComplete | src/grok_cli/utils/command_parser.py:7-9 | a `$ ` match is found only where no fence opens, and it takes the rest of the line |
| CommandParser.MatchAtIsPattern | src/grok_cli/utils/command_parser.py:7-9 | the scanner returns a match at a position if and only if the pattern describes that match there |
| CommandParser.MatchesFromSound | src/grok_cli/utils/command_parser.py:23 | every match `finditer` yields is the pattern's match at its own start, at or after the search position |
| CommandParser.MatchesFromOrdered | src/grok_cli/utils/command_parser.py:23 | the matches come in order of occurrence and do not overlap |
| CommandParser.MatchesFromFirst | src/grok_cli/utils/command_parser.py:23 | no match starts between the search position and the first match yielded |
| CommandParser.MatchesFromGaps | src/grok_cli/utils/command_parser.py:23 | no match is skipped: none starts between two consecutive matches or after the last |
| CommandParser.KeepCommands | src/grok_cli/utils/command_parser.py:28-32 | every line kept from a block is stripped, non-empty, not a `#` comment, and is the stripped form of one of the block's lines |
| CommandParser.CommandsStep | src/grok_cli/utils/command_parser.py:23-36 | a position without a match contributes nothing; a match contributes its own candidates and the search resumes at its end |
| CommandParser.CandidatesOf | src/grok_cli/utils/command_parser.py:24-35 | the loop body adds exactly the candidates of one match: the kept block lines, or the stripped `$ ` text when that text is non-empty |
| CommandParser.ExtractShellCommands | src/grok_cli/utils/command_parser.py:12-37 | the loop over all matches returns exactly the extracted candidates, in order of occurrence, duplicates kept |
| CommandParser.IsShellCommandIffMatches | src/grok_cli/utils/command_parser.py:40-49 | `is_shell_command` holds exactly when `finditer` yields at least one match |
| CommandParser.ExtractedImpliesShellCommand | src/grok_cli/utils/command_parser.py:23-49 | a non-empty extraction implies `is_shell_command` |
| CommandParser.CommentOnlyBlock | src/grok_cli/utils/command_parser.py:23-49 | the converse fails: a block holding only a comment is a shell command that yields no candidate |
| CommandParser.NoMarkers | src/grok_cli/utils/command_parser.py:23-49 | text with neither three backticks nor `$ ` yields nothing and is not a shell command |
| CommandParser.MatchCommandsShape | src/grok_cli/utils/command_parser.py:26-35 | the candidates of one match are stripped and hold no newline; those from a block are non-empty and not comments |
| CommandParser.CommandsShape | src/grok_cli/utils/command_parser.py:21-37 | every candidate from a search position on is stripped and on one line |
| CommandParser.ExtractedShape | src/grok_cli/utils/command_parser.py:21-37 | no extracted candidate has surrounding whitespace or contains a newline |
| CommandParser.SkipPlain | src/grok_cli/utils/command_parser.py:23 | positions holding neither a backtick nor `$` start no match, so `finditer` moves past them |
| CommandParser.DollarLineStep | src/grok_cli/utils/command_parser.py:8 | a `$ ` followed by a line gives that line's match next |
| CommandParser.InlineAfterText | src/grok_cli/utils/command_parser.py:8 | `$ ` is found in the middle of a line: any plain text may precede it, and the candidate is the stripped rest of the line |
| CommandParser.TwoDollarLines | src/grok_cli/utils/command_parser.py:21-37 | two `$ ` lines give two candidates in order; equal lines are both kept |
| CommandParser.DropPrefixesSuffix | src/grok_cli/utils/command_parser.py:64-67 | removing prefixes leaves a suffix of the string |
| CommandParser.CleanCommand | src/grok_cli/utils/command_parser.py:52-73 | the method strips, removes each listed prefix at most once in list order, removes one trailing quote, and strips again, as `Cleaned` says |
| CommandParser.CleanedIsStrippedInfix | src/grok_cli/utils/command_parser.py:64-73 | the cleaned command has no surrounding whitespace and is a substring of the stripped input |
| CommandParser.CleanPrefixOrder | src/grok_cli/utils/command_parser.py:62-67 | the prefixes `$`, `sudo `, `bash -c "` and `"` are tried once each, in that order |
| CommandParser.DropPrefixHit | src/grok_cli/utils/command_parser.py:66-67 | a prefix that is present is removed |
| CommandParser.DropPrefixMiss | src/grok_cli/utils/command_parser.py:66-67 | a prefix whose first character differs is left in place |
| CommandParser.DropQuoteHit | src/grok_cli/utils/command_parser.py:70-71 | a trailing quote that is present is removed |
| CommandParser.DropQuoteMiss | src/grok_cli/utils/command_parser.py:70-71 | without a trailing quote nothing is removed |
| CommandParser.CleanDollarSudo | src/grok_cli/utils/command_parser.py:62-73 | `$sudo ls` cleans to `ls`: `$` goes first, then the `sudo ` right after it |
| CommandParser.CleanDollarSpaceSudo | src/grok_cli/utils/command_parser.py:62-73 | `$ sudo ls` cleans to `sudo ls`: after the `$` is removed, the space keeps `sudo ` from being a prefix |
| CommandParser.CleanDollarOnce | src/grok_cli/utils/command_parser.py:62-73 | `$$ls` cleans to `$ls`: each prefix goes at most once |
| CommandParser.CleanBashC | src/grok_cli/utils/command_parser.py:62-73 | `bash -c "ls -la"` unwraps to `ls -la` |
| CommandParser.CleanQuoteOnce | src/grok_cli/utils/command_parser.py:62-73 | at most one quote goes from each end |
| CommandExecutor.FirstHit | src/grok_cli/utils/command_executor.py:122-124 | the index found is that of a keyword the text contains, with no earlier keyword contained; none is found only when no keyword is contained |
| CommandExecutor.ValidateCommandSafety | src/grok_cli/utils/command_executor.py:90-126 | a dangerous command is refused with the dangerous reason; otherwise it is refused exactly when the lower-cased command contains a keyword, naming the first such keyword in list order; it is safe, with the safe reason, exactly when neither stage fires |
| CommandExecutor.FirstHitIsFirst | src/grok_cli/utils/command_executor.py:122-124 | the first contained keyword is the one reported, whichever it is |
| CommandExecutor.VerdictCaseInsensitive | src/grok_cli/utils/command_executor.py:121-123 | commands equal after lower-casing get the same verdict |
| CommandExecutor.CurlWithUrlPasses | src/grok_cli/utils/command_executor.py:115-123 | `curl http://x \| bash` passes the keyword stage: matching is by literal substring |
| CommandExecutor.FormatOptionFails | src/grok_cli/utils/command_executor.py:115-124 | any command containing `format` and none of the earlier keywords is refused for `format` |
| CommandExecutor.FormatExample | src/grok_cli/utils/command_executor.py:115-124 | `ls --format=long` is refused for containing `format` |
| CommandExecutor.GetCommandPreview | src/grok_cli/utils/command_executor.py:129-148 | a safe command's preview is its description unchanged; otherwise it is the description, the warning sign and the reason |
| CommandExecutor.RunnersAgree | src/grok_cli/utils/command_executor.py:41-87 | both runners report the child's own exit status, and 1 when the command could not be run |
| CommandExecutor.ZeroMeansExitedZero | src/grok_cli/utils/command_executor.py:41-48 | `run_shell_command` reports 0 exactly when the child itself exited with 0; a timeout or failure to start gives 1 |
| CommandExecutor.Shell.constructor | src/grok_cli/utils/command_executor.py:12-32 | a new shell has run nothing yet and answers with the given outcomes |
| CommandExecutor.Shell.RunShellCommand | src/grok_cli/utils/command_executor.py:12-48 | the command is run and logged, and the exit code is that of its outcome; a Ctrl-C escapes as no code |
| Terminal.AskResult | src/grok_cli/core/agent.py:193-195 | a prompt returns the default for an empty line and any other typed line stripped, so a line of spaces gives `""`; Ctrl-C or end of input gives no answer |
| Terminal.ConfirmResult | src/grok_cli/core/agent.py:252-254 | a confirmation is yes exactly when the answer is yes, or a bare Enter with a yes default |
| Terminal.Console.constructor | src/grok_cli/core/agent.py:193-195 | the console holds exactly the given lines and answers |
| Terminal.Console.Ask | src/grok_cli/core/agent.py:193-195 | reading a line consumes it and returns `AskResult`; the yes/no answers are untouched |
| Terminal.Console.Confirm | src/grok_cli/core/agent.py:252-254 | a confirmation consumes one answer and returns `ConfirmResult`; the typed lines are untouched |
| ApiClient.SumLengthsConcat | src/grok_cli/api/client.py:51-53 | the summed content length of two histories joined is the sum of theirs |
| ApiClient.SumLengthsSnoc | src/grok_cli/api/client.py:47-53 | appending a message adds exactly its content length |
| ApiClient.SumLengthsBound | src/grok_cli/api/client.py:51-53 | every message's length counts toward the total |
| ApiClient.ApiMessagesShape | src/grok_cli/api/client.py:55-72 | the payload has one entry per message, plus one exactly when the context is non-empty; that extra entry is a system entry embedding the context and comes first; the rest mirror the messages in order |
| ApiClient.ApiMessagesSystemFirst | src/grok_cli/api/client.py:55-72 | when the history holds only user and assistant messages, the payload starts with a system entry if and only if the context is non-empty |
| ApiClient.SummaryOf | src/grok_cli/api/client.py:221-232 | the total length is the summed content lengths plus the context length; there is a last message exactly when the history is non-empty |
| ApiClient.SummaryAfterAppend | src/grok_cli/api/client.py:221-232 | after one more message the count grows by one, the total by its length, and it is the last message |
| ApiClient.SummaryAfterClear | src/grok_cli/api/client.py:221-236 | a cleared history reports no messages, no last message, and only the context's length |
| ApiClient.Conversation.constructor | src/grok_cli/api/client.py:39-45 | a new conversation has no messages, no context and no session id |
| ApiClient.Conversation.AddMessage | src/grok_cli/api/client.py:47-49 | exactly one message with the given role and content is appended; earlier messages, context and session id are kept; the context length grows by the content length |
| ApiClient.Conversation.FormatForApi | src/grok_cli/api/client.py:55-72 | the loop builds exactly the payload `ApiMessages` describes |
| ApiClient.FirstAvailable | src/grok_cli/api/client.py:122-155 | a model found is one of the candidates and answered 200; when none is found, no candidate answered 200 |
| ApiClient.FirstAvailableIsFirst | src/grok_cli/api/client.py:122-155 | the model found is the first candidate that answered 200 |
| ApiClient.DiscoverAvailableModel | src/grok_cli/api/client.py:118-155 | the models are probed in order; the first that answers 200 is chosen, otherwise the first of the list; a Ctrl-C during a probe escapes |
| ApiClient.PyOr | src/grok_cli/api/client.py:91 | Python's `a or b` gives one of its operands, the first when it is a non-empty string |
| ApiClient.GrokApiClient.constructor | src/grok_cli/api/client.py:78-116 | the client holds the given key, URL, model and server, and a fresh empty conversation |
| ApiClient.GrokApiClient.SetContext | src/grok_cli/api/client.py:157-164 | the context is replaced; the history is kept |
| ApiClient.GrokApiClient.SendMessage | src/grok_cli/api/client.py:166-219 | the user message is recorded before the request and kept whatever happens; on status 200 the reply is recorded and returned, otherwise nothing is returned; a Ctrl-C escapes; the context is kept |
| ApiClient.GrokApiClient.GetConversationSummary | src/grok_cli/api/client.py:221-232 | the summary describes the current history and context; its total is the context length `get_context_length` reports |
| ApiClient.GrokApiClient.ClearConversation | src/grok_cli/api/client.py:234-237 | the history is emptied; the context is kept |
| ApiClient.NewClient | src/grok_cli/api/client.py:78-116 | a missing or empty key is an error; otherwise the key, the URL with its default, and a configured model name are used, the model being discovered only when none is configured |
| Ui.SplitExtShape | src/grok_cli/utils/ui.py:79 | an extension is empty, or one dot followed by text with no dot and no slash that ends the path |
| Ui.SplitExtOfStem | src/grok_cli/utils/ui.py:79 | a name whose stem holds a non-dot character has its final dotted part as its extension |
| Ui.SplitExtOfDotName | src/grok_cli/utils/ui.py:79 | a name that is a leading dot and text (`.env`) has no extension |
| Ui.SplitExtLower | src/grok_cli/utils/ui.py:79 | lower-casing and taking the extension commute |
| Ui.UnknownExtensionGetsDefault | src/grok_cli/utils/ui.py:78-80 | a name without an extension, or with one not in the table, gets the default emoji |
| Ui.EmojiCaseInsensitive | src/grok_cli/utils/ui.py:78-80 | names equal after lower-casing get the same emoji |
| Ui.EmojiOfKnownExtension | src/grok_cli/utils/ui.py:78-80 | a known extension after a plain lower-case stem gets its table emoji |
| Ui.TarGzUsesGz | src/grok_cli/utils/ui.py:78-80 | only the final extension counts: `a.tar.gz` gets the `.gz` emoji |
| Ui.DotEnvGetsDefault | src/grok_cli/utils/ui.py:78-80 | `.env` gets the default emoji, although the table has `.env` |
| Ui.XEnvGetsSeedling | src/grok_cli/utils/ui.py:78-80 | `x.env` gets the `.env` emoji |
| Ui.UpperCaseExtension | src/grok_cli/utils/ui.py:78-80 | `Main.PY` gets the Python emoji |
| FileHandler.ListedIsMembership | src/grok_cli/utils/file_handler.py:14-81 | the entry-by-entry test against `TEXT_EXTENSIONS` is exactly membership, repeats included |
| FileHandler.Suffix | src/grok_cli/utils/file_handler.py:111-113 | a suffix is empty, or one dot and text without a dot that ends the name |
| FileHandler.SuffixOfStem | src/grok_cli/utils/file_handler.py:111-113 | a non-empty stem followed by `.` and dot-free text has exactly that dotted text as its suffix (`a.py` has `.py`) |
| FileHandler.SuffixEmptyIff | src/grok_cli/utils/file_handler.py:111-113 | a name has no suffix exactly when it is empty, ends with a dot, or has no dot after its first character |
| FileHandler.SuffixLower | src/grok_cli/utils/file_handler.py:111-113 | lower-casing and taking the suffix commute |
| FileHandler.IsTextFileCaseInsensitive | src/grok_cli/utils/file_handler.py:111-113 | names equal after lower-casing are both text files or both not |
| FileHandler.TwoDotExtensionsNeverMatch | src/grok_cli/utils/file_handler.py:14-113 | `.env.example`, `.package-lock.json` and `.yarn.lock` can never equal a lower-cased suffix, so those entries of the list never apply |
| FileHandler.EmptyIsNotTextExtension | src/grok_cli/utils/file_handler.py:14-81 | a name without a suffix is never a text file |
| FileHandler.DotEnvIsNotText | src/grok_cli/utils/file_handler.py:111-113 | a file named `.env` is not a text file, while `x.env` is |
| FileHandler.SkipDirectoryExamples | src/grok_cli/utils/file_handler.py:84-118 | every dot-prefixed name is skipped; the `*.egg-info` entry is compared literally, so `grok_cli.egg-info` is not skipped; `node_modules` is skipped and `src` is not |
| FileHandler.ReadNode | src/grok_cli/utils/file_handler.py:121-165 | text is read only from an existing file of at most 1 MiB whose text can be read |
| FileHandler.NameLeTotal | src/grok_cli/utils/file_handler.py:197 | any two names are ordered one way or the other |
| FileHandler.InsertByName | src/grok_cli/utils/file_handler.py:197 | insertion keeps the entries sorted by name and adds exactly the new one |
| FileHandler.SortByName | src/grok_cli/utils/file_handler.py:197 | `sorted(iterdir())` is a permutation of the entries, sorted by name |
| FileHandler.ScanOf | src/grok_cli/utils/file_handler.py:168-227 | a successful scan reports the path and name it was given |
| FileHandler.ScanNode | src/grok_cli/utils/file_handler.py:168-227 | the loop over the sorted entries builds exactly the scan result `ScanOf` describes |
| FileHandler.ScanItem | src/grok_cli/utils/file_handler.py:197-218 | one turn of the loop skips hidden names, lists readable text files, and recurses one level shallower into directories that are not skipped, as `ScanEntry` says |
| FileHandler.ScanDirectory | src/grok_cli/utils/file_handler.py:168-227 | the scan of a path is `Scan`: nothing for a missing, non-directory or unlistable path |
| FileHandler.SortedEntries | src/grok_cli/utils/file_handler.py:197 | the sorted listing holds only entries of the directory |
| FileHandler.ScanShape | src/grok_cli/utils/file_handler.py:198-218 | a successful scan lists nothing hidden at any level, nests no deeper than `max_depth`, and its `contents` map holds exactly its subdirectories, each under its own name |
| FileHandler.ScanItemsSound | src/grok_cli/utils/file_handler.py:197-218 | each file listed passed the hidden-name and text tests and was read from one of the entries; each subdirectory passed the skip test and respects the depth bound |
| FileHandler.ScanEntrySound | src/grok_cli/utils/file_handler.py:197-218 | one turn of the loop keeps what the listing promises |
| FileHandler.ScanSound | src/grok_cli/utils/file_handler.py:168-227 | `scan_directory` of a path reports nothing hidden and nests at most `max_depth` levels; with depth 0 it has no subdirectories; each file comes from a direct entry of the directory |
| FileHandler.TreeLines | src/grok_cli/utils/file_handler.py:241-263 | the first line of a tree is the indent, the folder icon, the name and `/` |
| FileHandler.FileLines | src/grok_cli/utils/file_handler.py:252-256 | there is one file line per listed file |
| FileHandler.SubtreeLines | src/grok_cli/utils/file_handler.py:259-261 | there is one subtree per subdirectory |
| FileHandler.TreeLinesShape | src/grok_cli/utils/file_handler.py:241-263 | every line of a tree starts with its indent, and there is exactly one line per entry at every level, plus one for the directory |
| FileHandler.SubtreesShape | src/grok_cli/utils/file_handler.py:259-261 | the subtrees hold one line per entry they list, each starting with the parent's indent plus two spaces |
| FileHandler.JoinStep | src/grok_cli/utils/file_handler.py:259-263 | extending the lines by the split of a joined subtree joins like appending the subtree's lines |
| FileHandler.FormatDirectoryTree | src/grok_cli/utils/file_handler.py:230-263 | an empty scan formats as `""`; any other formats as the pre-order tree lines joined by newlines |
| FileHandler.FormatTree | src/grok_cli/utils/file_handler.py:244-263 | a non-empty scan formats as its tree lines joined by newlines |
| FileHandler.AppendSubtrees | src/grok_cli/utils/file_handler.py:258-261 | the loop over subdirectories completes the tree's lines |
| FileHandler.FilePartsConcat | src/grok_cli/utils/file_handler.py:276-283 | the parts follow the input order |
| FileHandler.FilePartsSound | src/grok_cli/utils/file_handler.py:276-283 | every part is non-empty and is the header, text and newline of a path of the input whose text is non-empty |
| FileHandler.GetFileContext | src/grok_cli/utils/file_handler.py:266-283 | the loop joins, with newlines, the parts of the files whose text is non-empty |
| FileHandler.JoinEmpty | src/grok_cli/utils/file_handler.py:283 | joining non-empty parts gives `""` exactly when there are none |
| FileHandler.FileContextEmpty | src/grok_cli/utils/file_handler.py:266-283 | the file context is empty exactly when no file yields non-empty text |
| FileHandler.ListedFileParts | src/grok_cli/utils/file_handler.py:305-308 | there is one part per listed file |
| FileHandler.DirectoryPartsTopLevel | src/grok_cli/utils/file_handler.py:298-308 | a directory contributes its tree and then the text of only the files listed at its top level, each read from a direct entry |
| FileHandler.GetDirectoryContext | src/grok_cli/utils/file_handler.py:286-310 | the loop joins, with newlines, each scanned directory's tree part and file parts |
| FileHandler.AddDirectoryParts | src/grok_cli/utils/file_handler.py:298-308 | one turn adds exactly one directory's parts |
| FileHandler.AppendListedFiles | src/grok_cli/utils/file_handler.py:305-308 | the inner loop adds one part per listed file, in order |
| FileHandler.ValidatedMembers | src/grok_cli/utils/file_handler.py:313-345 | a path is kept as a file exactly when it is listed and is an existing text file, and as a directory exactly when it is listed and is a directory |
| FileHandler.ValidatePaths | src/grok_cli/utils/file_handler.py:313-345 | the loop returns exactly the validated files and directories, in input order |
| Strings.JoinSplit | src/grok_cli/utils/file_handler.py:261-263 | joining the split of a string gives back the string |
| Strings.StripEmpty | src/grok_cli/core/agent.py:200 | a line strips to `""` exactly when it is all whitespace |
| Strings.ParseIntOfNatToString | src/grok_cli/utils/interactive_prompts.py:166 | `int` parses the decimal digits of a number back to the number |
| Strings.ParseIntOfNegative | src/grok_cli/utils/interactive_prompts.py:166 | `int` accepts a leading minus sign, so `-3` is a number, which the pick then drops |
| InteractivePrompts.ParsedTokens | src/grok_cli/utils/interactive_prompts.py:166 | one parse result per token |
| InteractivePrompts.Decremented | src/grok_cli/utils/interactive_prompts.py:166 | a list of indices has one index per token |
| InteractivePrompts.DecrementedMeaning | src/grok_cli/utils/interactive_prompts.py:166 | the selection is rejected exactly when some token is not an integer; otherwise each index is its number less one |
| InteractivePrompts.Pick | src/grok_cli/utils/interactive_prompts.py:167-169 | at most one file per index, and each picked file is a listed file |
| InteractivePrompts.PickConcat | src/grok_cli/utils/interactive_prompts.py:167-169 | picking keeps the order of the numbers and keeps repeats |
| InteractivePrompts.PickOne | src/grok_cli/utils/interactive_prompts.py:167-169 | one number picks its file when in range and nothing otherwise, so `0` and negative numbers are dropped |
| InteractivePrompts.PickEmpty | src/grok_cli/utils/interactive_prompts.py:167-175 | nothing is picked exactly when no index is in range |
| InteractivePrompts.SelectionTurnNumbers | src/grok_cli/utils/interactive_prompts.py:159-185 | a list of numbers is accepted exactly when every token is an integer and one is in range, and the files accepted are those picked |
| InteractivePrompts.SelectionLoopSound | src/grok_cli/utils/interactive_prompts.py:156-185 | a selection the loop returns is never empty and holds only listed files |
| InteractivePrompts.SelectionKeywords | src/grok_cli/utils/interactive_prompts.py:157-162 | Enter, or `all` in any case and with any padding, selects every file; `none` in any case and with any padding selects nothing |
| InteractivePrompts.DeclineRetry | src/grok_cli/utils/interactive_prompts.py:171-185 | an answer whose stripped form is rejected, followed by "no", ends the prompt with nothing selected |
| InteractivePrompts.PromptForFileSelection | src/grok_cli/utils/interactive_prompts.py:132-185 | with no text files nothing is asked and nothing is selected; otherwise the loop's result and the answers it consumes are those of `SelectionLoop` |
| InteractivePrompts.Resolve | src/grok_cli/utils/interactive_prompts.py:86-90 | an absolute path stays as it is; a relative one is placed under the working directory; the result ends with the input |
| InteractivePrompts.CustomLoopSound | src/grok_cli/utils/interactive_prompts.py:75-110 | a path the loop returns is an existing directory and the resolution of a typed line, stripped and non-empty |
| InteractivePrompts.EmptyInputCancels | src/grok_cli/utils/interactive_prompts.py:76-83 | an empty or all-blank answer confirmed with Enter or yes cancels |
| InteractivePrompts.RelativeDirectorySelected | src/grok_cli/utils/interactive_prompts.py:85-105 | a relative answer naming a directory under the working directory selects it there, padding stripped |
| InteractivePrompts.PromptForCustomDirectory | src/grok_cli/utils/interactive_prompts.py:63-110 | the loop's result and the answers it consumes are those of `CustomLoop` |
| InteractivePrompts.MenuChoices | src/grok_cli/utils/interactive_prompts.py:45-60 | padding ignored, `1` or Enter gives the current directory, `2` an empty context and `4` exit; `3` gives the directory the custom prompt selects, or an empty context when it is cancelled; any other answer, a line of spaces included, asks again |
| InteractivePrompts.MenuAnswer | src/grok_cli/utils/interactive_prompts.py:46-60 | given the answer `Prompt.ask` returned, `1` gives the current directory, `2` an empty context, `4` exit, `3` the custom prompt's outcome, and anything else asks again |
| InteractivePrompts.MenuLoopSound | src/grok_cli/utils/interactive_prompts.py:45-60 | a directory the menu returns is the current one or an existing directory chosen through the custom prompt |
| InteractivePrompts.PromptForDirectorySelection | src/grok_cli/utils/interactive_prompts.py:13-60 | the loop's result and the answers it consumes are those of `MenuLoop` |
| Agent.ShouldExitIgnoresPadding | src/grok_cli/core/agent.py:211-223 | surrounding whitespace does not matter to the exit check |
| Agent.ExitWordsAreNotBlank | src/grok_cli/core/agent.py:197-201 | an exit word is never blank, so the exit check and the blank-line skip never both apply |
| Agent.ShouldExitExamples | src/grok_cli/core/agent.py:220-223 | `QUIT` and `exit` end the session; `exit now` does not |
| Agent.ContextPreview | src/grok_cli/core/agent.py:168-177 | a context of at most 500 characters is shown whole; a longer one as its first 500 characters followed by `...` |
| Agent.TotalContext | src/grok_cli/core/agent.py:127-160 | the assembled text is empty exactly when there are no valid files and no valid directories |
| Agent.ContextAccumulated | src/grok_cli/core/agent.py:127-160 | what the method accumulates, file part first and directory part second, is the assembled context |
| Agent.FileTextInContext | src/grok_cli/core/agent.py:127-160 | every readable non-empty file of the list appears in the assembled context under its own header |
| Agent.JoinContains | src/grok_cli/utils/file_handler.py:283 | each part of a join is contained in it |
| Agent.UnreadableFilesStillSetContext | src/grok_cli/core/agent.py:129-166 | when files were found but none could be read, the context is still set, to a single newline |
| Agent.ProcessedContextCases | src/grok_cli/core/agent.py:78-93 | the context is left as it was when no path is a text file or a directory; when one is, the context is replaced by the assembled text, which is non-empty |
| Agent.SpecificTextFileContext | src/grok_cli/core/agent.py:48-70 | a readable text file given as the context path becomes the whole context: its header, its text and a newline |
| Agent.UnusablePathKeepsContext | src/grok_cli/core/agent.py:59-93 | a missing context path, or one that is neither a text file nor a directory, leaves the context as it was |
| Agent.HandleCommands | src/grok_cli/core/agent.py:245-257 | no more commands are run than were suggested |
| Agent.SubsequenceMembers | src/grok_cli/core/agent.py:248-257 | everything in a subsequence is in the sequence |
| Agent.HandleRunsSubsequence | src/grok_cli/core/agent.py:245-257 | only suggested commands run, each at most once, in the order suggested |
| Agent.HandleAllDeclined | src/grok_cli/core/agent.py:252-257 | when no answer is an explicit yes (Enter takes the default no), nothing runs |
| Agent.HandleAllAccepted | src/grok_cli/core/agent.py:248-257 | when every answer is yes and no command is interrupted, every suggested command runs, in order |
| Agent.HandleDeclinedStep | src/grok_cli/core/agent.py:252-257 | a command answered no is skipped and the next one is offered |
| Agent.HandleRanStep | src/grok_cli/core/agent.py:252-257 | a command run to its end is followed by the next one |
| Agent.InputsSound | src/grok_cli/core/agent.py:191-203 | every line forwarded is sendable (neither an exit word nor blank), has no surrounding whitespace, and is a typed line stripped |
| Agent.InputsStopAtExit | src/grok_cli/core/agent.py:197-198 | nothing typed after an exit word, padded or not, is sent |
| Agent.UserTurns | src/grok_cli/api/client.py:47-49 | a history has no more user turns than messages |
| Agent.UserTurnsStep | src/grok_cli/api/client.py:177-202 | a user message, with or without a reply, adds exactly one user turn |
| Agent.UserTurnsConcat | src/grok_cli/api/client.py:47-49 | the user turns of a history are those of its parts |
| Agent.SuggestedCommandsConcat | src/grok_cli/core/agent.py:231-245 | the commands a history suggests are those of its parts |
| Agent.ReplySuggests | src/grok_cli/core/agent.py:231-245 | a user message and its reply suggest exactly the commands of the reply |
| Agent.SubsequenceConcat | src/grok_cli/core/agent.py:245-257 | subsequences of two parts make a subsequence of the parts joined |
| Agent.SentTurn | src/grok_cli/core/agent.py:203 | a forwarded line adds exactly one user turn, that line |
| Agent.SessionStep | src/grok_cli/core/agent.py:191-207 | the history and the log of one turn compose with those of the session so far |
| Agent.SessionAdvance | src/grok_cli/core/agent.py:191-209 | one turn of the chat loop either keeps the session's account true or ends it with the lines sent a prefix of those forwarded, all of them unless cut short |
| Agent.GrokAgent.constructor | src/grok_cli/core/agent.py:30-37 | the agent holds the client and is not running |
| Agent.GrokAgent.BuildAndSetContext | src/grok_cli/core/agent.py:118-166 | the context becomes the assembled text when that is non-empty and is otherwise left as it was; the history is kept |
| Agent.GrokAgent.ProcessContext | src/grok_cli/core/agent.py:78-93 | the context after processing is `ProcessedContext` of the paths; the history is kept |
| Agent.GrokAgent.SetupContext | src/grok_cli/core/agent.py:48-76 | without a path the current directory `.` is processed; a given path that does not exist leaves the context unchanged; otherwise that path is processed |
| Agent.GrokAgent.HandleShellCommands | src/grok_cli/core/agent.py:239-257 | the commands extracted from the reply are offered in order; the commands run and the answers consumed are those `HandleCommands` gives; a Ctrl-C ends the round |
| Agent.GrokAgent.OfferCommands | src/grok_cli/core/agent.py:247-257 | the loop runs the commands `HandleCommands` selects and consumes the answers it consumes; the typed lines are untouched |
| Agent.GrokAgent.OfferCommand | src/grok_cli/core/agent.py:248-257 | one command is offered; the round stops on Ctrl-C, otherwise it goes on with the next command |
| Agent.GrokAgent.ProcessUserInput | src/grok_cli/core/agent.py:225-237 | the user message is recorded; without a reply nothing runs and a Ctrl-C escapes; an empty reply runs nothing; a non-empty reply has its commands handled; every command run was suggested by the reply; the context is kept |
| Agent.GrokAgent.ChatTurn | src/grok_cli/core/agent.py:191-207 | one turn reads a line; end of input, Ctrl-C or an exit word stops; a blank line is skipped; any other line is sent, stripped as `Prompt.ask` returns it, as exactly one user turn |
| Agent.GrokAgent.RunInteractiveLoop | src/grok_cli/core/agent.py:179-209 | after the loop the agent is not running; the lines sent are those `Inputs` selects, all of them unless a request or a command was cut short; every command run was suggested by a reply of this session, in order; the context is kept |
| Agent.GrokAgent.StartSession | src/grok_cli/core/agent.py:39-46 | the context is set up as `ContextAfterSetup` says, then the session runs as `RunInteractiveLoop` says |

## Left out

- Printing: Rich panels, tables, previews and status lines are not modelled. This covers `_display_context_summary`, the printing half of `_display_context_preview`, and the `print_ascii_art`, `error_panel`, `info_panel` and `loading_spinner` helpers of `utils/ui.py`. `ContextPreview` models only the truncation. Rich parses the text these prints carry as markup, and text holding an unmatched closing tag such as `[/]` raises `MarkupError`. That covers the context preview, Grok's reply, each suggested command, `run_shell_command`'s echo of the command and its output, and the HTTP error body. No handler on the path catches it: the chat loop catches only `KeyboardInterrupt` and `EOFError`, and the `except Exception` handlers re-print the message, which repeats the tag. The session then ends uncaught without `_end_session`. The model assumes every print succeeds.
- The per-directory `scan_directory` loop in `_build_and_set_context` (`core/agent.py:141-154`) only prints counts. It is not modelled.
- The agent's own copy of the command pattern (`core/agent.py:22-24`) is never used and is not modelled.
- Child processes, HTTP, the clock and the environment are parameters: `Shell.outcomeOf`, `GrokApiClient.server`, and the optional keys given to `NewClient`. Output streaming, request headers, timeouts as durations and message timestamps are not modelled.
- `save_conversation`, `load_conversation` and `test_grok_connection` (`api/client.py:239-328`) do file I/O and JSON outside the session, client and helpers modelled here. They are not modelled.
- The body of `run_shell_command_interactive` streams output. Only its returned code is modelled, by `InteractiveReturnCode`.
- `is_dangerous_command` and `get_command_description` are not part of this model. `validate_command_safety` and `get_command_preview` import them from `utils/command_parser.py` (`utils/command_executor.py:100` and `:139`), which does not define them. As written, every call of either function therefore raises `ImportError` before any keyword is checked. `CommandExecutor.ValidateCommandSafety` and `CommandExecutor.GetCommandPreview` model the two functions as they would run with the two helpers supplied, as function parameters.
- `prompt_for_file_selection` gathers the text files with `rglob`. That walk is not modelled; the list is a parameter of `PromptForFileSelection`. Before the walk, the function first imports `get_file_emoji` from `utils/file_handler.py`, which does not define it (it is in `utils/ui.py`), so the function raises `ImportError` before any prompt. The model covers the selection logic as it would run after a corrected import.
- The directory preview that `prompt_for_directory_selection` prints is not modelled, and neither are `confirm_action` and `prompt_for_input`.
- Paths are strings in the normal form `str(Path(p))` produces. `Path` normalisation (`a//b`, `./a`) and symbolic links are not modelled.
- OS errors other than the ones the entry tree expresses are not modelled. The tree can express a missing path, an unreadable or non-UTF-8 file, an oversize file, and an unlistable directory.
- `Strings.Lower` and `Strings.Strip` follow Python on ASCII only. Non-ASCII case mapping and whitespace are not modelled.
- `Strings.ParseInt`: ASCII digits only. Python's `int` also accepts the other Unicode decimal digits, so `int("３") == 3`; here such a token gives `None`. A file selection typed with full-width digits, such as `１,３`, picks files 1 and 3 in the source but asks again in `InteractivePrompts.SelectionLoop`.
- `ApiClient.GrokApiClient.SendMessage`: a status-200 reply whose first choice has `"content": null` is not modelled; `ApiOutcome` cannot express it, because message contents are strings. The source appends an assistant message with content `None` (`api/client.py:199-202`), then `len(None)` at `:205` raises `TypeError`, which `:217-219` catches. The call returns `None` with the history grown by two messages. The contract's `reply.None?` case promises only the user message added, which holds for every reply the model expresses.
- `Terminal.ConfirmResult`: Rich re-asks on an answer that is neither yes nor no. The model takes the answer queue to hold only the final answer.
- `Agent.GrokAgent.RunInteractiveLoop`: when a request or a command is cut short by Ctrl-C, the contract states only that the lines sent are a prefix of those `Inputs` selects, not which prefix.
- `InteractivePrompts.DecrementedMeaning`: it is stated over the parsed tokens. Which strings `int` accepts is given separately by `Strings.ParseInt`.
- `FileHandler.ScanOf`: it is written over a pair of name tests, the text-file and skip-directory tests (`Filters`); `Scan` passes the module's own tests.
