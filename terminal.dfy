/**
 * The user at the terminal, as the prompts see them: Rich's `Prompt.ask` and
 * `Confirm.ask` read the next answer from a queue. An answer is either given or
 * cut short by Ctrl-C or end of input (`KeyboardInterrupt` / `EOFError`); an
 * exhausted queue reads as end of input.
 */
module Terminal {
  import opened Wrappers
  import opened Strings

  datatype Answer<+T> = Given(value: T) | Interrupted

  /** What `Prompt.ask(default=d)` returns on the next line. The queue holds the lines as
      typed: an empty line gives `d`, and any other line comes back stripped, so a line of
      spaces gives "" rather than `d`. */
  function AskResult(lines: seq<Answer<string>>, default: string): (r: Answer<string>)
    ensures r.Given? <==> |lines| > 0 && lines[0].Given?
    ensures r.Given? && lines[0].value != "" ==> r.value == Strip(lines[0].value) && IsStripped(r.value)
    ensures r.Given? && lines[0].value == "" ==> r.value == default
  {
    if |lines| == 0 then Interrupted
    else match lines[0]
      case Interrupted => Interrupted
      case Given(s) => Given(if s == "" then default else Strip(s))
  }

  /** What `Confirm.ask(default=d)` returns on the next answer: `None` is a bare Enter,
      which takes `d`. Rich re-asks on anything but y/n; the queue holds the final answer. */
  function ConfirmResult(answers: seq<Answer<Option<bool>>>, default: bool): (r: Answer<bool>)
    ensures r.Given? <==> |answers| > 0 && answers[0].Given?
    ensures r == Given(true) <==> |answers| > 0 && (answers[0] == Given(Some(true)) || (default && answers[0] == Given(None)))
  {
    if |answers| == 0 then Interrupted
    else match answers[0]
      case Interrupted => Interrupted
      case Given(a) => Given(if a.Some? then a.value else default)
  }

  /** The queue after one answer is read; end of input consumes nothing. */
  function Rest<T>(q: seq<T>): (r: seq<T>)
    ensures |q| > 0 ==> |r| == |q| - 1
  {
    if |q| == 0 then [] else q[1..]
  }

  /** The answers still to be typed. */
  class Console {
    var lines: seq<Answer<string>>
    var answers: seq<Answer<Option<bool>>>

    constructor(lines: seq<Answer<string>>, answers: seq<Answer<Option<bool>>>)
      ensures this.lines == lines && this.answers == answers
    {
      this.lines := lines;
      this.answers := answers;
    }

    /** `Prompt.ask(..., default=default)`. */
    method Ask(default: string) returns (r: Answer<string>)
      modifies this
      ensures r == AskResult(old(lines), default)
      ensures lines == Rest(old(lines)) && answers == old(answers)
    {
      r := AskResult(lines, default);
      lines := Rest(lines);
    }

    /** `Confirm.ask(..., default=default)`. */
    method Confirm(default: bool) returns (r: Answer<bool>)
      modifies this
      ensures r == ConfirmResult(old(answers), default)
      ensures answers == Rest(old(answers)) && lines == old(lines)
    {
      r := ConfirmResult(answers, default);
      answers := Rest(answers);
    }
  }
}
