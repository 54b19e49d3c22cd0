/**
 * The embedded console of main.js: the display log that `displayInConsole`
 * appends to, its clear and copy buttons, and the command line that
 * evaluates a command first as an expression and then as statements.
 */
module Console {
  import opened Options
  import opened Text

  /** The kinds of display lines (the `c-log`, `c-warn`, `c-err` and `c-meta` classes). */
  datatype Kind = Log | Warn | Err | Meta

  datatype Entry = Entry(text: string, kind: Kind)

  /**
   * A value handed to `displayInConsole`. An object carries what
   * `JSON.stringify(arg, null, 2)` gives for it (None when that throws) and
   * what `String(arg)` gives; every other value carries its `String(arg)`.
   */
  datatype JsValue =
    | Undefined
    | Primitive(text: string)
    | Object(json: Option<string>, text: string)

  /** How one argument is written: objects pretty-printed, falling back to `String`, the rest by `String`. */
  function Format(v: JsValue): string {
    match v
    case Undefined => "undefined"
    case Primitive(t) => t
    case Object(Some(j), _) => j
    case Object(None, t) => t
  }

  function FormatAll(args: seq<JsValue>): (ts: seq<string>)
    ensures |ts| == |args|
    ensures forall i :: 0 <= i < |args| ==> ts[i] == Format(args[i])
  {
    if args == [] then [] else [Format(args[0])] + FormatAll(args[1..])
  }

  /** The text of the line `displayInConsole(args, kind)` appends: the formatted arguments joined by one space. */
  function LineText(args: seq<JsValue>): string {
    Join(FormatAll(args), " ")
  }

  /** A single string argument is shown as it is. */
  lemma LineTextOfOne(v: JsValue)
    ensures LineText([v]) == Format(v)
    ensures forall s :: v == Primitive(s) ==> LineText([v]) == s
  {
    assert FormatAll([v]) == [Format(v)];
  }

  /** `consoleOut.textContent`: the texts of all lines, run together. */
  function AllText(entries: seq<Entry>): string {
    if entries == [] then [] else entries[0].text + AllText(entries[1..])
  }

  /** Copying text appended after more lines extends the copied text by theirs. */
  lemma {:induction false} AllTextAppend(a: seq<Entry>, b: seq<Entry>)
    ensures AllText(a + b) == AllText(a) + AllText(b)
  {
    if a == [] {
      assert a + b == b;
      assert AllText(a) + AllText(b) == AllText(b);
    } else {
      var t := a[1..] + b;
      assert (a + b)[0] == a[0] && (a + b)[1..] == t;
      assert AllText(a + b) == a[0].text + AllText(t);
      AllTextAppend(a[1..], b);
      ConcatAssoc(a[0].text, AllText(a[1..]), AllText(b));
    }
  }

  // ---------------------------------------------------------------- copy

  const CopiedNotice: string := "\U{1F4CB} Copied to clipboard"
  const CopyFailedNotice: string := "Failed to copy"

  /** The one line the copy button appends, given whether the clipboard accepted the text. */
  function CopyEntry(clipboardOk: bool): (e: Entry)
    ensures e.kind == Meta <==> clipboardOk
    ensures e.kind == Err <==> !clipboardOk
  {
    if clipboardOk then Entry(CopiedNotice, Meta) else Entry(CopyFailedNotice, Err)
  }

  // ---------------------------------------------------------------- command evaluation

  /**
   * What running a piece of code gives: the value it returned (`undefined`
   * when it returned none) or the message of what it threw.
   */
  datatype Outcome = Returned(value: JsValue) | Threw(message: string)

  /** The code run in expression mode: `return (cmd)`. */
  function ExpressionCode(cmd: string): string {
    "return (" + cmd + ")"
  }

  /** The codes run, in order: the expression form, then the command itself only when the first threw. */
  function Attempts(cmd: string, run: string -> Outcome): seq<string> {
    if run(ExpressionCode(cmd)).Threw? then [ExpressionCode(cmd), cmd] else [ExpressionCode(cmd)]
  }

  /** The outcome of a submitted command; when both attempts throw, the error of the expression attempt. */
  function Evaluate(cmd: string, run: string -> Outcome): Outcome {
    var first := run(ExpressionCode(cmd));
    if first.Returned? then first
    else
      var second := run(cmd);
      if second.Returned? then second else first
  }

  /** The lines a submission shows after its echo: the value when defined, nothing for `undefined`, or the error. */
  function ResultEntries(outcome: Outcome): seq<Entry> {
    match outcome
    case Returned(v) => if v == Undefined then [] else [Entry(LineText([v]), Log)]
    case Threw(m) => [Entry(LineText([Primitive(m)]), Err)]
  }

  /** Everything a press of Enter on the command line appends to the log. */
  function SubmitEntries(typed: string, run: string -> Outcome): seq<Entry> {
    var cmd := Trim(typed);
    if cmd == [] then []
    else [Entry("> " + cmd, Meta)] + ResultEntries(Evaluate(cmd, run))
  }

  /** A blank or white-space-only command appends nothing. */
  lemma BlankCommandIsIgnored(typed: string, run: string -> Outcome)
    requires forall k :: 0 <= k < |typed| ==> IsSpace(typed[k])
    ensures SubmitEntries(typed, run) == []
  {
    TrimBlank(typed);
  }

  /**
   * Any other command appends the echo `> cmd` first, as a meta line, and
   * after it one log line, one error line, or nothing.
   */
  lemma SubmitShape(typed: string, run: string -> Outcome)
    requires Trim(typed) != []
    ensures var es := SubmitEntries(typed, run);
      && 1 <= |es| <= 2
      && es[0] == Entry("> " + Trim(typed), Meta)
      && (|es| == 2 ==> es[1].kind == Log || es[1].kind == Err)
      && (|es| == 1 <==> Evaluate(Trim(typed), run) == Returned(Undefined))
      && (|es| == 2 && es[1].kind == Log <==> Evaluate(Trim(typed), run).Returned? && Evaluate(Trim(typed), run).value != Undefined)
  {
  }

  /**
   * The statement attempt runs only after the expression attempt threw; a
   * command that succeeds as an expression is never run as statements.
   */
  lemma StatementOnlyAfterExpressionFails(cmd: string, run: string -> Outcome)
    ensures Attempts(cmd, run)[0] == ExpressionCode(cmd)
    ensures |Attempts(cmd, run)| == 2 <==> run(ExpressionCode(cmd)).Threw?
    ensures run(ExpressionCode(cmd)).Returned? ==> Evaluate(cmd, run) == run(ExpressionCode(cmd))
    ensures run(ExpressionCode(cmd)).Threw? && run(cmd).Returned? ==> Evaluate(cmd, run) == run(cmd)
  {
  }

  /** When both attempts throw, the error shown is the expression attempt's, not the statement attempt's. */
  lemma ExpressionErrorWins(typed: string, run: string -> Outcome)
    requires Trim(typed) != []
    requires run(ExpressionCode(Trim(typed))).Threw? && run(Trim(typed)).Threw?
    ensures SubmitEntries(typed, run)
         == [Entry("> " + Trim(typed), Meta), Entry(run(ExpressionCode(Trim(typed))).message, Err)]
  {
    LineTextOfOne(Primitive(run(ExpressionCode(Trim(typed))).message));
  }

  // ---------------------------------------------------------------- the log

  /**
   * The `#consoleOut` element and the lines it holds. When the page has no
   * such element (`mounted` false) every console operation does nothing.
   */
  class DisplayLog {
    const mounted: bool
    var entries: seq<Entry>

    ghost predicate Valid()
      reads this
    {
      !mounted ==> entries == []
    }

    constructor (mounted: bool)
      ensures Valid()
      ensures this.mounted == mounted && entries == []
    {
      this.mounted := mounted;
      entries := [];
    }

    /** `displayInConsole(args, kind)`: exactly one new line, holding the formatted arguments. */
    method Display(args: seq<JsValue>, kind: Kind)
      requires Valid()
      modifies this
      ensures Valid()
      ensures entries == old(entries) + (if mounted then [Entry(LineText(args), kind)] else [])
    {
      if mounted {
        entries := entries + [Entry(LineText(args), kind)];
      }
    }

    /** The clear button: every line goes. */
    method Clear()
      requires Valid()
      modifies this
      ensures Valid()
      ensures entries == []
    {
      if mounted {
        entries := [];
      }
    }

    /**
     * The copy button: hands the text of all lines to the clipboard, then
     * appends one confirmation or one failure line. Returns the text handed
     * over, or None when there is no console element.
     */
    method Copy(clipboardOk: bool) returns (copied: Option<string>)
      requires Valid()
      modifies this
      ensures Valid()
      ensures copied == if mounted then Some(AllText(old(entries))) else None
      ensures entries == old(entries) + (if mounted then [CopyEntry(clipboardOk)] else [])
    {
      if mounted {
        copied := Some(AllText(entries));
        var notice := if clipboardOk then CopiedNotice else CopyFailedNotice;
        var kind := if clipboardOk then Meta else Err;
        Display([Primitive(notice)], kind);
        LineTextOfOne(Primitive(notice));
      } else {
        copied := None;
      }
    }

    /**
     * A key press on the command line. On Enter with a non-blank command:
     * echo it, run it as an expression, fall back to statements only when
     * that throws, show the value or the expression attempt's error, and
     * clear the input. Returns the codes run, in order, and whether the
     * input was cleared.
     */
    method KeyDown(key: string, typed: string, run: string -> Outcome)
      returns (ran: seq<string>, cleared: bool)
      requires Valid()
      modifies this
      ensures Valid()
      ensures key != "Enter" ==> ran == [] && !cleared && entries == old(entries)
      ensures key == "Enter" ==>
        && cleared == (Trim(typed) != [])
        && ran == (if cleared then Attempts(Trim(typed), run) else [])
        && entries == old(entries) + (if mounted then SubmitEntries(typed, run) else [])
    {
      ran, cleared := [], false;
      if key != "Enter" {
        return;
      }
      var cmd := Trim(typed);
      if cmd == [] {
        return;
      }
      Display([Primitive("> " + cmd)], Meta);
      LineTextOfOne(Primitive("> " + cmd));

      var outcome := run(ExpressionCode(cmd));
      ran := [ExpressionCode(cmd)];
      if outcome.Threw? {
        ran := ran + [cmd];
        var second := run(cmd);
        if second.Returned? {
          outcome := second;
        }
      }

      match outcome {
        case Returned(v) =>
          if v != Undefined {
            Display([v], Log);
          }
        case Threw(m) =>
          Display([Primitive(m)], Err);
      }
      cleared := true;
    }
  }
}
